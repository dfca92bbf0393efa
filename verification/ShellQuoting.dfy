/**
 Quoting a word for a POSIX shell, and reading the command back by the shell's own quoting rules:
 sections 2.2.1 (escape character) and 2.2.2 (single-quotes) of the POSIX.1-2017 Shell Command Language.
 */
module ShellQuoting {
  import opened Common

  predicate IsSafe(c: char) {
    'a' <= c <= 'z' || 'A' <= c <= 'Z' || '0' <= c <= '9'
    || c == '@' || c == '%' || c == '_' || c == '+' || c == '=' || c == ':' || c == ',' || c == '.' || c == '/' || c == '-'
  }

  predicate AllSafe(s: string) {
    forall c | c in s :: IsSafe(c)
  }

  /** `value.replace('\'', "'\\''")`. */
  function EscapeQuotes(value: string): string {
    if value == "" then ""
    else (if value[0] == '\'' then "'\\''" else [value[0]]) + EscapeQuotes(value[1..])
  }

  function ShellQuote(value: string): string {
    if value != "" && AllSafe(value) then value else "'" + EscapeQuotes(value) + "'"
  }

  function SshCheckCommand(target: string): string {
    "ssh " + ShellQuote(target)
  }

  // --- The shell's side ---

  const NUL: char := '\U{0000}'

  predicate IsBlank(c: char) {
    c == ' ' || c == '\t' || c == '\n'
  }

  /** The characters section 2.2 lists as special, without `=` and `%`, which matter only in assignments and job names. */
  const SPECIAL: string := "|&;<>()$`\\\"' \t\n*?[#~"

  /** Characters that stand for themselves outside quotes; every other one unquoted is refused here. */
  predicate IsPlain(c: char) {
    c !in SPECIAL && c != NUL
  }

  lemma {:induction false} SafeIsPlain(c: char)
    requires IsSafe(c)
    ensures IsPlain(c) && !IsBlank(c) && c != '\'' && c != '\\'
  {
    forall i | 0 <= i < |SPECIAL| ensures SPECIAL[i] != c {
      assert !IsSafe(SPECIAL[i]);
    }
  }

  /** Between words, inside a word outside quotes, or inside single quotes. */
  datatype Mode = Between | InWord | InQuotes

  /**
   Splitting into words. Outside quotes blanks separate words, a backslash quotes the next character
   (a backslash before a newline joins lines), and a quote opens a quoted part; inside single quotes
   every character stands for itself up to the next quote. An unquoted character with any other
   meaning to the shell, a NUL, or an unfinished quote is an error.
   */
  function Words(s: string, mode: Mode, word: string): Option<seq<string>>
    decreases |s|
  {
    if s == "" then
      match mode
      case Between => Some([])
      case InWord => Some([word])
      case InQuotes => None
    else if s[0] == NUL then None
    else if mode.InQuotes? then
      if s[0] == '\'' then Words(s[1..], InWord, word) else Words(s[1..], InQuotes, word + [s[0]])
    else if s[0] == '\'' then Words(s[1..], InQuotes, word)
    else if s[0] == '\\' then
      if |s| == 1 || s[1] == NUL then None
      else if s[1] == '\n' then Words(s[2..], mode, word)
      else Words(s[2..], InWord, word + [s[1]])
    else if IsBlank(s[0]) then
      if mode.Between? then Words(s[1..], Between, "")
      else
        var rest := Words(s[1..], Between, "");
        if rest.None? then None else Some([word] + rest.value)
    else if IsPlain(s[0]) then Words(s[1..], InWord, word + [s[0]])
    else None
  }

  function SplitWords(s: string): Option<seq<string>> {
    Words(s, Between, "")
  }

  lemma {:induction false} SafeTextReadsBack(value: string, mode: Mode, word: string)
    requires AllSafe(value) && !mode.InQuotes? && (mode.Between? ==> word == "" && value != "")
    ensures Words(value, mode, word) == Some([word + value])
    decreases |value|
  {
    if value == "" {
      assert word + value == word;
    } else {
      assert value[0] in value;
      SafeIsPlain(value[0]);
      assert forall c | c in value[1..] :: c in value;
      SafeTextReadsBack(value[1..], InWord, word + [value[0]]);
      assert (word + [value[0]]) + value[1..] == word + value;
    }
  }

  lemma {:induction false} QuotedTextReadsBack(value: string, word: string)
    requires NUL !in value
    ensures Words(EscapeQuotes(value) + "'", InQuotes, word) == Some([word + value])
    decreases |value|
  {
    var tail := "'";
    if value == "" {
      assert EscapeQuotes(value) + tail == tail && tail[1..] == "";
      assert word + value == word;
    } else {
      assert value[0] in value && forall c | c in value[1..] :: c in value;
      var rest := EscapeQuotes(value[1..]) + tail;
      QuotedTextReadsBack(value[1..], word + [value[0]]);
      assert (word + [value[0]]) + value[1..] == word + value;
      var s := EscapeQuotes(value) + tail;
      if value[0] == '\'' {
        assert s == "'\\''" + rest;
        assert s[1..] == "\\''" + rest && s[1..][2..] == "'" + rest && ("'" + rest)[1..] == rest;
        assert s[0] == '\'' && s[1..][0] == '\\' && s[1..][1] == '\'';
        assert Words(s, InQuotes, word) == Words(s[1..], InWord, word);
        assert Words(s[1..], InWord, word) == Words("'" + rest, InWord, word + ['\'']);
      } else {
        assert s == [value[0]] + rest && s[1..] == rest;
      }
    }
  }

  /** The shell reads the quoted value as one word, the value itself. */
  lemma {:induction false} QuoteReadsBack(value: string)
    requires NUL !in value
    ensures SplitWords(ShellQuote(value)) == Some([value])
  {
    if value != "" && AllSafe(value) {
      SafeTextReadsBack(value, Between, "");
      assert "" + value == value;
    } else {
      QuotedTextReadsBack(value, "");
      assert "" + value == value;
      var s := ShellQuote(value);
      assert s[0] == '\'' && s[1..] == EscapeQuotes(value) + "'";
    }
  }

  /** Safe text up to a blank is one word of the command, and the rest reads as it would alone. */
  lemma {:induction false} SafeTextThenBlank(value: string, rest: string, mode: Mode, word: string)
    requires AllSafe(value) && !mode.InQuotes? && (mode.Between? ==> value != "")
    requires SplitWords(rest).Some?
    ensures Words(value + " " + rest, mode, word) == Some([word + value] + SplitWords(rest).value)
    decreases |value|
  {
    var s := value + " " + rest;
    if value == "" {
      assert s == " " + rest && s[1..] == rest && word + value == word;
    } else {
      assert value[0] in value;
      SafeIsPlain(value[0]);
      assert forall c | c in value[1..] :: c in value;
      assert s[1..] == value[1..] + " " + rest;
      SafeTextThenBlank(value[1..], rest, InWord, word + [value[0]]);
      assert (word + [value[0]]) + value[1..] == word + value;
    }
  }

  /** For every target without a NUL the shell sees exactly two words: `ssh` and the target. */
  lemma {:induction false} SshCommandReadsBack(target: string)
    requires NUL !in target
    ensures SplitWords(SshCheckCommand(target)) == Some(["ssh", target])
  {
    var quoted := ShellQuote(target);
    QuoteReadsBack(target);
    hide ShellQuote, Words, EscapeQuotes;
    SafeTextThenBlank("ssh", quoted, Between, "");
    assert "ssh" + " " + quoted == SshCheckCommand(target) && "" + "ssh" == "ssh";
    assert ["ssh"] + [target] == ["ssh", target];
  }

  /** A NUL cannot be quoted: it is the one character that keeps a target from reading back. */
  lemma {:induction false} NulNeverReadsBack(s: string, mode: Mode, word: string)
    requires NUL in s
    ensures Words(s, mode, word).None?
    decreases |s|
  {
    if s[0] != NUL {
      assert NUL in s[1..];
      NulNeverReadsBack(s[1..], InQuotes, word);
      NulNeverReadsBack(s[1..], InQuotes, word + [s[0]]);
      NulNeverReadsBack(s[1..], InWord, word);
      NulNeverReadsBack(s[1..], InWord, word + [s[0]]);
      NulNeverReadsBack(s[1..], Between, "");
      if |s| > 1 && s[1] != NUL {
        assert NUL in s[2..];
        NulNeverReadsBack(s[2..], mode, word);
        NulNeverReadsBack(s[2..], InWord, word + [s[1]]);
      }
    }
  }

  lemma {:induction false} EscapeKeepsNul(value: string)
    requires NUL in value
    ensures NUL in EscapeQuotes(value)
    decreases |value|
  {
    if value[0] != NUL {
      assert NUL in value[1..];
      EscapeKeepsNul(value[1..]);
    }
  }

  /** The command reads back as `ssh` and the target if and only if the target has no NUL. */
  lemma {:induction false} SshCommandReadsBackIff(target: string)
    ensures SplitWords(SshCheckCommand(target)) == Some(["ssh", target]) <==> NUL !in target
  {
    if NUL !in target {
      SshCommandReadsBack(target);
    } else {
      EscapeKeepsNul(target);
      assert !IsSafe(NUL);
      NulNeverReadsBack(SshCheckCommand(target), Between, "");
    }
  }

  lemma {:induction false} EscapeGrows(value: string)
    ensures |EscapeQuotes(value)| >= |value|
    decreases |value|
  {
    if value != "" {
      EscapeGrows(value[1..]);
    }
  }

  /** A word is left as it is exactly when it is not empty and has only ASCII letters, digits and `@%_+=:,./-`. */
  lemma {:induction false} LeftAloneIff(value: string)
    ensures ShellQuote(value) == value <==>
            value != "" && forall c | c in value ::
              'a' <= c <= 'z' || 'A' <= c <= 'Z' || '0' <= c <= '9' || c in "@%_+=:,./-"
  {
    EscapeGrows(value);
    forall c ensures IsSafe(c) <==> 'a' <= c <= 'z' || 'A' <= c <= 'Z' || '0' <= c <= '9' || c in "@%_+=:,./-" {
      PunctuationIs(c);
    }
    if !(value != "" && AllSafe(value)) {
      assert |ShellQuote(value)| > |value|;
    }
  }

  lemma {:induction false} PunctuationIs(c: char)
    ensures c in "@%_+=:,./-" <==>
            c == '@' || c == '%' || c == '_' || c == '+' || c == '=' || c == ':' || c == ',' || c == '.' || c == '/' || c == '-'
  {
    var punctuation := "@%_+=:,./-";
    assert punctuation[0] == '@' && punctuation[1] == '%' && punctuation[2] == '_' && punctuation[3] == '+';
    assert punctuation[4] == '=' && punctuation[5] == ':' && punctuation[6] == ',' && punctuation[7] == '.';
    assert punctuation[8] == '/' && punctuation[9] == '-';
  }
}
