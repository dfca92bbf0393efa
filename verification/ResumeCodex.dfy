/** The codex rewriter: `resume` is a positional subcommand, and every copy of `--no-daemon` is replaced by one. */
module ResumeCodex {
  import opened Common
  import opened ResumeArgv

  const CODEX_BOOL_ALLOW: set<string> := {
    "--no-daemon", "--dangerously-bypass-approvals-and-sandbox", "--dangerously-bypass-hook-trust", "--oss",
    "--search", "--yolo"}
  const CODEX_VALUE_ALLOW: set<string> := {
    "-m", "--model", "-s", "--sandbox", "-a", "--ask-for-approval", "-C", "--cd", "--add-dir", "-p", "--profile",
    "--local-provider", "--enable", "--disable", "--remote"}
  const CODEX_SELECTOR_DROP: set<string> := {"--last", "--all", "--include-non-interactive"}

  datatype Part = Dropped(tokens: Argv) | Resume(tokens: Argv) | Keep(tokens: Argv)

  /** What a codex command line starts with; `seen` says whether `resume` was read already. */
  function NextPart(rest: Argv, seen: bool): (r: Option<Part>)
    requires rest != []
    ensures r.Some? ==> 0 < |r.value.tokens| <= |rest| && r.value.tokens == rest[..|r.value.tokens|]
  {
    var tok := rest[0];
    var plainNext := |rest| > 1 && !Dashed(rest[1]);
    if tok == "--" then None
    else if tok == "--no-daemon" then Some(Dropped([tok]))
    else if tok in CODEX_SELECTOR_DROP then Some(Dropped([tok]))
    else if tok == "resume" && !seen then Some(Resume(if plainNext then [tok, rest[1]] else [tok]))
    else if tok in CODEX_BOOL_ALLOW then Some(Keep([tok]))
    else if tok in CODEX_VALUE_ALLOW then if plainNext then Some(Keep([tok, rest[1]])) else None
    else if EqFormIn(tok, CODEX_VALUE_ALLOW) then Some(Keep([tok]))
    else None
  }

  function Parts(rest: Argv, seen: bool): Option<seq<Part>>
    decreases |rest|
  {
    if rest == [] then Some([])
    else
      var part := NextPart(rest, seen);
      if part.None? then None
      else
        var tail := Parts(rest[|part.value.tokens|..], seen || part.value.Resume?);
        if tail.None? then None else Some([part.value] + tail.value)
  }

  function Flags(parts: seq<Part>): Argv {
    if parts == [] then [] else (if parts[0].Keep? then parts[0].tokens else []) + Flags(parts[1..])
  }

  function Kept(parts: seq<Part>): seq<Part> {
    if parts == [] then [] else (if parts[0].Keep? then [parts[0]] else []) + Kept(parts[1..])
  }

  function Spelled(parts: seq<Part>): Argv {
    if parts == [] then [] else parts[0].tokens + Spelled(parts[1..])
  }

  /** `rewrite_codex`. */
  function RewriteCodex(argv0: string, rest: Argv, value: string): Option<Argv> {
    var parts := Parts(rest, false);
    if parts.None? then None else Some([argv0, "--no-daemon", "resume", value] + Flags(parts.value))
  }

  lemma {:induction false} StepParts(rest: Argv, seen: bool, part: Part)
    requires rest != [] && NextPart(rest, seen) == Some(part)
    ensures var tail := Parts(rest[|part.tokens|..], seen || part.Resume?);
            && (Parts(rest, seen).Some? <==> tail.Some?)
            && (tail.Some? ==>
                  var parts := Parts(rest, seen).value;
                  && parts == [part] + tail.value && parts[1..] == tail.value
                  && Flags(parts) == (if part.Keep? then part.tokens else []) + Flags(tail.value)
                  && Kept(parts) == (if part.Keep? then [part] else []) + Kept(tail.value))
  {
    hide NextPart;
  }

  // --- The scanner ---

  ghost predicate Scanning(rest: Argv, i: nat, seen: bool, kept: Argv)
    requires i <= |rest|
  {
    && (Parts(rest, false).Some? <==> Parts(rest[i..], seen).Some?)
    && (Parts(rest, false).Some? ==> Flags(Parts(rest, false).value) == kept + Flags(Parts(rest[i..], seen).value))
  }

  lemma {:induction false} ScanningAdvances(rest: Argv, i: nat, seen: bool, kept: Argv, part: Part)
    requires i < |rest| && Scanning(rest, i, seen, kept) && NextPart(rest[i..], seen) == Some(part)
    ensures Scanning(rest, i + |part.tokens|, seen || part.Resume?, kept + (if part.Keep? then part.tokens else []))
  {
    hide *;
    var n, next := i + |part.tokens|, seen || part.Resume?;
    StepParts(rest[i..], seen, part);
    assert rest[i..][|part.tokens|..] == rest[n..];
    var more := if part.Keep? then part.tokens else [];
    ScanningMeans(rest, i, seen, kept);
    ScanningMeans(rest, n, next, kept + more);
    if Parts(rest[n..], next).Some? {
      var tail := Parts(rest[n..], next).value;
      assert kept + (more + Flags(tail)) == (kept + more) + Flags(tail);
    }
  }

  lemma {:induction false} ScanningMeans(rest: Argv, i: nat, seen: bool, kept: Argv)
    requires i <= |rest|
    ensures Scanning(rest, i, seen, kept) <==>
      && (Parts(rest, false).Some? <==> Parts(rest[i..], seen).Some?)
      && (Parts(rest, false).Some? ==> Flags(Parts(rest, false).value) == kept + Flags(Parts(rest[i..], seen).value))
  {
  }

  lemma {:induction false} ScanningRefuses(rest: Argv, i: nat, seen: bool, kept: Argv)
    requires i < |rest| && Scanning(rest, i, seen, kept) && NextPart(rest[i..], seen).None?
    ensures Parts(rest, false).None?
  {
    hide NextPart, Flags, Kept;
  }

  method ScanCodex(argv0: string, rest: Argv, value: string) returns (out: Option<Argv>)
    ensures out == RewriteCodex(argv0, rest, value)
  {
    hide NextPart, Kept;
    var kept: Argv := [];
    var seen := false;
    var i := 0;
    assert rest[0..] == rest;
    while i < |rest|
      invariant 0 <= i <= |rest| && Scanning(rest, i, seen, kept)
    {
      var part := ReadPart(rest, i, seen);
      if part.None? {
        ScanningRefuses(rest, i, seen, kept);
        return None;
      }
      ScanningAdvances(rest, i, seen, kept, part.value);
      if part.value.Keep? {
        kept := kept + part.value.tokens;
      } else {
        assert kept + [] == kept;
      }
      seen := seen || part.value.Resume?;
      i := i + |part.value.tokens|;
    }
    assert rest[i..] == [] && kept + [] == kept;
    out := Some([argv0, "--no-daemon", "resume", value] + kept);
  }

  method ReadPart(rest: Argv, i: nat, seen: bool) returns (part: Option<Part>)
    requires i < |rest|
    ensures part == NextPart(rest[i..], seen)
  {
    var tok := rest[i];
    if tok == "--" {
      return None;
    } else if tok == "--no-daemon" {
      return Some(Dropped([tok]));
    } else if tok in CODEX_SELECTOR_DROP {
      return Some(Dropped([tok]));
    } else if tok == "resume" && !seen {
      if i + 1 < |rest| && !Dashed(rest[i + 1]) {
        return Some(Resume([tok, rest[i + 1]]));
      }
      return Some(Resume([tok]));
    } else if tok in CODEX_BOOL_ALLOW {
      return Some(Keep([tok]));
    } else if tok in CODEX_VALUE_ALLOW {
      if i + 1 < |rest| && !Dashed(rest[i + 1]) {
        return Some(Keep([tok, rest[i + 1]]));
      }
      return None;
    } else if EqFormIn(tok, CODEX_VALUE_ALLOW) {
      return Some(Keep([tok]));
    }
    return None;
  }

  // --- Laws ---

  /** The allowlisted names are flags. */
  lemma {:induction false} NamesAreDashed()
    ensures forall f | f in CODEX_BOOL_ALLOW :: Dashed(f)
    ensures forall f | f in CODEX_VALUE_ALLOW :: Dashed(f)
    ensures forall f | f in CODEX_SELECTOR_DROP :: Dashed(f)
  {
    assert Dashed("--no-daemon") && Dashed("--dangerously-bypass-approvals-and-sandbox");
    assert Dashed("--dangerously-bypass-hook-trust") && Dashed("--oss") && Dashed("--search") && Dashed("--yolo");
    forall f | f in CODEX_BOOL_ALLOW ensures Dashed(f) {
    }
    forall f | f in CODEX_VALUE_ALLOW ensures Dashed(f) {
    }
    forall f | f in CODEX_SELECTOR_DROP ensures Dashed(f) {
    }
  }

  ghost predicate ClosedPart(part: Part) {
    && part.Keep? && part.tokens != [] && Dashed(part.tokens[0])
    && forall tail: Argv, seen: bool :: NextPart(part.tokens + tail, seen) == Some(part)
  }

  lemma {:induction false} KeepIsClosed(rest: Argv, seen: bool)
    requires rest != [] && NextPart(rest, seen).Some? && NextPart(rest, seen).value.Keep?
    ensures ClosedPart(NextPart(rest, seen).value)
    ensures forall tok | tok in NextPart(rest, seen).value.tokens :: tok != "--no-daemon"
  {
    NamesAreDashed();
    var part := NextPart(rest, seen).value;
    hide CODEX_BOOL_ALLOW, CODEX_VALUE_ALLOW, CODEX_SELECTOR_DROP;
    assert Dashed(part.tokens[0]) && part.tokens[0] != "resume" by { assert !Dashed("resume"); }
    forall tail: Argv, again: bool ensures NextPart(part.tokens + tail, again) == Some(part) {
      assert (part.tokens + tail)[0] == part.tokens[0];
      if |part.tokens| == 2 {
        assert (part.tokens + tail)[1] == part.tokens[1];
      }
    }
  }

  lemma {:induction false} KeptParts(rest: Argv, seen: bool)
    requires Parts(rest, seen).Some?
    ensures var kept := Kept(Parts(rest, seen).value);
            && (forall part | part in kept :: ClosedPart(part))
            && Spelled(kept) == Flags(Parts(rest, seen).value)
            && (forall tok | tok in Spelled(kept) :: tok != "--no-daemon")
    decreases |rest|
  {
    hide NextPart, ClosedPart;
    if rest != [] {
      var part := NextPart(rest, seen).value;
      StepParts(rest, seen, part);
      var after, next := rest[|part.tokens|..], seen || part.Resume?;
      KeptParts(after, next);
      var tail := Kept(Parts(after, next).value);
      if part.Keep? {
        KeepIsClosed(rest, seen);
        assert Kept(Parts(rest, seen).value) == [part] + tail;
        assert ([part] + tail)[1..] == tail;
        assert Spelled([part] + tail) == part.tokens + Spelled(tail);
      } else {
        assert Kept(Parts(rest, seen).value) == tail;
        NothingBefore(Flags(Parts(after, next).value));
      }
    }
  }

  /** Kept parts read back as themselves, whether or not `resume` came before. */
  lemma {:induction false} ClosedPartsParse(parts: seq<Part>, seen: bool)
    requires forall part | part in parts :: ClosedPart(part)
    ensures Parts(Spelled(parts), seen) == Some(parts) && Flags(parts) == Spelled(parts)
    ensures Spelled(parts) != [] ==> Dashed(Spelled(parts)[0])
    decreases |parts|
  {
    hide NextPart;
    if parts != [] {
      var part, more := parts[0], Spelled(parts[1..]);
      assert ClosedPart(part);
      assert forall p | p in parts[1..] :: p in parts;
      ClosedPartsParse(parts[1..], seen);
      assert NextPart(part.tokens + more, seen) == Some(part);
      assert (part.tokens + more)[|part.tokens|..] == more;
      assert parts == [part] + parts[1..];
    }
  }

  /** What the rewriter reads in its own output, up to the session value. */
  lemma {:induction false} OutputStart(value: string, flags: Argv)
    ensures var out: Argv := ["--no-daemon", "resume", value] + flags;
            var valued := [value] + flags;
            if Dashed(value) then
              (Parts(out, false).Some? <==> Parts(valued, true).Some?)
              && (Parts(valued, true).Some? ==> Flags(Parts(out, false).value) == Flags(Parts(valued, true).value))
            else
              (Parts(out, false).Some? <==> Parts(flags, true).Some?)
              && (Parts(flags, true).Some? ==> Flags(Parts(out, false).value) == Flags(Parts(flags, true).value))
  {
    var out: Argv := ["--no-daemon", "resume", value] + flags;
    var second: Argv := ["resume", value] + flags;
    assert out[1..] == second && second[1..] == [value] + flags && second[2..] == flags;
    assert "--no-daemon"[2] == 'n' && |"--"| == 2;
    assert NextPart(out, false) == Some(Dropped(["--no-daemon"]));
    ResumeIsNotDropped();
    var resumed := Resume(if Dashed(value) then ["resume"] else ["resume", value]);
    assert NextPart(second, false) == Some(resumed);
    hide NextPart;
    StepParts(out, false, Dropped(["--no-daemon"]));
    StepParts(second, false, resumed);
  }

  lemma {:induction false} ResumeIsNotDropped()
    ensures "resume" !in CODEX_SELECTOR_DROP && "resume" != "--" && "resume" != "--no-daemon"
  {
    NamesAreDashed();
    assert !Dashed("resume") && Dashed("--") && Dashed("--no-daemon");
  }

  function Count(tok: string, toks: Argv): nat {
    if toks == [] then 0 else (if toks[0] == tok then 1 else 0) + Count(tok, toks[1..])
  }

  lemma {:induction false} CountAbsent(tok: string, toks: Argv)
    requires tok !in toks
    ensures Count(tok, toks) == 0
    decreases |toks|
  {
    if toks != [] {
      CountAbsent(tok, toks[1..]);
    }
  }

  /**
   A successful rewrite: one `--no-daemon`, then `resume` with the new session, then the original's
   kept flags in their original order.
   */
  lemma {:induction false} CodexKeepsFlags(argv0: string, rest: Argv, value: string)
    requires !Dashed(value) && RewriteCodex(argv0, rest, value).Some?
    ensures var out := RewriteCodex(argv0, rest, value).value;
            && out[..4] == [argv0, "--no-daemon", "resume", value]
            && out[4..] == Flags(Parts(rest, false).value)
            && Count("--no-daemon", out[1..]) == 1
            && Parts(out[1..], false).Some?
            && (forall i, j | 0 <= i < |Parts(out[1..], false).value| && 0 <= j < |Parts(out[1..], false).value| ::
                  Parts(out[1..], false).value[i].Resume? && Parts(out[1..], false).value[j].Resume? ==> i == j)
  {
    var out := RewriteCodex(argv0, rest, value).value;
    var parts := Parts(rest, false).value;
    var flags := Flags(parts);
    KeptParts(rest, false);
    ClosedPartsParse(Kept(parts), true);
    assert out == [argv0, "--no-daemon", "resume", value] + flags;
    hide *;
    OutputReads(argv0, value, flags);
  }

  lemma {:induction false} OutputReads(argv0: string, value: string, flags: Argv)
    requires !Dashed(value) && "--no-daemon" !in flags && Parts(flags, true).Some?
    ensures var out := [argv0, "--no-daemon", "resume", value] + flags;
            && out[..4] == [argv0, "--no-daemon", "resume", value] && out[4..] == flags
            && Count("--no-daemon", out[1..]) == 1
            && Parts(out[1..], false).Some?
            && (forall i, j | 0 <= i < |Parts(out[1..], false).value| && 0 <= j < |Parts(out[1..], false).value| ::
                  Parts(out[1..], false).value[i].Resume? && Parts(out[1..], false).value[j].Resume? ==> i == j)
  {
    hide *;
    var out := [argv0, "--no-daemon", "resume", value] + flags;
    assert out[1..] == ["--no-daemon", "resume", value] + flags;
    OutputStart(value, flags);
    OneDaemon(value, flags);
    OneResume(out[1..], false);
  }

  lemma {:induction false} OneDaemon(value: string, flags: Argv)
    requires !Dashed(value) && "--no-daemon" !in flags
    ensures Count("--no-daemon", ["--no-daemon", "resume", value] + flags) == 1
  {
    var tail: Argv := ["resume", value] + flags;
    assert (["--no-daemon", "resume", value] + flags)[1..] == tail;
    assert tail[1..] == [value] + flags && ([value] + flags)[1..] == flags;
    assert Dashed("--no-daemon") && !Dashed("resume");
    CountAbsent("--no-daemon", flags);
    assert Count("--no-daemon", [value] + flags) == 0;
    assert Count("--no-daemon", tail) == 0;
  }

  /** `resume` is read at most once. */
  lemma {:induction false} OneResume(rest: Argv, seen: bool)
    requires Parts(rest, seen).Some?
    ensures var parts := Parts(rest, seen).value;
            && (seen ==> forall i | 0 <= i < |parts| :: !parts[i].Resume?)
            && (forall i, j | 0 <= i < |parts| && 0 <= j < |parts| :: parts[i].Resume? && parts[j].Resume? ==> i == j)
    decreases |rest|
  {
    if rest != [] {
      var part := NextPart(rest, seen).value;
      assert part.Resume? ==> !seen;
      hide NextPart;
      OneResume(rest[|part.tokens|..], seen || part.Resume?);
    }
  }

  /**
   Rewriting a rewrite for another session equals rewriting the original for it, if and only if the
   session value does not look like a flag or is one of the flags the rewriter drops.
   */
  lemma {:induction false} CodexComposesIff(argv0: string, rest: Argv, value: string, other: string)
    requires RewriteCodex(argv0, rest, value).Some?
    ensures RewriteCodex(argv0, RewriteCodex(argv0, rest, value).value[1..], other) == RewriteCodex(argv0, rest, other)
            <==> !Dashed(value) || value == "--no-daemon" || (value in CODEX_SELECTOR_DROP && value != "--")
  {
    var parts := Parts(rest, false).value;
    var flags := Flags(parts);
    var out: Argv := ["--no-daemon", "resume", value] + flags;
    assert RewriteCodex(argv0, rest, value).value[1..] == out;
    KeptParts(rest, false);
    ClosedPartsParse(Kept(parts), true);
    OutputStart(value, flags);
    hide Kept;
    if !Dashed(value) {
      hide NextPart, Flags;
    } else {
      var valued := [value] + flags;
      var part := NextPart(valued, true);
      assert valued[1..] == flags && (|valued| > 1 ==> Dashed(valued[1]));
      if part.None? {
      } else {
        assert part.value.tokens == [value];
        assert part.value.Dropped? <==> value == "--no-daemon" || (value in CODEX_SELECTOR_DROP && value != "--");
        assert !part.value.Resume?;
        hide NextPart;
        StepParts(valued, true, part.value);
        hide Flags, Parts;
        if part.value.Keep? {
          LongerByOne([argv0, "--no-daemon", "resume", other], value, flags);
        } else {
          NothingBefore(flags);
        }
      }
    }
  }
}
