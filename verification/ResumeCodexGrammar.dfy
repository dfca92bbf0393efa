/** The grammar of the codex commands that may be rewritten, stated without the scanner. */
module ResumeCodexGrammar {
  import opened Common
  import opened ResumeArgv
  import opened ResumeCodex
  import opened ResumeGrammar

  /** One step of a codex command: a flag the rewriter owns, the subcommand, or a policy flag. */
  datatype Step = Owned(tokens: Argv) | Subcommand(tokens: Argv) | Runtime(tokens: Argv)

  predicate IsOwned(tok: string) {
    tok == "--no-daemon" || tok in CODEX_SELECTOR_DROP
  }

  /** `resume`, with the old session when a plain token follows. */
  predicate ResumeGroup(group: Argv, after: Argv)
    requires group != []
  {
    && group[0] == "resume"
    && if |group| == 1 then after == [] || !Plain(after[0]) else |group| == 2 && Plain(group[1])
  }

  ghost predicate RuntimeGroup(group: Argv)
    requires group != []
  {
    if group[0] in CODEX_BOOL_ALLOW then |group| == 1
    else if group[0] in CODEX_VALUE_ALLOW then |group| == 2 && Plain(group[1])
    else |group| == 1 && Assigns(group[0], CODEX_VALUE_ALLOW)
  }

  /** The step a command starts with; the subcommand is read once. */
  ghost predicate Begins(rest: Argv, step: Step, seen: bool) {
    && step.tokens != [] && step.tokens <= rest && step.tokens[0] != "--"
    && match step
       case Owned(tokens) => |tokens| == 1 && IsOwned(tokens[0])
       case Subcommand(tokens) => !seen && ResumeGroup(tokens, rest[|tokens|..])
       case Runtime(tokens) => !IsOwned(tokens[0]) && RuntimeGroup(tokens)
  }

  ghost predicate Reads(rest: Argv, steps: seq<Step>, seen: bool)
    decreases |steps|
  {
    if steps == [] then rest == []
    else
      && Begins(rest, steps[0], seen)
      && Reads(rest[|steps[0].tokens|..], steps[1..], seen || steps[0].Subcommand?)
  }

  /** The policy flags of the steps, in their order. */
  function Runtimes(steps: seq<Step>): Argv {
    if steps == [] then []
    else if steps[0].Runtime? then steps[0].tokens + Runtimes(steps[1..])
    else Runtimes(steps[1..])
  }

  // --- The scanner's parts are the steps ---

  function PartOf(step: Step): Part {
    match step
    case Owned(tokens) => Dropped(tokens)
    case Subcommand(tokens) => Resume(tokens)
    case Runtime(tokens) => Keep(tokens)
  }

  function StepOf(part: Part): Step {
    match part
    case Dropped(tokens) => Owned(tokens)
    case Resume(tokens) => Subcommand(tokens)
    case Keep(tokens) => Runtime(tokens)
  }

  function PartsOf(steps: seq<Step>): seq<Part> {
    if steps == [] then [] else [PartOf(steps[0])] + PartsOf(steps[1..])
  }

  lemma {:induction false} ResumeIsNoFlag()
    ensures "resume" !in CODEX_BOOL_ALLOW && "resume" !in CODEX_VALUE_ALLOW && !EqFormIn("resume", CODEX_VALUE_ALLOW)
    ensures !IsOwned("resume")
  {
    NamesAreDashed();
    ResumeIsNotDropped();
    assert !Dashed("resume") && "resume"[0] == 'r';
  }

  lemma {:induction false} CodexTokenIs(rest: Argv)
    requires rest != []
    ensures Assigns(rest[0], CODEX_VALUE_ALLOW) <==> EqFormIn(rest[0], CODEX_VALUE_ALLOW)
    ensures |rest| > 1 ==> (Plain(rest[1]) <==> !Dashed(rest[1]))
    ensures rest[0] == "resume" ==>
      && rest[0] !in CODEX_BOOL_ALLOW && rest[0] !in CODEX_VALUE_ALLOW && !EqFormIn(rest[0], CODEX_VALUE_ALLOW)
      && !IsOwned(rest[0])
  {
    AssignsIs(rest[0], CODEX_VALUE_ALLOW);
    ResumeIsNoFlag();
  }

  lemma {:induction false} NextIsStep(rest: Argv, seen: bool)
    requires rest != [] && NextPart(rest, seen).Some?
    ensures Begins(rest, StepOf(NextPart(rest, seen).value), seen)
  {
    CodexTokenIs(rest);
    var part := NextPart(rest, seen).value;
    hide Assigns, EqFormIn, Plain, Dashed, CODEX_BOOL_ALLOW, CODEX_VALUE_ALLOW, CODEX_SELECTOR_DROP;
    assert part.tokens[0] == rest[0] && rest[0] != "--";
    match part
    case Dropped(tokens) => assert tokens == [rest[0]] && IsOwned(rest[0]);
    case Resume(tokens) => NextResumes(rest, seen, tokens);
    case Keep(tokens) => NextKeeps(rest, seen, tokens);
  }

  lemma {:induction false} NextResumes(rest: Argv, seen: bool, tokens: Argv)
    requires rest != [] && NextPart(rest, seen) == Some(Resume(tokens)) && 0 < |tokens| <= |rest|
    requires |rest| > 1 ==> (Plain(rest[1]) <==> !Dashed(rest[1]))
    ensures !seen && ResumeGroup(tokens, rest[|tokens|..])
  {
    hide Assigns, EqFormIn, Plain, Dashed, CODEX_BOOL_ALLOW, CODEX_VALUE_ALLOW, CODEX_SELECTOR_DROP;
    assert |rest| > 1 ==> rest[1..][0] == rest[1];
  }

  lemma {:induction false} NextKeeps(rest: Argv, seen: bool, tokens: Argv)
    requires rest != [] && NextPart(rest, seen) == Some(Keep(tokens)) && 0 < |tokens|
    requires Assigns(rest[0], CODEX_VALUE_ALLOW) <==> EqFormIn(rest[0], CODEX_VALUE_ALLOW)
    requires |rest| > 1 ==> (Plain(rest[1]) <==> !Dashed(rest[1]))
    ensures !IsOwned(tokens[0]) && RuntimeGroup(tokens)
  {
    hide Assigns, EqFormIn, Plain, Dashed, CODEX_BOOL_ALLOW, CODEX_VALUE_ALLOW, CODEX_SELECTOR_DROP;
  }

  lemma {:induction false} StepIsNext(rest: Argv, step: Step, seen: bool)
    requires Begins(rest, step, seen)
    ensures rest != [] && NextPart(rest, seen) == Some(PartOf(step))
  {
    CodexTokenIs(rest);
    assert step.tokens[0] == rest[0];
    if |step.tokens| == 1 {
      assert step.tokens == [rest[0]];
    } else {
      assert |step.tokens| == 2 && step.tokens[1] == rest[1] && step.tokens == [rest[0], rest[1]];
    }
    hide Assigns, EqFormIn, Plain, Dashed, CODEX_BOOL_ALLOW, CODEX_VALUE_ALLOW, CODEX_SELECTOR_DROP;
  }

  lemma {:induction false} StepsParse(rest: Argv, steps: seq<Step>, seen: bool)
    requires Reads(rest, steps, seen)
    ensures Parts(rest, seen) == Some(PartsOf(steps)) && Flags(PartsOf(steps)) == Runtimes(steps)
    decreases |steps|
  {
    hide NextPart, Begins;
    if steps != [] {
      StepIsNext(rest, steps[0], seen);
      StepsParse(rest[|steps[0].tokens|..], steps[1..], seen || steps[0].Subcommand?);
      assert PartsOf(steps)[1..] == PartsOf(steps[1..]);
    }
  }

  lemma {:induction false} PartsRead(rest: Argv, seen: bool) returns (steps: seq<Step>)
    requires Parts(rest, seen).Some?
    ensures Reads(rest, steps, seen)
    decreases |rest|
  {
    hide NextPart, Begins;
    steps := [];
    if rest != [] {
      NextIsStep(rest, seen);
      var step := StepOf(NextPart(rest, seen).value);
      var tail := PartsRead(rest[|step.tokens|..], seen || step.Subcommand?);
      steps := [step] + tail;
      assert steps[1..] == tail;
    }
  }

  // --- The laws ---

  /** Default-deny, exactly: a codex command is rewritten if and only if it splits into steps of the grammar. */
  lemma {:induction false} CodexRewrittenIffGrammar(argv0: string, rest: Argv, value: string)
    ensures RewriteCodex(argv0, rest, value).Some? <==> exists steps :: Reads(rest, steps, false)
  {
    if RewriteCodex(argv0, rest, value).Some? {
      var steps := PartsRead(rest, false);
    }
    if steps :| Reads(rest, steps, false) {
      StepsParse(rest, steps, false);
    }
  }

  /** What a rewrite says: one daemon flag, the subcommand with the new session, and the policy flags in their order. */
  lemma {:induction false} CodexRewriteIsRuntimes(argv0: string, rest: Argv, value: string, steps: seq<Step>)
    requires Reads(rest, steps, false)
    ensures RewriteCodex(argv0, rest, value) == Some([argv0, "--no-daemon", "resume", value] + Runtimes(steps))
  {
    StepsParse(rest, steps, false);
  }

  /** Every flag of a codex command that is rewritten is known by its own name or by the name it assigns to. */
  ghost predicate CodexKnown(tok: string) {
    IsOwned(tok) || tok in CODEX_BOOL_ALLOW || tok in CODEX_VALUE_ALLOW || Assigns(tok, CODEX_VALUE_ALLOW)
  }

  lemma {:induction false} CodexFlagsAreKnown(rest: Argv, steps: seq<Step>, seen: bool)
    requires Reads(rest, steps, seen)
    ensures forall tok | tok in rest && !Plain(tok) :: CodexKnown(tok) && tok != "--"
    decreases |steps|
  {
    hide CodexKnown;
    if steps != [] {
      var step := steps[0];
      var after := rest[|step.tokens|..];
      CodexFlagsAreKnown(after, steps[1..], seen || step.Subcommand?);
      assert rest == step.tokens + after;
      forall tok | tok in rest && !Plain(tok) ensures CodexKnown(tok) && tok != "--" {
        if tok !in after {
          assert tok in step.tokens;
          FlagOfStep(rest, step, seen, tok);
        }
      }
    }
  }

  lemma {:induction false} FlagOfStep(rest: Argv, step: Step, seen: bool, tok: string)
    requires Begins(rest, step, seen) && tok in step.tokens && !Plain(tok)
    ensures tok == step.tokens[0] && CodexKnown(tok) && tok != "--"
  {
    hide Assigns, CODEX_BOOL_ALLOW, CODEX_VALUE_ALLOW, CODEX_SELECTOR_DROP;
    assert Plain("resume") by { assert "resume"[0] == 'r' && "-"[0] == '-'; }
  }

  /** A codex command with a flag that is not known is not rewritten, wherever the flag stands. */
  lemma {:induction false} CodexUnknownFlagRefuses(argv0: string, rest: Argv, value: string, tok: string)
    requires tok in rest && !Plain(tok) && (!CodexKnown(tok) || tok == "--")
    ensures RewriteCodex(argv0, rest, value).None?
  {
    hide CodexKnown;
    if RewriteCodex(argv0, rest, value).Some? {
      var steps := PartsRead(rest, false);
      CodexFlagsAreKnown(rest, steps, false);
    }
  }

  /** Arbitrary configuration is never replayed: `-c`, `--config` and `--config=...` refuse the command. */
  lemma {:induction false} CodexConfigIsNeverKept(argv0: string, rest: Argv, value: string, tok: string)
    requires tok in rest && (tok == "-c" || tok == "--config" || "--config=" <= tok)
    ensures RewriteCodex(argv0, rest, value).None?
  {
    ConfigIsUnknown(tok);
    CodexUnknownFlagRefuses(argv0, rest, value, tok);
  }

  lemma {:induction false} ConfigIsUnknown(tok: string)
    requires tok == "-c" || tok == "--config" || "--config=" <= tok
    ensures !Plain(tok) && !CodexKnown(tok)
  {
    AssignsIs(tok, CODEX_VALUE_ALLOW);
    ShortConfigIsNoName();
    if "--config=" <= tok {
      assert tok == "--config" + "=" + tok[9..];
      BeforeEqualsIs("--config", tok[9..]);
    }
    if tok != "-c" {
      LongConfigIsNoName("--config");
      LongConfigIsNoName(tok);
    }
    hide CODEX_BOOL_ALLOW, CODEX_VALUE_ALLOW, CODEX_SELECTOR_DROP;
  }

  lemma {:induction false} ShortConfigIsNoName()
    ensures !CodexKnownName("-c") && !("--" <= "-c")
  {
    assert "-c"[1] == 'c';
  }

  predicate CodexKnownName(tok: string) {
    IsOwned(tok) || tok in CODEX_BOOL_ALLOW || tok in CODEX_VALUE_ALLOW
  }

  lemma {:induction false} LongConfigIsNoName(tok: string)
    requires |tok| >= 8 && tok[2] == 'c' && tok[3] == 'o'
    ensures !CodexKnownName(tok)
  {
  }
}
