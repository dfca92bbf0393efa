/**
 Which launch command a pane's snapshot keeps: the resume plan, the per-session observation, and
 what the answer is after any sequence of saves.
 */
module ResumeHistory {
  import opened Common
  import opened ResumeArgv
  import Codex = ResumeCodex

  const MAX_SESSION_PATH_LEN: nat := 4096
  const MAX_ARGV_TOKENS: nat := 256

  datatype RefKind = Id | Path

  datatype SessionRef = SessionRef(kind: RefKind, value: string)

  datatype Observation =
    | Flagged(key: string, argv: Argv)
    | ObservedCanonical(key: string)

  // --- Validity ---

  function Utf8Len(s: string): nat {
    if s == "" then 0
    else
      var c := s[0] as nat;
      (if c < 0x80 then 1 else if c < 0x800 then 2 else if c < 0x10000 then 3 else 4) + Utf8Len(s[1..])
  }

  predicate IsControl(c: char) {
    c as nat < 0x20 || 0x7F <= c as nat < 0xA0
  }

  predicate ValidToken(tok: string) {
    tok != "" && Utf8Len(tok) <= MAX_SESSION_PATH_LEN && forall c | c in tok :: !IsControl(c)
  }

  predicate ValidArgv(argv: Argv) {
    argv != [] && |argv| <= MAX_ARGV_TOKENS && forall tok | tok in argv :: ValidToken(tok)
  }

  /** The path's components, split at `/`; empty and `.` components do not count. */
  function Components(path: string, current: string): seq<string>
    decreases |path|
  {
    var done := if current == "" || current == "." then [] else [current];
    if path == "" then done
    else if path[0] == '/' then done + Components(path[1..], "")
    else Components(path[1..], current + [path[0]])
  }

  /** The file name of `argv0` is the agent's binary name. */
  predicate Argv0Matches(argv0: string, agent: string) {
    var parts := Components(argv0, "");
    parts != [] && parts[|parts| - 1] != ".." && parts[|parts| - 1] == agent
  }

  // --- The plan ---

  predicate HasAdapter(agent: string) {
    agent == "claude" || agent == "pi" || agent == "codex"
  }

  predicate IsOfficialSource(source: string, agent: string) {
    (source, agent) in {
      ("zynk:claude", "claude"), ("zynk:codex", "codex"), ("zynk:copilot", "copilot"), ("zynk:devin", "devin"),
      ("zynk:droid", "droid"), ("zynk:kimi", "kimi"), ("zynk:omp", "omp"), ("zynk:mastracode", "mastracode"),
      ("zynk:pi", "pi"), ("zynk:hermes", "hermes"), ("zynk:opencode", "opencode"), ("zynk:qodercli", "qodercli"),
      ("zynk:qwen", "qwen"), ("zynk:kilo", "kilo"), ("zynk:cursor", "cursor"), ("zynk:antigravity_cli", "agy"),
      ("zynk:grok", "grok")}
  }

  /** `canonical_resume_argv` for the agents with an adapter. */
  function Canonical(source: string, agent: string, ref: SessionRef): Option<Argv> {
    if source == "zynk:claude" && agent == "claude" && ref.kind.Id? then Some(["claude", "--resume", ref.value])
    else if source == "zynk:codex" && agent == "codex" && ref.kind.Id? then
      Some(["codex", "--no-daemon", "resume", ref.value])
    else if source == "zynk:pi" && agent == "pi" then Some(["pi", "--session", ref.value])
    else None
  }

  function Rewrite(agent: string, argv: Argv, ref: SessionRef): Option<Argv> {
    if !ValidArgv(argv) || !Argv0Matches(argv[0], agent) then None
    else if agent == "claude" then RewriteFlags(argv[0], argv[1..], CLAUDE_SPEC, ref.value)
    else if agent == "pi" then RewriteFlags(argv[0], argv[1..], PI_SPEC, ref.value)
    else if agent == "codex" then Codex.RewriteCodex(argv[0], argv[1..], ref.value)
    else None
  }

  /** The argv `plan` chooses: the rewrite of the original when there is one, else the canonical. */
  function PlanArgv(source: string, agent: string, ref: SessionRef, original: Option<Argv>): Option<Argv> {
    var canonical := Canonical(source, agent, ref);
    if !IsOfficialSource(source, agent) || canonical.None? then None
    else if original.Some? && Rewrite(agent, original.value, ref).Some? then Rewrite(agent, original.value, ref)
    else canonical
  }

  function KindName(kind: RefKind): string {
    if kind.Id? then "Id" else "Path"
  }

  const NUL: char := '\U{0000}'

  function DedupeKey(source: string, agent: string, ref: SessionRef): string {
    source + [NUL] + agent + [NUL] + KindName(ref.kind) + [NUL] + ref.value
  }

  /** The flags a rewrite keeps. */
  function KeptFlags(agent: string, argv: Argv): Argv
    requires argv != []
  {
    if agent == "codex" then
      var parts := Codex.Parts(argv[1..], false);
      if parts.Some? then Codex.Flags(parts.value) else []
    else
      var items := Items(if agent == "claude" then CLAUDE_SPEC else PI_SPEC, argv[1..]);
      if items.Some? then KeptOf(items.value) else []
  }

  /** A launch argv sanitized for the session; nothing when no flag survives. */
  function Sanitized(source: string, agent: string, ref: SessionRef, argv: Option<Argv>, normalize: bool): Option<Argv> {
    var canonical := Canonical(source, agent, ref);
    if argv.None? || canonical.None? then None
    else
      var planned := PlanArgv(source, agent, ref, argv);
      if planned.None? || |planned.value| <= |canonical.value| then None
      else Some(if normalize then planned.value[0 := agent] else planned.value)
  }

  lemma {:induction false} RewriteLength(source: string, agent: string, ref: SessionRef, argv: Argv)
    requires Canonical(source, agent, ref).Some? && Rewrite(agent, argv, ref).Some?
    ensures |Rewrite(agent, argv, ref).value| == |Canonical(source, agent, ref).value| + |KeptFlags(agent, argv)|
  {
    assert argv != [];
    hide Items, Codex.Parts, KeptOf, KeptBefore, KeptAfter, ValidArgv, Argv0Matches, CLAUDE_SPEC, PI_SPEC;
    if agent != "codex" {
      KeptSplits(Items(if agent == "claude" then CLAUDE_SPEC else PI_SPEC, argv[1..]).value);
    }
  }

  /**
   The length comparison is exact: an argv is worth persisting if and only if the agent's adapter
   accepted the command and kept at least one flag of it; the result is that adapter's output.
   */
  lemma {:induction false} SanitizedMeansKeptFlags(source: string, agent: string, ref: SessionRef, argv: Argv, normalize: bool)
    requires Canonical(source, agent, ref).Some?
    ensures var r := Sanitized(source, agent, ref, Some(argv), normalize);
            var rewritten := Rewrite(agent, argv, ref);
            && (r.Some? <==> rewritten.Some? && KeptFlags(agent, argv) != [])
            && (r.Some? ==> r == Some(if normalize then rewritten.value[0 := agent] else rewritten.value))
  {
    assert IsOfficialSource(source, agent);
    hide Rewrite, KeptFlags;
    if Rewrite(agent, argv, ref).Some? {
      RewriteLength(source, agent, ref, argv);
    }
  }

  // --- One save ---

  datatype Outcome = Outcome(argv: Option<Argv>, observation: Option<Observation>)

  predicate Faithful(agent: string) {
    agent == "claude" || agent == "codex"
  }

  /** `persisted_resume_argv_with_observation`. */
  function Persist(
    source: string, agent: string, ref: SessionRef, foreground: Option<Argv>, launch: Option<Argv>,
    observation: Option<Observation>): Outcome
  {
    if !HasAdapter(agent) then Outcome(None, None)
    else if Canonical(source, agent, ref).None? then Outcome(None, observation)
    else
      var key := DedupeKey(source, agent, ref);
      var known := if observation.Some? && observation.value.key != key then None else observation;
      var live := Sanitized(source, agent, ref, foreground, true);
      var recorded := Sanitized(source, agent, ref, launch, false);
      if live.Some? then Outcome(live, Some(Flagged(key, live.value)))
      else if Faithful(agent) && foreground.Some? then Outcome(None, Some(ObservedCanonical(key)))
      else if Faithful(agent) && known.Some? then
        Outcome(if known.value.Flagged? then Some(known.value.argv) else None, known)
      else if recorded.Some? then Outcome(recorded, Some(Flagged(key, recorded.value)))
      else if !Faithful(agent) then
        if known.Some? && known.value.Flagged? then Outcome(Some(known.value.argv), Some(Flagged(key, known.value.argv)))
        else Outcome(None, None)
      else Outcome(None, known)
  }

  method PersistWithObservation(
    source: string, agent: string, ref: SessionRef, foreground: Option<Argv>, launch: Option<Argv>,
    observation: Option<Observation>) returns (argv: Option<Argv>, updated: Option<Observation>)
    ensures Outcome(argv, updated) == Persist(source, agent, ref, foreground, launch, observation)
  {
    hide Sanitized, Canonical, DedupeKey;
    updated := observation;
    if !HasAdapter(agent) {
      return None, None;
    }
    var faithful := Faithful(agent);
    if Canonical(source, agent, ref).None? {
      return None, updated;
    }
    var key := DedupeKey(source, agent, ref);
    if updated.Some? && updated.value.key != key {
      updated := None;
    }
    var live := Sanitized(source, agent, ref, foreground, true);
    var recorded := Sanitized(source, agent, ref, launch, false);
    if live.Some? {
      return live, Some(Flagged(key, live.value));
    }
    if faithful && foreground.Some? {
      return None, Some(ObservedCanonical(key));
    }
    if faithful && updated.Some? {
      return if updated.value.Flagged? then Some(updated.value.argv) else None, updated;
    }
    if recorded.Some? {
      return recorded, Some(Flagged(key, recorded.value));
    }
    if !faithful {
      if updated.Some? && updated.value.Flagged? {
        return Some(updated.value.argv), Some(Flagged(key, updated.value.argv));
      }
      updated := None;
    }
    argv := None;
  }

  // --- Any sequence of saves for one session ---

  datatype Save = Save(foreground: Option<Argv>, launch: Option<Argv>)

  /** The outcome of the n-th save, the first being save 1, starting with no observation. */
  function After(source: string, agent: string, ref: SessionRef, saves: seq<Save>, n: nat): Outcome
    requires n <= |saves|
  {
    if n == 0 then Outcome(None, None)
    else
      var s := saves[n - 1];
      Persist(source, agent, ref, s.foreground, s.launch, After(source, agent, ref, saves, n - 1).observation)
  }

  /** The last of the first n saves that saw a live command is save i. */
  ghost predicate LastLive(saves: seq<Save>, n: nat, i: nat)
    requires n <= |saves|
  {
    i < n && saves[i].foreground.Some? && forall j | i < j < n :: saves[j].foreground.None?
  }

  ghost predicate NeverLive(saves: seq<Save>, n: nat)
    requires n <= |saves|
  {
    forall j | 0 <= j < n :: saves[j].foreground.None?
  }

  /** The first of the first n saves whose recorded launch keeps a flag is save i. */
  ghost predicate FirstRecorded(source: string, agent: string, ref: SessionRef, saves: seq<Save>, n: nat, i: nat)
    requires n <= |saves|
  {
    && i < n && Sanitized(source, agent, ref, saves[i].launch, false).Some?
    && forall j | 0 <= j < i :: Sanitized(source, agent, ref, saves[j].launch, false).None?
  }

  /** What the cache remembers after n saves of a claude or codex session. */
  ghost predicate Remembers(source: string, agent: string, ref: SessionRef, saves: seq<Save>, n: nat)
    requires n <= |saves|
  {
    var key := DedupeKey(source, agent, ref);
    var o := After(source, agent, ref, saves, n);
    && (forall i: nat | LastLive(saves, n, i) ::
          var live := Sanitized(source, agent, ref, saves[i].foreground, true);
          o.argv == live && o.observation == Some(if live.Some? then Flagged(key, live.value) else ObservedCanonical(key)))
    && (NeverLive(saves, n) ==>
          && (forall i: nat | FirstRecorded(source, agent, ref, saves, n, i) ::
                var recorded := Sanitized(source, agent, ref, saves[i].launch, false);
                o.argv == recorded && o.observation == Some(Flagged(key, recorded.value)))
          && ((forall i | 0 <= i < n :: Sanitized(source, agent, ref, saves[i].launch, false).None?) ==>
                o == Outcome(None, None)))
  }

  lemma {:induction false} SavesRemember(source: string, agent: string, ref: SessionRef, saves: seq<Save>, n: nat)
    requires n <= |saves| && Faithful(agent) && Canonical(source, agent, ref).Some?
    ensures Remembers(source, agent, ref, saves, n)
    decreases n
  {
    if n == 0 {
      hide Sanitized, Canonical, DedupeKey;
    } else {
      SavesRemember(source, agent, ref, saves, n - 1);
      hide *;
      if saves[n - 1].foreground.Some? {
        LiveStep(source, agent, ref, saves, n, n - 1);
      } else {
        QuietStep(source, agent, ref, saves, n, n - 1);
      }
    }
  }

  lemma {:induction false} LiveStep(source: string, agent: string, ref: SessionRef, saves: seq<Save>, n: nat, m: nat)
    requires m < n <= |saves| && m + 1 == n && saves[m].foreground.Some?
    requires Faithful(agent) && Canonical(source, agent, ref).Some?
    ensures Remembers(source, agent, ref, saves, n)
  {
    hide Sanitized, Canonical, DedupeKey;
    assert !NeverLive(saves, n);
    assert forall i: nat | LastLive(saves, n, i) :: i == m;
  }

  /** A save that saw no live command leaves a remembered live command in charge. */
  lemma {:induction false} QuietStep(source: string, agent: string, ref: SessionRef, saves: seq<Save>, n: nat, m: nat)
    requires m < n <= |saves| && m + 1 == n && saves[m].foreground.None?
    requires Faithful(agent) && Canonical(source, agent, ref).Some? && Remembers(source, agent, ref, saves, m)
    ensures Remembers(source, agent, ref, saves, n)
  {
    LiveBefore(saves, n);
    NothingLive(source, agent, ref);
    hide Sanitized, Canonical, DedupeKey;
    if NeverLive(saves, n) {
      hide Remembers, NeverLive;
      RecordedStep(source, agent, ref, saves, n, m);
    } else {
      var i: nat :| LastLive(saves, n, i);
      assert LastLive(saves, m, i);
      assert forall k: nat | LastLive(saves, n, k) :: k == i;
    }
  }

  lemma {:induction false} NothingLive(source: string, agent: string, ref: SessionRef)
    ensures Sanitized(source, agent, ref, None, true).None?
  {
  }

  lemma {:induction false} RecordedStep(source: string, agent: string, ref: SessionRef, saves: seq<Save>, n: nat, m: nat)
    requires m < n <= |saves| && m + 1 == n && Faithful(agent) && Canonical(source, agent, ref).Some?
    requires NeverLive(saves, n) && Remembers(source, agent, ref, saves, m)
    ensures Remembers(source, agent, ref, saves, n)
  {
    hide Sanitized, Canonical, DedupeKey;
    assert NeverLive(saves, m) && forall i: nat :: !LastLive(saves, n, i);
    if exists i :: 0 <= i < m && Sanitized(source, agent, ref, saves[i].launch, false).Some? {
      var i := FindRecorded(source, agent, ref, saves, m);
      assert forall k: nat | FirstRecorded(source, agent, ref, saves, n, k) :: k == i;
    } else {
      assert After(source, agent, ref, saves, m) == Outcome(None, None);
      forall k: nat | FirstRecorded(source, agent, ref, saves, n, k) ensures k == m {
      }
      assert Sanitized(source, agent, ref, saves[m].foreground, true).None? by { NothingLive(source, agent, ref); }
    }
  }

  lemma {:induction false} LiveBefore(saves: seq<Save>, n: nat)
    requires 0 < n <= |saves| && saves[n - 1].foreground.None?
    ensures forall i: nat :: LastLive(saves, n, i) ==> LastLive(saves, n - 1, i)
    ensures NeverLive(saves, n) <==> NeverLive(saves, n - 1)
    ensures NeverLive(saves, n) || exists i: nat :: LastLive(saves, n, i)
    decreases n
  {
    if !NeverLive(saves, n) {
      var i := FindLive(saves, n);
    }
  }

  lemma {:induction false} FindLive(saves: seq<Save>, n: nat) returns (i: nat)
    requires n <= |saves| && !NeverLive(saves, n)
    ensures LastLive(saves, n, i)
    decreases n
  {
    if saves[n - 1].foreground.Some? {
      i := n - 1;
    } else {
      assert !NeverLive(saves, n - 1);
      i := FindLive(saves, n - 1);
    }
  }

  lemma {:induction false} FindRecorded(source: string, agent: string, ref: SessionRef, saves: seq<Save>, n: nat) returns (i: nat)
    requires n <= |saves| && exists i :: 0 <= i < n && Sanitized(source, agent, ref, saves[i].launch, false).Some?
    ensures FirstRecorded(source, agent, ref, saves, n, i)
    decreases n
  {
    hide Sanitized;
    if exists j :: 0 <= j < n - 1 && Sanitized(source, agent, ref, saves[j].launch, false).Some? {
      i := FindRecorded(source, agent, ref, saves, n - 1);
    } else {
      i := n - 1;
    }
  }

  /**
   Over any saves of one claude or codex session, what is persisted is decided by the most recent
   live command: its sanitized form, or nothing if it kept no flag. Only when no live command was
   ever seen is it decided by the first recorded launch that kept one.
   */
  lemma {:induction false} HistoryDecides(source: string, agent: string, ref: SessionRef, saves: seq<Save>, n: nat)
    requires n <= |saves| && Faithful(agent) && Canonical(source, agent, ref).Some?
    ensures forall i: nat | LastLive(saves, n, i) ::
      After(source, agent, ref, saves, n).argv == Sanitized(source, agent, ref, saves[i].foreground, true)
    ensures NeverLive(saves, n) ==>
      && (forall i: nat | FirstRecorded(source, agent, ref, saves, n, i) ::
            After(source, agent, ref, saves, n).argv == Sanitized(source, agent, ref, saves[i].launch, false))
      && ((forall i | 0 <= i < n :: Sanitized(source, agent, ref, saves[i].launch, false).None?) ==>
            After(source, agent, ref, saves, n).argv.None?)
    ensures NeverLive(saves, n) || exists i: nat :: LastLive(saves, n, i)
  {
    SavesRemember(source, agent, ref, saves, n);
    if !NeverLive(saves, n) {
      var i := FindLive(saves, n);
    }
  }

  // --- pi ---

  /** What one save of a pi session contributes: its live command if it kept a flag, else its recorded launch. */
  function Contribution(source: string, agent: string, ref: SessionRef, s: Save): Option<Argv> {
    var live := Sanitized(source, agent, ref, s.foreground, true);
    if live.Some? then live else Sanitized(source, agent, ref, s.launch, false)
  }

  /**
   A pi session's live command is not trusted to mean that no flags were given: what is persisted is
   the latest contribution of any save, and no tombstone is ever kept.
   */
  lemma {:induction false} PiKeepsLatest(source: string, ref: SessionRef, saves: seq<Save>, n: nat)
    requires n <= |saves| && Canonical(source, "pi", ref).Some?
    ensures var o := After(source, "pi", ref, saves, n);
            && !(o.observation.Some? && o.observation.value.ObservedCanonical?)
            && (o.argv == if o.observation.Some? then Some(o.observation.value.argv) else None)
            && (o.observation.Some? ==> o.observation.value.key == DedupeKey(source, "pi", ref))
            && (forall i | 0 <= i < n && Contribution(source, "pi", ref, saves[i]).Some?
                  && (forall j | i < j < n :: Contribution(source, "pi", ref, saves[j]).None?) ::
                  o.argv == Contribution(source, "pi", ref, saves[i]))
            && ((forall i | 0 <= i < n :: Contribution(source, "pi", ref, saves[i]).None?) ==> o.argv.None?)
    decreases n
  {
    hide Sanitized, Canonical, DedupeKey;
    if n > 0 {
      PiKeepsLatest(source, ref, saves, n - 1);
      var o := After(source, "pi", ref, saves, n);
      var mine := Contribution(source, "pi", ref, saves[n - 1]);
      assert mine.Some? ==> o.argv == mine;
      assert mine.None? ==> o.argv == After(source, "pi", ref, saves, n - 1).argv;
    }
  }

  // --- More than one session ---

  lemma {:induction false} FirstChar(a: string, x: string)
    requires NUL !in a
    ensures (a + [NUL] + x)[0] == NUL <==> a == ""
    ensures a == "" ==> (a + [NUL] + x)[1..] == x
    ensures a != "" ==> (a + [NUL] + x)[0] == a[0] && (a + [NUL] + x)[1..] == a[1..] + [NUL] + x
  {
    if a != "" {
      assert a[0] in a;
    }
  }

  lemma {:induction false} NulSplit(a: string, b: string, x: string, y: string)
    requires NUL !in a && NUL !in b && a + [NUL] + x == b + [NUL] + y
    ensures a == b && x == y
    decreases |a|
  {
    FirstChar(a, x);
    FirstChar(b, y);
    if a != "" {
      NulSplit(a[1..], b[1..], x, y);
      assert a == [a[0]] + a[1..] && b == [b[0]] + b[1..];
    }
  }

  /** Different sessions have different keys. */
  lemma {:induction false} KeysAreDistinct(
    source: string, agent: string, ref: SessionRef, source': string, agent': string, ref': SessionRef)
    requires NUL !in source && NUL !in source' && NUL !in agent && NUL !in agent'
    requires DedupeKey(source, agent, ref) == DedupeKey(source', agent', ref')
    ensures source == source' && agent == agent' && ref == ref'
  {
    var k, k' := KindName(ref.kind), KindName(ref'.kind);
    assert NUL !in k && NUL !in k';
    var tail, tail' := k + [NUL] + ref.value, k' + [NUL] + ref'.value;
    var rest, rest' := agent + [NUL] + tail, agent' + [NUL] + tail';
    assert DedupeKey(source, agent, ref) == source + [NUL] + rest;
    assert DedupeKey(source', agent', ref') == source' + [NUL] + rest';
    NulSplit(source, source', rest, rest');
    NulSplit(agent, agent', tail, tail');
    NulSplit(k, k', ref.value, ref'.value);
    assert "Id" != "Path";
  }

  /** A pane that turns to another session forgets the last one: the next save starts afresh. */
  lemma {:induction false} OtherSessionForgets(
    source: string, agent: string, ref: SessionRef, foreground: Option<Argv>, launch: Option<Argv>, o: Observation)
    requires HasAdapter(agent) && Canonical(source, agent, ref).Some? && o.key != DedupeKey(source, agent, ref)
    ensures Persist(source, agent, ref, foreground, launch, Some(o)) == Persist(source, agent, ref, foreground, launch, None)
  {
  }

  /** `managed_resume_observation`: a pane launched from a plan starts with what the plan kept. */
  function ManagedObservation(agent: string, argv: Argv, key: string): Option<Observation> {
    if !HasAdapter(agent) then None
    else if |argv| > (if agent == "codex" then 4 else 3) then Some(Flagged(key, argv))
    else None
  }

  /** The managed observation exists exactly when the plan kept a flag of the original command. */
  lemma {:induction false} ManagedMeansKeptFlags(source: string, agent: string, ref: SessionRef, original: Argv)
    requires Canonical(source, agent, ref).Some?
    ensures var argv := PlanArgv(source, agent, ref, Some(original));
            && argv.Some?
            && (ManagedObservation(agent, argv.value, DedupeKey(source, agent, ref)).Some? <==>
                  Rewrite(agent, original, ref).Some? && KeptFlags(agent, original) != [])
  {
    assert IsOfficialSource(source, agent);
    hide Rewrite, KeptFlags;
    if Rewrite(agent, original, ref).Some? {
      RewriteLength(source, agent, ref, original);
    }
  }

  // --- The rewrite law for a whole command ---

  lemma {:induction false} KeptFromInput(items: seq<Item>)
    ensures forall tok | tok in KeptOf(items) :: tok in Tokens(items)
    decreases |items|
  {
    if items != [] {
      KeptFromInput(items[1..]);
    }
  }

  lemma {:induction false} FlagsFromInput(rest: Argv, seen: bool)
    requires Codex.Parts(rest, seen).Some?
    ensures forall tok | tok in Codex.Flags(Codex.Parts(rest, seen).value) :: tok in rest
    decreases |rest|
  {
    hide Codex.NextPart;
    if rest != [] {
      var part := Codex.NextPart(rest, seen).value;
      Codex.StepParts(rest, seen, part);
      FlagsFromInput(rest[|part.tokens|..], seen || part.Resume?);
    }
  }

  lemma {:induction false} AsciiLength(s: string)
    requires forall c | c in s :: ' ' <= c <= '~'
    ensures Utf8Len(s) == |s|
    decreases |s|
  {
    if s != "" {
      assert s[0] in s && forall c | c in s[1..] :: c in s;
      AsciiLength(s[1..]);
    }
  }

  lemma {:induction false} PlainToken(s: string)
    requires s != "" && |s| <= 64 && forall c | c in s :: ' ' <= c <= '~'
    ensures ValidToken(s)
  {
    AsciiLength(s);
  }

  /** Tokens the adapters add are valid ones. */
  lemma {:induction false} InjectedTokensValid()
    ensures ValidToken("--resume") && ValidToken("--session") && ValidToken("--no-daemon") && ValidToken("resume")
  {
    hide ValidToken;
    PlainToken("--resume");
    PlainToken("--session");
    PlainToken("--no-daemon");
    PlainToken("resume");
  }

  lemma {:induction false} FlagOutputValid(argv: Argv, spec: Spec, value: string)
    requires ValidArgv(argv) && ValidToken(value) && ValidToken(spec.canonicalSelector)
    requires RewriteFlags(argv[0], argv[1..], spec, value).Some?
    ensures var out := RewriteFlags(argv[0], argv[1..], spec, value).value;
            out != [] && out[0] == argv[0] && forall tok | tok in out :: ValidToken(tok)
  {
    var items := Items(spec, argv[1..]).value;
    ItemsSpellTheInput(spec, argv[1..]);
    KeptFromInput(items);
    KeptSplits(items);
    assert forall tok | tok in KeptOf(items) :: tok in argv;
    hide ValidToken, KeptOf, KeptBefore, KeptAfter, Items, Tokens;
  }

  lemma {:induction false} CodexOutputValid(argv: Argv, value: string)
    requires ValidArgv(argv) && ValidToken(value) && Codex.RewriteCodex(argv[0], argv[1..], value).Some?
    ensures var out := Codex.RewriteCodex(argv[0], argv[1..], value).value;
            out != [] && out[0] == argv[0] && forall tok | tok in out :: ValidToken(tok)
  {
    InjectedTokensValid();
    FlagsFromInput(argv[1..], false);
    hide ValidToken, Codex.Parts, Codex.Flags;
    var flags := Codex.Flags(Codex.Parts(argv[1..], false).value);
    forall tok | tok in flags ensures ValidToken(tok) {
      assert tok in argv;
    }
    AllOf([argv[0], "--no-daemon", "resume", value], flags);
  }

  lemma {:induction false} AllOf(head: Argv, flags: Argv)
    requires |head| == 4 && ValidToken(head[0]) && ValidToken(head[1]) && ValidToken(head[2]) && ValidToken(head[3])
    requires forall tok | tok in flags :: ValidToken(tok)
    ensures forall tok | tok in head + flags :: ValidToken(tok)
  {
    hide ValidToken;
  }

  /** The law for the two agents with a flag selector. */
  lemma {:induction false} FlagAgentComposes(spec: Spec, agent: string, argv: Argv, value: string, other: string)
    requires SpecFits(spec) && ValidToken(spec.canonicalSelector) && ValidToken(value) && !Dashed(value)
    requires ValidArgv(argv) && Argv0Matches(argv[0], agent) && RewriteFlags(argv[0], argv[1..], spec, value).Some?
    requires |RewriteFlags(argv[0], argv[1..], spec, value).value| <= MAX_ARGV_TOKENS
    ensures var out := RewriteFlags(argv[0], argv[1..], spec, value).value;
            && ValidArgv(out) && Argv0Matches(out[0], agent)
            && RewriteFlags(out[0], out[1..], spec, other) == RewriteFlags(argv[0], argv[1..], spec, other)
  {
    FlagOutputValid(argv, spec, value);
    RewriteComposes(argv[0], argv[1..], spec, value, other);
    hide RewriteFlags, Argv0Matches, SpecFits, ValidToken;
  }

  lemma {:induction false} CodexAgentComposes(argv: Argv, value: string, other: string)
    requires ValidToken(value) && !Dashed(value)
    requires ValidArgv(argv) && Argv0Matches(argv[0], "codex") && Codex.RewriteCodex(argv[0], argv[1..], value).Some?
    requires |Codex.RewriteCodex(argv[0], argv[1..], value).value| <= MAX_ARGV_TOKENS
    ensures var out := Codex.RewriteCodex(argv[0], argv[1..], value).value;
            && ValidArgv(out) && Argv0Matches(out[0], "codex")
            && Codex.RewriteCodex(out[0], out[1..], other) == Codex.RewriteCodex(argv[0], argv[1..], other)
  {
    CodexOutputValid(argv, value);
    Codex.CodexComposesIff(argv[0], argv[1..], value, other);
    hide Codex.RewriteCodex, Argv0Matches, ValidToken;
  }

  /**
   Resuming a resumed session: as long as the rewritten command still fits the token limit, rewriting
   it for another session is rewriting the original command for that session.
   */
  lemma {:induction false} ResumeOfResume(agent: string, argv: Argv, ref: SessionRef, other: SessionRef)
    requires Rewrite(agent, argv, ref).Some? && ValidToken(ref.value) && !Dashed(ref.value)
    requires |Rewrite(agent, argv, ref).value| <= MAX_ARGV_TOKENS
    ensures Rewrite(agent, Rewrite(agent, argv, ref).value, other) == Rewrite(agent, argv, other)
  {
    InjectedTokensValid();
    hide ValidToken, ValidArgv, Argv0Matches, RewriteFlags, Codex.RewriteCodex, SpecFits, Dashed;
    if agent == "claude" {
      ClaudeSpecFits();
      FlagAgentComposes(CLAUDE_SPEC, agent, argv, ref.value, other.value);
    } else if agent == "pi" {
      PiSpecFits();
      FlagAgentComposes(PI_SPEC, agent, argv, ref.value, other.value);
    } else {
      CodexAgentComposes(argv, ref.value, other.value);
    }
  }

  // --- Which program, and the canonical command ---

  /** A name after a last slash, or without any, is the last component. */
  lemma {:induction false} NameIsLast(name: string, current: string)
    requires '/' !in name && current + name != "" && current + name != "."
    ensures Components(name, current) == [current + name]
    decreases |name|
  {
    if name == "" {
      assert current + name == current;
    } else {
      assert name[0] in name && (forall c | c in name[1..] :: c in name);
      assert (current + [name[0]]) + name[1..] == current + name;
      NameIsLast(name[1..], current + [name[0]]);
    }
  }

  lemma {:induction false} DirThenName(dir: string, name: string, current: string)
    requires '/' !in name && name != "" && name != "."
    ensures var parts := Components(dir + "/" + name, current); parts != [] && parts[|parts| - 1] == name
    decreases |dir|
  {
    var path := dir + "/" + name;
    if dir == "" {
      assert path[0] == '/' && path[1..] == name && "" + name == name;
      NameIsLast(name, "");
    } else {
      assert path[0] == dir[0] && path[1..] == dir[1..] + "/" + name;
      DirThenName(dir[1..], name, if dir[0] == '/' then "" else current + [dir[0]]);
    }
  }

  /** A program is an agent's if and only if its file name is, in whatever directory. */
  lemma {:induction false} ProgramIsAgent(dir: string, name: string, agent: string)
    requires '/' !in name && name != "" && name != "."
    ensures Argv0Matches(dir + "/" + name, agent) <==> name == agent && name != ".."
    ensures Argv0Matches(name, agent) <==> name == agent && name != ".."
  {
    DirThenName(dir, name, "");
    NameIsLast(name, "");
    assert "" + name == name;
  }

  /** A command that starts another program, such as an interpreter, is not rewritten. */
  lemma {:induction false} WrappedLauncherIsRefused(agent: string, dir: string, name: string, rest: Argv, ref: SessionRef)
    requires '/' !in name && name != "" && name != "." && name != agent
    ensures Rewrite(agent, [dir + "/" + name] + rest, ref).None? && Rewrite(agent, [name] + rest, ref).None?
  {
    ProgramIsAgent(dir, name, agent);
    hide Argv0Matches, ValidArgv;
  }

  lemma {:induction false} BareCodex(value: string)
    ensures Codex.RewriteCodex("codex", [], value) == Some(["codex", "--no-daemon", "resume", value])
  {
    var none: seq<Codex.Part> := [];
    assert Codex.Parts([], false) == Some(none) && Codex.Flags(none) == [];
    assert ["codex", "--no-daemon", "resume", value] + [] == ["codex", "--no-daemon", "resume", value];
  }

  lemma {:induction false} BareFlags(agent: string, spec: Spec, value: string)
    ensures RewriteFlags(agent, [], spec, value) == Some([agent, spec.canonicalSelector, value])
  {
    var none: seq<Item> := [];
    assert Items(spec, []) == Some(none) && KeptBefore(none) == [] && KeptAfter(none) == [];
    assert [agent] + [] + [spec.canonicalSelector, value] + [] == [agent, spec.canonicalSelector, value];
  }

  /** The canonical command is what the adapter makes of the bare one. */
  lemma {:induction false} CanonicalIsBareRewrite(source: string, agent: string, ref: SessionRef)
    requires Canonical(source, agent, ref).Some?
    ensures Rewrite(agent, [agent], ref) == Canonical(source, agent, ref)
  {
    assert agent == "claude" || agent == "codex" || agent == "pi";
    PlainToken(agent);
    ProgramIsAgent("", agent, agent);
    var argv := [agent];
    assert argv[1..] == [];
    hide ValidToken, Argv0Matches;
    assert ValidArgv(argv);
    if agent == "codex" {
      BareCodex(ref.value);
    } else {
      var spec := if agent == "claude" then CLAUDE_SPEC else PI_SPEC;
      BareFlags(agent, spec, ref.value);
    }
  }
}
