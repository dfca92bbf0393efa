/**
 The agent presence detector as a timed state machine: probe scheduling, miss confirmation, and the
 order in which a process exit is reported and the agent's identity cleared. Times are milliseconds.
 */
module Detector {
  import opened Common

  type Agent = nat

  const AGENT_MISS_CONFIRMATION_ATTEMPTS: nat := 6
  const PROCESS_RECHECK_IDENTIFIED: nat := 5000
  const PROCESS_RECHECK_MISSING_FOREGROUND_GROUP: nat := 30000
  const PROCESS_ACQUISITION_WINDOW: nat := 8000
  const PROCESS_ACQUISITION_FAST_WINDOW: nat := 1500
  const PROCESS_ACQUISITION_FAST_RECHECK: nat := 500
  const PROCESS_ACQUISITION_SLOW_RECHECK: nat := 2000
  const PROCESS_ACQUISITION_IDLE_RESET: nat := 2000

  // --- Presence ---

  datatype Presence = Presence(current: Option<Agent>, misses: nat)

  function SaturatingAdd8(a: nat): nat {
    if a >= 255 then 255 else a + 1
  }

  /** `clear_current_agent`. */
  function ClearCurrent(p: Presence): Presence {
    Presence(None, 0)
  }

  /** `observe_process_probe`. */
  function ObserveProbe(p: Presence, identified: Option<Agent>): Presence {
    if identified.Some? then Presence(identified, 0)
    else if p.current.None? then Presence(None, 0)
    else
      var misses := SaturatingAdd8(p.misses);
      if misses < AGENT_MISS_CONFIRMATION_ATTEMPTS then Presence(p.current, misses) else Presence(None, 0)
  }

  // --- Decisions ---

  datatype ShellAction = Observe | ReportProcessExit | ClearAgent

  function ForegroundShellAgentAction(
    previous: Option<Agent>, found: Option<Agent>, foregroundIsShell: bool, exitReported: bool): ShellAction
  {
    if previous.None? || found.Some? then Observe
    else if exitReported then ClearAgent
    else if foregroundIsShell then ReportProcessExit
    else Observe
  }

  predicate ForegroundGroupChanged(group: Option<nat>, lastGroup: Option<nat>) {
    group != lastGroup && (group.Some? || lastGroup.Some?)
  }

  function GroupForChangeTracking(observed: Option<nat>, probed: Option<nat>): Option<nat> {
    if observed.None? then None else if probed.Some? then probed else observed
  }

  datatype ProbeInput = ProbeInput(
    current: Option<Agent>, suppressed: Option<Agent>, group: Option<nat>, lastGroup: Option<nat>,
    hasProbe: bool, acquisitionAge: Option<nat>, pendingClear: bool, pendingRestore: bool, elapsed: nat)

  predicate SkipForLifecycleAuthority(active: bool, i: ProbeInput) {
    active && i.group.Some? && !i.pendingClear && i.suppressed.None? && i.hasProbe
    && !ForegroundGroupChanged(i.group, i.lastGroup)
  }

  predicate AcquisitionDue(i: ProbeInput) {
    i.acquisitionAge.Some? &&
    var age := i.acquisitionAge.value;
    var interval :=
      if age <= PROCESS_ACQUISITION_FAST_WINDOW then PROCESS_ACQUISITION_FAST_RECHECK
      else PROCESS_ACQUISITION_SLOW_RECHECK;
    age <= PROCESS_ACQUISITION_WINDOW && i.elapsed >= interval
  }

  predicate ShouldProbe(i: ProbeInput) {
    var changed := ForegroundGroupChanged(i.group, i.lastGroup);
    if i.pendingClear || i.pendingRestore then true
    else if i.suppressed.Some? then !i.hasProbe || changed
    else if AcquisitionDue(i) then true
    else if i.current.None? then
      !i.hasProbe || changed || (i.group.None? && i.elapsed >= PROCESS_RECHECK_MISSING_FOREGROUND_GROUP)
    else changed || i.elapsed >= PROCESS_RECHECK_IDENTIFIED
  }

  datatype Acquisition = Acquisition(startedAt: Option<nat>, lastChangeAt: Option<nat>)

  /** Saturating `duration_since`. */
  function Since(now: nat, then': nat): nat {
    if now < then' then 0 else now - then'
  }

  /** `sync_content_change_acquisition`. */
  function SyncAcquisition(
    a: Acquisition, current: Option<Agent>, suppressed: Option<Agent>, groupChanged: bool, contentChanged: bool, now: nat
  ): Acquisition {
    if current.Some? || suppressed.Some? || groupChanged then a
    else if contentChanged then
      var start :=
        a.startedAt.None?
        || (Since(now, a.startedAt.value) > PROCESS_ACQUISITION_WINDOW
            && (a.lastChangeAt.None? || Since(now, a.lastChangeAt.value) >= PROCESS_ACQUISITION_IDLE_RESET));
      Acquisition(if start then Some(now) else a.startedAt, Some(now))
    else if a.startedAt.None? || a.lastChangeAt.None? then a
    else if Since(now, a.startedAt.value) > PROCESS_ACQUISITION_WINDOW
            && Since(now, a.lastChangeAt.value) >= PROCESS_ACQUISITION_IDLE_RESET
    then Acquisition(None, None)
    else a
  }

  // --- The loop ---

  /** What happened, in order: probes after suppression and what they saw, published state changes, and resets. */
  datatype Entry =
    | Probed(agent: Option<Agent>, shell: bool)
    | Published(agent: Option<Agent>, exited: bool)
    | WasReset

  datatype Machine = Machine(
    presence: Presence, lastCheck: nat, lastGroup: Option<nat>, hasProbe: bool, acquisition: Acquisition,
    pendingClear: bool, exitReported: bool, releaseWasActive: bool, pendingRestore: bool,
    graceUntil: Option<nat>, log: seq<Entry>)

  datatype ProbeResult = ProbeResult(group: Option<nat>, foregroundIsShell: bool, agent: Option<Agent>)

  /**
   One turn of the loop. What the probe would find, whether the screen is read, and what the screen
   decision would publish are inputs: the machine is proved for every answer.
   */
  datatype Tick = Tick(
    reset: bool, now: nat, suppressed: Option<Agent>, hasChild: bool, lifecycle: bool, group: Option<nat>,
    probe: ProbeResult, paused: bool, skipScreen: bool, skipUpdate: bool, contentChanged: bool, publishes: bool)

  const AGENT_STARTUP_GRACE_WINDOW: nat := 3000

  /** A detector for a new pane: a restored pane starts with its saved agent and owes one probe. */
  function Start(restored: Option<Agent>, now: nat): Machine {
    Machine(Presence(restored, 0), now, None, false, Acquisition(None, None), false, false, false, restored.Some?, None, [])
  }

  /** The reset branch of the loop's `select`. */
  function ResetMachine(m: Machine): Machine {
    m.(presence := Presence(None, 0), lastGroup := None, hasProbe := false, acquisition := Acquisition(None, None),
       pendingClear := false, exitReported := false, releaseWasActive := false, pendingRestore := false,
       graceUntil := None, log := m.log + [WasReset])
  }

  function Wake(m: Machine, t: Tick): Machine {
    var m1 := if t.reset then ResetMachine(m) else m;
    var m2 :=
      if t.suppressed.None? && m1.releaseWasActive
      then m1.(hasProbe := false, acquisition := Acquisition(None, None)) else m1;
    m2.(releaseWasActive := t.suppressed.Some?)
  }

  function InputOf(m: Machine, t: Tick): ProbeInput {
    ProbeInput(
      m.presence.current, t.suppressed, GroupOf(t), m.lastGroup, m.hasProbe,
      if m.acquisition.startedAt.Some? then Some(Since(t.now, m.acquisition.startedAt.value)) else None,
      m.pendingClear, m.pendingRestore, Since(t.now, m.lastCheck))
  }

  function GroupOf(t: Tick): Option<nat> {
    if t.hasChild then t.group else None
  }

  predicate Probes(m: Machine, t: Tick) {
    t.hasChild && !SkipForLifecycleAuthority(t.lifecycle, InputOf(m, t)) && ShouldProbe(InputOf(m, t))
  }

  /** The probed agent with a suppressed one hidden. */
  function FoundAgent(t: Tick): Option<Agent> {
    if t.suppressed.Some? && t.probe.agent == t.suppressed then None else t.probe.agent
  }

  /** What a probe leaves in the log: the agent it found, and whether the pane's shell was in the foreground. */
  function Look(t: Tick): Entry {
    Probed(FoundAgent(t), t.probe.foregroundIsShell)
  }

  function ProbeAction(m: Machine, t: Tick): ShellAction {
    ForegroundShellAgentAction(m.presence.current, FoundAgent(t), t.probe.foregroundIsShell, m.exitReported)
  }

  /** The presence and exit bookkeeping of one probe. */
  function AfterAction(m: Machine, t: Tick): Machine {
    match ProbeAction(m, t)
    case ReportProcessExit => m.(pendingClear := true)
    case ClearAgent => m.(pendingClear := false, exitReported := false, presence := ClearCurrent(m.presence))
    case Observe => m.(pendingClear := false, exitReported := false, presence := ObserveProbe(m.presence, FoundAgent(t)))
  }

  /** What a probe leaves behind for scheduling the next ones; `before` is the machine before the probe. */
  function Track(before: Machine, m: Machine, t: Tick): Machine {
    var m1 := m.(lastCheck := t.now, hasProbe := true, pendingRestore := false,
                 lastGroup := GroupForChangeTracking(GroupOf(t), t.probe.group));
    if FoundAgent(t).Some? then m1.(acquisition := Acquisition(None, None))
    else if m1.presence.current.None? && before.hasProbe && ForegroundGroupChanged(GroupOf(t), before.lastGroup)
    then m1.(acquisition := m1.acquisition.(startedAt := Some(t.now)))
    else m1
  }

  /** A newly identified agent is published at once and given its startup grace. */
  function Announce(previous: Option<Agent>, m: Machine, now: nat): Machine {
    if m.presence.current == previous then m
    else if m.presence.current.Some? then
      m.(graceUntil := Some(now + AGENT_STARTUP_GRACE_WINDOW), log := m.log + [Published(m.presence.current, false)])
    else m.(graceUntil := None)
  }

  function ProbeStep(m: Machine, t: Tick): Machine {
    if !Probes(m, t) then m
    else Announce(m.presence.current, Track(m, AfterAction(m.(log := m.log + [Look(t)]), t), t), t.now)
  }

  predicate ProcessExited(m: Machine) {
    m.pendingClear && m.presence.current.Some? && !m.exitReported
  }

  /** Reading the screen and publishing what it shows, once nothing earlier ended the turn. */
  function ReadAndPublish(m: Machine, t: Tick, groupChanged: bool): Machine {
    var exited := ProcessExited(m);
    if (t.paused && !exited) || t.skipScreen || (!t.paused && t.skipUpdate) then m
    else
      var m1 :=
        if t.paused then m
        else
          m.(acquisition := SyncAcquisition(
               m.acquisition, m.presence.current, t.suppressed, groupChanged, t.contentChanged, t.now));
      if !t.publishes then m1
      else m1.(log := m1.log + [Published(m1.presence.current, exited)], exitReported := m1.exitReported || exited)
  }

  /** The rest of the turn, from the hook-authority check to publishing; `before` is the machine before the probe. */
  function ScreenStep(before: Machine, m: Machine, t: Tick): Machine {
    var exited := ProcessExited(m);
    if t.lifecycle && !exited then
      if Probes(before, t) && FoundAgent(t).Some? && m.presence.current == before.presence.current
      then m.(log := m.log + [Published(FoundAgent(t), false)]) else m
    else if m.graceUntil.Some? && !exited then
      if t.now < m.graceUntil.value then m else m.(graceUntil := None)
    else
      ReadAndPublish(m.(graceUntil := None), t, ForegroundGroupChanged(GroupOf(t), before.lastGroup))
  }

  function Turn(m: Machine, t: Tick): Machine {
    var woken := Wake(m, t);
    ScreenStep(woken, ProbeStep(woken, t), t)
  }

  function Run(m: Machine, ticks: seq<Tick>, n: nat): Machine
    requires n <= |ticks|
  {
    if n == 0 then m else Turn(Run(m, ticks, n - 1), ticks[n - 1])
  }

  // --- Exit before clear ---

  /** The agent's exit was published, and no probe has identified anything since. */
  ghost predicate ExitPublished(log: seq<Entry>, agent: Agent) {
    exists k ::
      && 0 <= k < |log| && log[k] == Published(Some(agent), true)
      && forall j | k < j < |log| :: log[j] != WasReset && !(log[j].Probed? && log[j].agent.Some?)
  }

  /** Probes that identified nothing since the last one that did, or the last reset. */
  function MissesSinceHit(log: seq<Entry>): nat {
    if log == [] then 0
    else
      var last := log[|log| - 1];
      if last.WasReset? || (last.Probed? && last.agent.Some?) then 0
      else MissesSinceHit(log[..|log| - 1]) + (if last.Probed? then 1 else 0)
  }

  ghost predicate Inv(m: Machine) {
    && (m.presence.current.None? ==> m.presence.misses == 0)
    && m.presence.misses < AGENT_MISS_CONFIRMATION_ATTEMPTS
    && m.presence.misses <= MissesSinceHit(m.log)
    && (m.exitReported ==> m.presence.current.Some? && ExitPublished(m.log, m.presence.current.value))
  }

  lemma {:induction false} LogGrows(log: seq<Entry>, e: Entry)
    ensures MissesSinceHit(log + [e]) ==
      if e.WasReset? || (e.Probed? && e.agent.Some?) then 0 else MissesSinceHit(log) + (if e.Probed? then 1 else 0)
    ensures forall a :: ExitPublished(log, a) && e != WasReset && !(e.Probed? && e.agent.Some?) ==> ExitPublished(log + [e], a)
    ensures forall a :: e == Published(Some(a), true) ==> ExitPublished(log + [e], a)
  {
    assert (log + [e])[..|log|] == log;
    forall a | ExitPublished(log, a) && e != WasReset && !(e.Probed? && e.agent.Some?) ensures ExitPublished(log + [e], a) {
      var k :| 0 <= k < |log| && log[k] == Published(Some(a), true)
        && forall j | k < j < |log| :: log[j] != WasReset && !(log[j].Probed? && log[j].agent.Some?);
      assert (log + [e])[k] == Published(Some(a), true);
    }
    forall a | e == Published(Some(a), true) ensures ExitPublished(log + [e], a) {
      assert (log + [e])[|log|] == e;
    }
  }

  lemma {:induction false} WakeKeepsInv(m: Machine, t: Tick)
    requires Inv(m)
    ensures Inv(Wake(m, t))
    ensures !t.reset ==> Wake(m, t).presence == m.presence && Wake(m, t).log == m.log && Wake(m, t).exitReported == m.exitReported
  {
    LogGrows(m.log, WasReset);
  }

  /**
   What a probe may do to the identity: the shell path clears it only with the agent's exit already
   published and nothing identified since; the other path clears it only on the sixth miss in a row.
   */
  lemma {:induction false} ProbeKeepsInv(m: Machine, t: Tick)
    requires Inv(m)
    ensures Inv(ProbeStep(m, t))
    ensures m.presence.current.Some? && ProbeStep(m, t).presence.current.None? ==>
      (if ProbeAction(m, t).ClearAgent? then ExitPublished(m.log, m.presence.current.value)
       else MissesSinceHit(ProbeStep(m, t).log) >= AGENT_MISS_CONFIRMATION_ATTEMPTS)
  {
    hide Probes, FoundAgent, ExitPublished, MissesSinceHit;
    if Probes(m, t) {
      var found := FoundAgent(t);
      var logged := m.log + [Look(t)];
      LogGrows(m.log, Look(t));
      var m1 := AfterAction(m.(log := logged), t);
      ActionKeepsInv(m, t);
      hide AfterAction, ProbeAction;
      LogGrows(logged, Published(m1.presence.current, false));
    }
  }

  lemma {:induction false} ActionKeepsInv(m: Machine, t: Tick)
    requires Inv(m)
    ensures var logged := m.log + [Look(t)];
            var m1 := AfterAction(m.(log := logged), t);
            && Inv(m1)
            && (m.presence.current.Some? && m1.presence.current.None? ==>
                  (if ProbeAction(m, t).ClearAgent? then ExitPublished(m.log, m.presence.current.value)
                   else MissesSinceHit(logged) >= AGENT_MISS_CONFIRMATION_ATTEMPTS))
            && (m1.presence.current.Some? && m1.presence.current != m.presence.current ==> !m1.exitReported)
  {
    hide FoundAgent, ExitPublished, MissesSinceHit;
    LogGrows(m.log, Look(t));
  }

  lemma {:induction false} ScreenKeepsInv(before: Machine, m: Machine, t: Tick)
    requires Inv(m)
    ensures Inv(ScreenStep(before, m, t))
    ensures ScreenStep(before, m, t).presence == m.presence
    ensures MissesSinceHit(ScreenStep(before, m, t).log) == MissesSinceHit(m.log)
  {
    hide Probes, FoundAgent, ExitPublished, MissesSinceHit, SyncAcquisition, ForegroundGroupChanged;
    LogGrows(m.log, Published(FoundAgent(t), false));
    LogGrows(m.log, Published(m.presence.current, ProcessExited(m)));
  }

  lemma {:induction false} RunKeepsInv(restored: Option<Agent>, start: nat, ticks: seq<Tick>, n: nat)
    requires n <= |ticks|
    ensures Inv(Run(Start(restored, start), ticks, n))
    decreases n
  {
    if n > 0 {
      var m := Run(Start(restored, start), ticks, n - 1);
      var t := ticks[n - 1];
      RunKeepsInv(restored, start, ticks, n - 1);
      WakeKeepsInv(m, t);
      ProbeKeepsInv(Wake(m, t), t);
      ScreenKeepsInv(Wake(m, t), ProbeStep(Wake(m, t), t), t);
    }
  }

  /**
   In every run of the detector, an agent's identity is dropped only by an explicit reset, or after
   an exit event was published for that same agent with no identifying probe since, or after six
   probes in a row that found nothing.
   */
  lemma {:induction false} ExitBeforeClear(restored: Option<Agent>, start: nat, ticks: seq<Tick>, n: nat)
    requires n < |ticks|
    ensures var m := Run(Start(restored, start), ticks, n);
            var m' := Run(Start(restored, start), ticks, n + 1);
            m.presence.current.Some? && m'.presence.current.None? ==>
              || ticks[n].reset
              || ExitPublished(m.log, m.presence.current.value)
              || MissesSinceHit(m'.log) >= 6
  {
    var m := Run(Start(restored, start), ticks, n);
    var t := ticks[n];
    RunKeepsInv(restored, start, ticks, n);
    WakeKeepsInv(m, t);
    ProbeKeepsInv(Wake(m, t), t);
    ScreenKeepsInv(Wake(m, t), ProbeStep(Wake(m, t), t), t);
  }

  /** An exit is published at most once for one disappearance: not again until a probe decides anew. */
  lemma {:induction false} ExitReportedOnce(m: Machine, t: Tick)
    requires Inv(m) && !t.reset && m.exitReported && !Probes(Wake(m, t), t)
    ensures forall k | |m.log| <= k < |Turn(m, t).log| :: !(Turn(m, t).log[k].Published? && Turn(m, t).log[k].exited)
  {
    WakeKeepsInv(m, t);
  }

  // --- When an exit is published ---

  /** The last probe or reset before the k-th entry. */
  function LastLook(log: seq<Entry>, k: nat): Option<Entry>
    requires k <= |log|
  {
    if k == 0 then None
    else if log[k - 1].Probed? || log[k - 1].WasReset? then Some(log[k - 1])
    else LastLook(log, k - 1)
  }

  /** The latest look at the foreground found no agent, and saw the pane's own shell there. */
  predicate SawShellAlone(log: seq<Entry>, k: nat)
    requires k <= |log|
  {
    LastLook(log, k) == Some(Probed(None, true))
  }

  /** Every exit in the log was published on the word of such a look. */
  ghost predicate ExitsSeen(log: seq<Entry>) {
    forall k | 0 <= k < |log| && log[k].Published? && log[k].exited :: log[k].agent.Some? && SawShellAlone(log, k)
  }

  ghost predicate ShellInv(m: Machine) {
    && ExitsSeen(m.log)
    && (m.pendingClear ==> m.presence.current.Some? && SawShellAlone(m.log, |m.log|))
  }

  lemma {:induction false} LookBefore(log: seq<Entry>, e: Entry, k: nat)
    requires k <= |log|
    ensures LastLook(log + [e], k) == LastLook(log, k)
    decreases k
  {
    if k > 0 {
      LookBefore(log, e, k - 1);
    }
  }

  lemma {:induction false} LookGrows(log: seq<Entry>, e: Entry)
    ensures LastLook(log + [e], |log| + 1) == if e.Published? then LastLook(log, |log|) else Some(e)
    ensures ExitsSeen(log) && (e.Published? && e.exited ==> e.agent.Some? && SawShellAlone(log, |log|)) ==> ExitsSeen(log + [e])
  {
    forall k | 0 <= k <= |log| ensures LastLook(log + [e], k) == LastLook(log, k) {
      LookBefore(log, e, k);
    }
    hide LastLook;
    assert LastLook(log + [e], |log| + 1) == if e.Published? then LastLook(log, |log|) else Some(e) by { LookLast(log, e); }
  }

  lemma {:induction false} LookLast(log: seq<Entry>, e: Entry)
    ensures LastLook(log + [e], |log| + 1) == if e.Published? then LastLook(log, |log|) else Some(e)
  {
    LookBefore(log, e, |log|);
  }

  lemma {:induction false} WakeKeepsShell(m: Machine, t: Tick)
    requires ShellInv(m)
    ensures ShellInv(Wake(m, t))
  {
    LookGrows(m.log, WasReset);
    hide LastLook;
  }

  lemma {:induction false} ProbeKeepsShell(m: Machine, t: Tick)
    requires ShellInv(m)
    ensures ShellInv(ProbeStep(m, t))
  {
    hide Probes, FoundAgent, LastLook;
    if Probes(m, t) {
      var m1 := AfterAction(m.(log := m.log + [Look(t)]), t);
      LookGrows(m.log, Look(t));
      LookGrows(m1.log, Published(m1.presence.current, false));
    }
  }

  lemma {:induction false} ScreenKeepsShell(before: Machine, m: Machine, t: Tick)
    requires ShellInv(m)
    ensures ShellInv(ScreenStep(before, m, t))
  {
    hide Probes, FoundAgent, LastLook, SyncAcquisition, ForegroundGroupChanged;
    LookGrows(m.log, Published(FoundAgent(t), false));
    LookGrows(m.log, Published(m.presence.current, ProcessExited(m)));
  }

  lemma {:induction false} RunKeepsShell(restored: Option<Agent>, start: nat, ticks: seq<Tick>, n: nat)
    requires n <= |ticks|
    ensures ShellInv(Run(Start(restored, start), ticks, n))
    decreases n
  {
    hide ShellInv;
    if n > 0 {
      var m := Run(Start(restored, start), ticks, n - 1);
      RunKeepsShell(restored, start, ticks, n - 1);
      WakeKeepsShell(m, ticks[n - 1]);
      ProbeKeepsShell(Wake(m, ticks[n - 1]), ticks[n - 1]);
      ScreenKeepsShell(Wake(m, ticks[n - 1]), ProbeStep(Wake(m, ticks[n - 1]), ticks[n - 1]), ticks[n - 1]);
    } else {
      assert ShellInv(Start(restored, start)) by { StartIsQuiet(restored, start); }
    }
  }

  lemma {:induction false} StartIsQuiet(restored: Option<Agent>, start: nat)
    ensures ShellInv(Start(restored, start))
  {
  }

  /**
   In every run an exit is published only of an agent, and only while the latest probe, with no reset since, found
   no agent and saw the pane's own shell in the foreground.
   */
  lemma {:induction false} ExitMeansShellAlone(restored: Option<Agent>, start: nat, ticks: seq<Tick>, n: nat, k: nat)
    requires n <= |ticks|
    requires var log := Run(Start(restored, start), ticks, n).log; k < |log| && log[k].Published? && log[k].exited
    ensures var log := Run(Start(restored, start), ticks, n).log;
            log[k].agent.Some? && LastLook(log, k) == Some(Probed(None, true))
  {
    RunKeepsShell(restored, start, ticks, n);
    hide LastLook, Run;
  }

  /** A turn that looks at the foreground, and then is let through to publish what it knows. */
  predicate LooksAndPublishes(m: Machine, t: Tick) {
    !t.reset && Probes(Wake(m, t), t) && !t.skipScreen && (t.paused || !t.skipUpdate) && t.publishes
  }

  /**
   The other way round: with an agent identified whose exit was not reported, a turn that finds no agent but the pane's
   shell, and that may publish, publishes the exit of that agent, keeps the identity and remembers that it reported.
   */
  lemma {:induction false} ShellAloneIsReported(m: Machine, t: Tick, agent: Agent)
    requires m.presence.current == Some(agent) && !m.exitReported && LooksAndPublishes(m, t)
    requires FoundAgent(t).None? && t.probe.foregroundIsShell
    ensures var m' := Turn(m, t);
            && m'.log == m.log + [Probed(None, true), Published(Some(agent), true)]
            && m'.presence.current == Some(agent) && m'.exitReported
  {
    hide Probes, SyncAcquisition, ForegroundGroupChanged;
    assert Wake(m, t).presence == m.presence && Wake(m, t).log == m.log && !Wake(m, t).exitReported;
  }

  /** Once the exit was reported the next probe that finds no agent drops the identity. */
  lemma {:induction false} ReportedIsDropped(m: Machine, t: Tick)
    requires m.presence.current.Some? && m.exitReported && !t.reset && Probes(Wake(m, t), t) && FoundAgent(t).None?
    ensures Turn(m, t).presence == Presence(None, 0) && !Turn(m, t).exitReported && !Turn(m, t).pendingClear
  {
    hide Probes, SyncAcquisition, ForegroundGroupChanged;
  }

  /** The entry the screen half of a turn may add: the identity, as exited or not, or the agent just found again. */
  predicate ScreenEntry(m: Machine, t: Tick, e: Entry) {
    e == Published(m.presence.current, ProcessExited(m)) || (FoundAgent(t).Some? && e == Published(FoundAgent(t), false))
  }

  lemma {:induction false} ScreenAdds(before: Machine, m: Machine, t: Tick)
    ensures var r := ScreenStep(before, m, t);
            && r.presence == m.presence && r.pendingClear == m.pendingClear
            && (r.log == m.log || (|r.log| == |m.log| + 1 && r.log[..|m.log|] == m.log && ScreenEntry(m, t, r.log[|m.log|])))
  {
    hide Probes, FoundAgent, SyncAcquisition, ForegroundGroupChanged, GroupOf;
    var found := Published(FoundAgent(t), false);
    assert (m.log + [found])[..|m.log|] == m.log;
    assert (m.log + [Published(m.presence.current, ProcessExited(m))])[..|m.log|] == m.log;
  }

  /** A probe that finds neither the agent nor the shell, before anything is published. */
  lemma {:induction false} MissedProbe(m: Machine, t: Tick, agent: Agent)
    requires m.presence.current == Some(agent) && !m.exitReported && Probes(m, t)
    requires FoundAgent(t).None? && !t.probe.foregroundIsShell && m.presence.misses < 6
    ensures var r := ProbeStep(m, t);
            && r.presence == (if m.presence.misses + 1 < 6 then Presence(Some(agent), m.presence.misses + 1) else Presence(None, 0))
            && !r.pendingClear && r.log == m.log + [Look(t)]
  {
    var acted := AfterAction(m.(log := m.log + [Look(t)]), t);
    assert acted.presence == (if m.presence.misses + 1 < 6 then Presence(Some(agent), m.presence.misses + 1) else Presence(None, 0));
    assert !acted.pendingClear && acted.log == m.log + [Look(t)];
    hide AfterAction, Probes, FoundAgent, Look, ForegroundGroupChanged, GroupOf, GroupForChangeTracking;
  }

  /** A probe that finds another program than the shell, and no agent, only counts as a miss, and keeps the identity until the sixth. */
  lemma {:induction false} OtherProgramIsAMiss(m: Machine, t: Tick, agent: Agent)
    requires m.presence.current == Some(agent) && !m.exitReported && !t.reset && Probes(Wake(m, t), t)
    requires FoundAgent(t).None? && !t.probe.foregroundIsShell && m.presence.misses < 6
    ensures var m' := Turn(m, t);
            && m'.presence == (if m.presence.misses + 1 < 6 then Presence(Some(agent), m.presence.misses + 1) else Presence(None, 0))
            && !m'.pendingClear && forall k | |m.log| <= k < |m'.log| :: m'.log[k].Published? ==> !m'.log[k].exited
  {
    AwakeIs(m, t);
    hide *;
    var woken := Wake(m, t);
    var probed := ProbeStep(woken, t);
    MissedProbe(woken, t, agent);
    ScreenAdds(woken, probed, t);
    TurnHalves(m, t);
    NoExitAmong(m.log, probed, t, Turn(m, t).log);
  }

  lemma {:induction false} AwakeIs(m: Machine, t: Tick)
    requires !t.reset
    ensures Wake(m, t).presence == m.presence && Wake(m, t).log == m.log && Wake(m, t).exitReported == m.exitReported
  {
  }

  lemma {:induction false} NoExitAmong(log: seq<Entry>, m: Machine, t: Tick, after: seq<Entry>)
    requires m.log == log + [Look(t)] && !m.pendingClear
    requires after == m.log || (|after| == |m.log| + 1 && after[..|m.log|] == m.log && ScreenEntry(m, t, after[|m.log|]))
    ensures forall k | |log| <= k < |after| :: after[k].Published? ==> !after[k].exited
  {
    hide FoundAgent;
    assert forall k | 0 <= k < |m.log| :: after[k] == m.log[k];
  }

  /**
   A probe that finds another agent makes it the identity at once, publishes it, and holds the screen's word back for
   three seconds; a probe that finds the same agent again forgets its misses.
   */
  lemma {:induction false} FoundIsIdentity(m: Machine, t: Tick, agent: Agent)
    requires !t.reset && Probes(Wake(m, t), t) && FoundAgent(t) == Some(agent)
    ensures var m' := Turn(m, t);
            && m'.presence == Presence(Some(agent), 0) && !m'.pendingClear && !m'.exitReported
            && m.log + [Probed(Some(agent), t.probe.foregroundIsShell)] <= m'.log
            && (m.presence.current != Some(agent) ==>
                  && m'.graceUntil == Some(t.now + 3000)
                  && m'.log == m.log + [Probed(Some(agent), t.probe.foregroundIsShell), Published(Some(agent), false)])
  {
    hide Probes, SyncAcquisition, ForegroundGroupChanged;
    var woken := Wake(m, t);
    var probed := ProbeStep(woken, t);
    assert woken.log == m.log && woken.presence == m.presence;
    assert Turn(m, t).log[..|probed.log|] == probed.log;
  }

  /** Under hook authority a probe that finds the agent again publishes it at once; nothing else is published. */
  lemma {:induction false} FoundAgainIsPublished(m: Machine, t: Tick, agent: Agent)
    requires !t.reset && t.lifecycle && Probes(Wake(m, t), t) && FoundAgent(t) == Some(agent)
    requires m.presence.current == Some(agent)
    ensures Turn(m, t).log == m.log + [Probed(Some(agent), t.probe.foregroundIsShell), Published(Some(agent), false)]
  {
    hide Probes, SyncAcquisition, ForegroundGroupChanged;
    var woken := Wake(m, t);
    var probed := ProbeStep(woken, t);
    assert woken.log == m.log && woken.presence == m.presence;
    assert probed.log == m.log + [Look(t)] && !ProcessExited(probed);
  }

  /** In that time, unless an exit is to be reported, a turn without a probe publishes nothing. */
  lemma {:induction false} GraceHoldsBack(m: Machine, t: Tick, until: nat)
    requires !t.reset && !Probes(Wake(m, t), t) && m.graceUntil == Some(until) && t.now < until && !ProcessExited(m)
    ensures Turn(m, t).log == m.log && Turn(m, t).graceUntil == m.graceUntil
  {
    hide Probes, SyncAcquisition, ForegroundGroupChanged;
  }

  // --- An identified agent is looked at every five seconds ---

  /** A turn in which the identified agent is still there, and nothing else asks for a look. */
  predicate StillThere(t: Tick, agent: Agent, group: nat) {
    && !t.reset && t.suppressed.None? && t.hasChild && !t.lifecycle && t.group == Some(group)
    && t.probe.agent == Some(agent) && (t.probe.group == Some(group) || t.probe.group.None?)
  }

  predicate Identified(m: Machine, agent: Agent, group: nat) {
    && m.presence.current == Some(agent) && m.hasProbe && m.lastGroup == Some(group)
    && m.acquisition == Acquisition(None, None) && !m.pendingClear && !m.pendingRestore && !m.releaseWasActive
  }

  lemma {:induction false} IdentifiedTurn(m: Machine, t: Tick, agent: Agent, group: nat)
    requires Identified(m, agent, group) && StillThere(t, agent, group) && m.lastCheck <= t.now
    ensures Wake(m, t) == m && Identified(Turn(m, t), agent, group)
    ensures Probes(m, t) <==> t.now - m.lastCheck >= 5000
    ensures Turn(m, t).lastCheck == if Probes(m, t) then t.now else m.lastCheck
  {
  }

  /** Over any run with the agent still there: five seconds never pass after a look without another, and no two looks are closer. */
  lemma {:induction false} LooksEveryFiveSeconds(m: Machine, ticks: seq<Tick>, n: nat, agent: Agent, group: nat)
    requires Identified(m, agent, group) && n <= |ticks| && forall i | 0 <= i < n :: StillThere(ticks[i], agent, group)
    requires forall i | 0 <= i < n :: m.lastCheck <= ticks[i].now
    requires forall i, j | 0 <= i < j < n :: ticks[i].now <= ticks[j].now
    ensures var m' := Run(m, ticks, n);
            && Identified(m', agent, group) && m.lastCheck <= m'.lastCheck
            && (n > 0 ==> m'.lastCheck <= ticks[n - 1].now < m'.lastCheck + 5000)
            && m.lastCheck + 5000 * ProbeCount(m, ticks, n) <= m'.lastCheck
    decreases n
  {
    if n > 0 {
      LooksEveryFiveSeconds(m, ticks, n - 1, agent, group);
      IdentifiedTurn(Run(m, ticks, n - 1), ticks[n - 1], agent, group);
      hide Turn, Wake, Probes;
    }
  }

  // --- Looks that are owed, and looks that are not taken ---

  /**
   With a child process a turn looks at the foreground, hook authority or not, after a reset and while a reported exit
   is to be confirmed; without hook authority also once after a restore, and when a release ends with nothing identified.
   */
  lemma {:induction false} OwedLookIsTaken(m: Machine, t: Tick)
    requires t.hasChild
    requires || t.reset
             || m.pendingClear
             || (!t.lifecycle && m.pendingRestore)
             || (m.releaseWasActive && t.suppressed.None? && m.presence.current.None?)
             || (!m.hasProbe && m.presence.current.None?)
    ensures Probes(Wake(m, t), t) && Turn(m, t).lastCheck == t.now && !Turn(m, t).pendingRestore
  {
    assert Probes(Wake(m, t), t) by {
      hide Turn;
    }
    hide *;
    LookIsRemembered(m, t);
  }

  /** The schedule after a look is the probe's; the screen half of the turn leaves it alone. */
  lemma {:induction false} LookIsRemembered(m: Machine, t: Tick)
    requires Probes(Wake(m, t), t)
    ensures var m' := Turn(m, t);
            m'.lastCheck == t.now && m'.hasProbe && !m'.pendingRestore
            && m'.lastGroup == GroupForChangeTracking(GroupOf(t), t.probe.group)
  {
    var woken := Wake(m, t);
    var acted := AfterAction(woken.(log := woken.log + [Look(t)]), t);
    hide *;
    TrackSchedules(woken, acted, t);
    AnnounceKeepsSchedule(woken.presence.current, Track(woken, acted, t), t.now);
    ScreenKeepsSchedule(woken, ProbeStep(woken, t), t);
    TurnHalves(m, t);
  }

  lemma {:induction false} TurnHalves(m: Machine, t: Tick)
    ensures var woken := Wake(m, t);
            && Turn(m, t) == ScreenStep(woken, ProbeStep(woken, t), t)
            && (Probes(woken, t) ==>
                  ProbeStep(woken, t)
                  == Announce(woken.presence.current, Track(woken, AfterAction(woken.(log := woken.log + [Look(t)]), t), t), t.now))
  {
    hide Wake, Probes, AfterAction, Track, Announce, ScreenStep;
  }

  lemma {:induction false} TrackSchedules(before: Machine, m: Machine, t: Tick)
    ensures var m' := Track(before, m, t);
            m'.lastCheck == t.now && m'.hasProbe && !m'.pendingRestore
            && m'.lastGroup == GroupForChangeTracking(GroupOf(t), t.probe.group)
  {
    hide FoundAgent, GroupForChangeTracking, GroupOf, ForegroundGroupChanged;
  }

  lemma {:induction false} AnnounceKeepsSchedule(previous: Option<Agent>, m: Machine, now: nat)
    ensures var m' := Announce(previous, m, now);
            m'.lastCheck == m.lastCheck && m'.hasProbe == m.hasProbe && m'.pendingRestore == m.pendingRestore
            && m'.lastGroup == m.lastGroup
  {
  }

  lemma {:induction false} ReadingKeepsSchedule(m: Machine, t: Tick, groupChanged: bool)
    ensures var m' := ReadAndPublish(m, t, groupChanged);
            m'.lastCheck == m.lastCheck && m'.hasProbe == m.hasProbe && m'.pendingRestore == m.pendingRestore
            && m'.lastGroup == m.lastGroup
  {
    hide ProcessExited, SyncAcquisition;
  }

  lemma {:induction false} ScreenKeepsSchedule(before: Machine, m: Machine, t: Tick)
    ensures var m' := ScreenStep(before, m, t);
            m'.lastCheck == m.lastCheck && m'.hasProbe == m.hasProbe && m'.pendingRestore == m.pendingRestore
            && m'.lastGroup == m.lastGroup
  {
    hide Probes, FoundAgent, ForegroundGroupChanged, GroupOf, ProcessExited, ReadAndPublish;
    ReadingKeepsSchedule(m.(graceUntil := None), t, ForegroundGroupChanged(GroupOf(t), before.lastGroup));
  }

  /** Under hook authority nothing is looked at, published or forgotten while the foreground group is as it was. */
  lemma {:induction false} HookAuthorityRests(m: Machine, t: Tick)
    requires t.lifecycle && !t.reset && t.hasChild && t.suppressed.None? && !m.releaseWasActive
    requires t.group.Some? && t.group == m.lastGroup && m.hasProbe && !m.pendingClear
    ensures Turn(m, t) == m
  {
  }

  /** While an agent is suppressed it is neither identified nor published, if it was not identified before. */
  lemma {:induction false} SuppressedStaysHidden(m: Machine, t: Tick, agent: Agent)
    requires t.suppressed == Some(agent) && m.presence.current != Some(agent)
    ensures Turn(m, t).presence.current != Some(agent)
    ensures m.log <= Turn(m, t).log
    ensures forall k | |m.log| <= k < |Turn(m, t).log| :: Turn(m, t).log[k].Published? ==> Turn(m, t).log[k].agent != Some(agent)
  {
    WakeLogs(m, t, agent);
    hide *;
    var woken := Wake(m, t);
    var probed := ProbeStep(woken, t);
    SuppressedProbe(woken, t, agent);
    ScreenAdds(woken, probed, t);
    TurnHalves(m, t);
    HiddenAmong(m, woken, probed, t, Turn(m, t).log, agent);
  }

  lemma {:induction false} WakeLogs(m: Machine, t: Tick, agent: Agent)
    requires m.presence.current != Some(agent)
    ensures var w := Wake(m, t);
            && w.presence.current != Some(agent) && m.log <= w.log
            && forall k | |m.log| <= k < |w.log| :: !w.log[k].Published?
  {
  }

  lemma {:induction false} HiddenAmong(m: Machine, w: Machine, p: Machine, t: Tick, after: seq<Entry>, agent: Agent)
    requires m.log <= w.log && forall k | |m.log| <= k < |w.log| :: !w.log[k].Published?
    requires w.log <= p.log && forall k | |w.log| <= k < |p.log| :: p.log[k].Published? ==> p.log[k].agent != Some(agent)
    requires p.presence.current != Some(agent) && FoundAgent(t) != Some(agent)
    requires after == p.log || (|after| == |p.log| + 1 && after[..|p.log|] == p.log && ScreenEntry(p, t, after[|p.log|]))
    ensures m.log <= after && forall k | |m.log| <= k < |after| :: after[k].Published? ==> after[k].agent != Some(agent)
  {
    hide FoundAgent;
    assert forall k | 0 <= k < |p.log| :: after[k] == p.log[k];
    assert forall k | 0 <= k < |w.log| :: after[k] == w.log[k];
  }

  lemma {:induction false} SuppressedProbe(m: Machine, t: Tick, agent: Agent)
    requires t.suppressed == Some(agent) && m.presence.current != Some(agent)
    ensures ProbeStep(m, t).presence.current != Some(agent) && m.log <= ProbeStep(m, t).log
    ensures forall k | |m.log| <= k < |ProbeStep(m, t).log| ::
              ProbeStep(m, t).log[k].Published? ==> ProbeStep(m, t).log[k].agent != Some(agent)
    ensures FoundAgent(t) != Some(agent)
  {
    assert FoundAgent(t) != Some(agent);
    hide Probes, FoundAgent, SyncAcquisition, ForegroundGroupChanged, GroupOf, GroupForChangeTracking;
    if Probes(m, t) {
      var acted := AfterAction(m.(log := m.log + [Look(t)]), t);
      assert acted.presence.current != Some(agent) && acted.log == m.log + [Look(t)];
      hide AfterAction;
      var tracked := Track(m, acted, t);
      assert tracked.presence == acted.presence && tracked.log == acted.log;
      hide Track;
      AnnounceLogs(m.presence.current, tracked, t.now, agent);
    }
  }

  lemma {:induction false} AnnounceLogs(previous: Option<Agent>, m: Machine, now: nat, agent: Agent)
    requires m.presence.current != Some(agent)
    ensures var m' := Announce(previous, m, now);
            && m'.presence == m.presence && m.log <= m'.log
            && forall k | |m.log| <= k < |m'.log| :: m'.log[k].Published? ==> m'.log[k].agent != Some(agent)
  {
  }

  /** Without a foreground group and with nothing identified a look is taken every thirty seconds. */
  lemma {:induction false} LooksWithoutAGroup(m: Machine, t: Tick)
    requires t.hasChild && !t.reset && t.suppressed.None? && t.group.None? && m.lastGroup.None?
    requires m.presence.current.None? && m.hasProbe && m.acquisition.startedAt.None?
    requires !m.pendingClear && !m.pendingRestore && !m.releaseWasActive && m.lastCheck <= t.now
    ensures Probes(Wake(m, t), t) <==> t.now - m.lastCheck >= 30000
  {
  }

  /** A look remembers the group it looked at, or the one observed when it does not know; none when none was observed. */
  lemma {:induction false} LookRemembersGroup(m: Machine, t: Tick)
    requires Probes(Wake(m, t), t)
    ensures t.group.None? ==> Turn(m, t).lastGroup.None?
    ensures t.group.Some? && t.probe.group.Some? ==> Turn(m, t).lastGroup == t.probe.group
    ensures t.group.Some? && t.probe.group.None? ==> Turn(m, t).lastGroup == t.group
    ensures Turn(m, t).hasProbe && Turn(m, t).lastCheck == t.now
  {
    LookIsRemembered(m, t);
    assert t.hasChild && GroupOf(t) == t.group;
    hide Turn, Probes;
  }

  // --- Bounded acquisition probing ---

  /** A turn with nothing identified or suppressed, and the foreground group stable and as probed. */
  predicate Unidentified(t: Tick, group: nat) {
    && !t.reset && t.suppressed.None? && t.hasChild && t.group == Some(group)
    && t.probe.agent.None? && (t.probe.group == Some(group) || t.probe.group.None?)
  }

  predicate ReadsScreen(t: Tick) {
    !t.lifecycle && !t.paused && !t.skipScreen && !t.skipUpdate
  }

  predicate Changes(t: Tick) {
    ReadsScreen(t) && t.contentChanged
  }

  /** When output last changed before the n-th turn; `first` is when it had changed before them, if it had. */
  function LastChange(ticks: seq<Tick>, n: nat, first: Option<nat>): Option<nat>
    requires n <= |ticks|
  {
    if n == 0 then first
    else if Changes(ticks[n - 1]) then Some(ticks[n - 1].now)
    else LastChange(ticks, n - 1, first)
  }

  /** A turn that leaves a window alone: it is not over yet, the screen is not read, or output did not pause. */
  predicate HoldsWindow(t: Tick, openedAt: nat, last: Option<nat>) {
    || Since(t.now, openedAt) <= 8000
    || !ReadsScreen(t)
    || (if last.None? then !t.contentChanged else Since(t.now, last.value) < 2000)
  }

  /** Time moves forward, the group is stable, nothing is identified. */
  ghost predicate StaysUnidentified(ticks: seq<Tick>, group: nat, openedAt: nat) {
    && (forall i | 0 <= i < |ticks| :: Unidentified(ticks[i], group) && openedAt <= ticks[i].now)
    && (forall i, j | 0 <= i < j < |ticks| :: ticks[i].now <= ticks[j].now)
  }

  /** Once the window is over, output goes on without a pause of two seconds. */
  ghost predicate OutputFlows(ticks: seq<Tick>, openedAt: nat, first: Option<nat>) {
    forall i | 0 <= i < |ticks| :: HoldsWindow(ticks[i], openedAt, LastChange(ticks, i, first))
  }

  /** Nothing identified, and an acquisition window open; output had changed at `last`, if at all. */
  predicate WindowOpen(m: Machine, group: nat, openedAt: nat, last: Option<nat>) {
    && m.presence == Presence(None, 0) && m.hasProbe && m.lastGroup == Some(group)
    && m.acquisition == Acquisition(Some(openedAt), last)
    && !m.pendingClear && !m.pendingRestore && !m.releaseWasActive && m.graceUntil.None?
  }

  /** The first change of output while unidentified opens a window. */
  lemma {:induction false} ContentOpensWindow(m: Machine, t: Tick, group: nat)
    requires m.presence == Presence(None, 0) && m.hasProbe && m.lastGroup == Some(group)
    requires m.acquisition.startedAt.None? && !m.pendingClear && !m.pendingRestore && !m.releaseWasActive && m.graceUntil.None?
    requires Unidentified(t, group) && Changes(t)
    ensures WindowOpen(Turn(m, t), group, t.now, Some(t.now))
  {
    assert Wake(m, t) == m;
    assert !Probes(m, t);
  }

  /** Another foreground group, with nothing identified in it, is probed at once, and that opens a window anew. */
  lemma {:induction false} GroupChangeOpensWindow(m: Machine, t: Tick, group: nat)
    requires m.presence == Presence(None, 0) && m.hasProbe && m.lastGroup != Some(group)
    requires !m.releaseWasActive && m.graceUntil.None?
    requires Unidentified(t, group)
    ensures Probes(Wake(m, t), t) && Turn(m, t).lastCheck == t.now
    ensures WindowOpen(Turn(m, t), group, t.now, m.acquisition.lastChangeAt)
  {
    assert Wake(m, t) == m;
    assert ForegroundGroupChanged(GroupOf(t), m.lastGroup);
    NewGroupIsProbed(m, t, group);
    var probed := ProbeStep(m, t);
    hide ProbeStep, Wake, Probes, ForegroundGroupChanged, FoundAgent, SyncAcquisition;
    ScreenInWindow(m, probed, t, group, t.now, m.acquisition.lastChangeAt);
    assert Turn(m, t) == ScreenStep(m, probed, t);
    GroupChangeIsNoContent(t, probed.acquisition, probed.presence.current);
  }

  lemma {:induction false} GroupChangeIsNoContent(t: Tick, a: Acquisition, current: Option<Agent>)
    ensures SyncAcquisition(a, current, t.suppressed, true, t.contentChanged, t.now) == a
  {
  }

  /** The probe of another group, when it finds no agent. */
  lemma {:induction false} NewGroupIsProbed(m: Machine, t: Tick, group: nat)
    requires m.presence == Presence(None, 0) && m.hasProbe && m.lastGroup != Some(group)
    requires !m.releaseWasActive && m.graceUntil.None? && Unidentified(t, group)
    ensures Probes(m, t) && ProbeStep(m, t).lastCheck == t.now
    ensures WindowOpen(ProbeStep(m, t), group, t.now, m.acquisition.lastChangeAt)
  {
    assert ShouldProbe(InputOf(m, t)) && !SkipForLifecycleAuthority(t.lifecycle, InputOf(m, t));
    hide ShouldProbe, SkipForLifecycleAuthority;
    assert ProbeAction(m, t) == Observe;
    hide ForegroundShellAgentAction;
  }

  /** Reading the screen in an open window touches nothing but the two acquisition times. */
  lemma {:induction false} ScreenInWindow(before: Machine, m: Machine, t: Tick, group: nat, openedAt: nat, last: Option<nat>)
    requires WindowOpen(m, group, openedAt, last)
    ensures var r := ScreenStep(before, m, t);
            && r.presence == m.presence && r.hasProbe && r.lastGroup == m.lastGroup && r.lastCheck == m.lastCheck
            && !r.pendingClear && !r.pendingRestore && !r.releaseWasActive && r.graceUntil.None?
            && r.acquisition ==
                 if ReadsScreen(t)
                 then SyncAcquisition(m.acquisition, m.presence.current, t.suppressed,
                                      ForegroundGroupChanged(GroupOf(t), before.lastGroup), t.contentChanged, t.now)
                 else m.acquisition
  {
    hide SyncAcquisition, ForegroundGroupChanged, Probes, FoundAgent;
  }

  /** Probing in an open window, with no agent to be found, leaves it open; it happens on the two intervals. */
  lemma {:induction false} ProbeInWindow(m: Machine, t: Tick, group: nat, openedAt: nat, last: Option<nat>)
    requires WindowOpen(m, group, openedAt, last) && Unidentified(t, group) && openedAt <= t.now
    ensures WindowOpen(ProbeStep(m, t), group, openedAt, last)
    ensures ProbeStep(m, t).lastCheck == if Probes(m, t) then t.now else m.lastCheck
    ensures Probes(m, t) ==>
      && t.now - openedAt <= 8000
      && Since(t.now, m.lastCheck) >=
           (if t.now - openedAt <= 1500 then 500
            else 2000)
  {
    assert ShouldProbe(InputOf(m, t)) <==> AcquisitionDue(InputOf(m, t));
    hide ShouldProbe, SkipForLifecycleAuthority;
    assert ProbeAction(m, t) == Observe;
    hide ForegroundShellAgentAction;
  }

  /** What reading the screen does to an open window. */
  lemma {:induction false} SyncInWindow(t: Tick, openedAt: nat, last: Option<nat>)
    requires openedAt <= t.now && t.suppressed.None? && ReadsScreen(t)
    ensures var a := SyncAcquisition(Acquisition(Some(openedAt), last), None, t.suppressed, false, t.contentChanged, t.now);
            && (a.startedAt == Some(openedAt) <==> HoldsWindow(t, openedAt, last))
            && (HoldsWindow(t, openedAt, last) ==>
                  a == Acquisition(Some(openedAt), if Changes(t) then Some(t.now) else last))
  {
  }

  function ProbeCount(m: Machine, ticks: seq<Tick>, n: nat): nat
    requires n <= |ticks|
  {
    if n == 0 then 0
    else ProbeCount(m, ticks, n - 1) + (if Probes(Wake(Run(m, ticks, n - 1), ticks[n - 1]), ticks[n - 1]) then 1 else 0)
  }

  /** The earliest age of the window at which a probe can run when k - 1 ran before. */
  function EarliestAge(k: nat): nat {
    if k <= 1 then 0 else if k <= 4 then 500 * (k - 1) else 1500 + 2000 * (k - 4)
  }

  /** So many probes of this window have run, none earlier than the schedule allows. */
  predicate OnSchedule(m: Machine, openedAt: nat, count: nat) {
    count <= 7 && (count > 0 ==> m.lastCheck >= openedAt + EarliestAge(count))
  }

  /**
   One turn of an open window: the window stays as it was opened exactly when the turn holds it, and a
   probe runs only while it is not over, in the intervals of its two phases.
   */
  lemma {:induction false} TurnKeepsWindow(m: Machine, t: Tick, group: nat, openedAt: nat, last: Option<nat>)
    requires WindowOpen(m, group, openedAt, last) && Unidentified(t, group) && openedAt <= t.now
    ensures Turn(m, t).acquisition.startedAt == Some(openedAt) <==> HoldsWindow(t, openedAt, last)
    ensures HoldsWindow(t, openedAt, last) ==>
      WindowOpen(Turn(m, t), group, openedAt, if Changes(t) then Some(t.now) else last)
    ensures Wake(m, t) == m
    ensures Probes(m, t) ==>
      && Turn(m, t).lastCheck == t.now && t.now - openedAt <= 8000
      && Since(t.now, m.lastCheck) >=
           (if t.now - openedAt <= 1500 then 500
            else 2000)
    ensures !Probes(m, t) ==> Turn(m, t).lastCheck == m.lastCheck
  {
    assert Wake(m, t) == m && !ForegroundGroupChanged(GroupOf(t), m.lastGroup);
    hide ProbeStep, Wake, Probes, FoundAgent, SyncAcquisition, ForegroundGroupChanged, ScreenStep, HoldsWindow;
    ProbeInWindow(m, t, group, openedAt, last);
    ScreenInWindow(m, ProbeStep(m, t), t, group, openedAt, last);
    if ReadsScreen(t) {
      SyncInWindow(t, openedAt, last);
    } else {
      assert HoldsWindow(t, openedAt, last) by { NotReadHolds(t, openedAt, last); }
    }
  }

  lemma {:induction false} NotReadHolds(t: Tick, openedAt: nat, last: Option<nat>)
    requires !ReadsScreen(t)
    ensures HoldsWindow(t, openedAt, last)
  {
  }

  /** The spacing of probes: four at most in the fast phase, and no room for an eighth in the window. */
  lemma {:induction false} NextProbe(count: nat, lastCheck: nat, openedAt: nat, now: nat)
    requires count <= 7 && openedAt <= now <= openedAt + 8000
    requires count > 0 ==> lastCheck >= openedAt + EarliestAge(count)
    requires Since(now, lastCheck) >=
      (if now - openedAt <= 1500 then 500
       else 2000)
    ensures count < 7 && now >= openedAt + EarliestAge(count + 1)
  {
  }

  /** After n turns the window is as it was opened, and the probes of it are on schedule, those before included. */
  lemma {:induction false} WindowIsBounded(
    m: Machine, ticks: seq<Tick>, n: nat, group: nat, openedAt: nat, first: Option<nat>, already: nat)
    requires n <= |ticks| && WindowOpen(m, group, openedAt, first) && OnSchedule(m, openedAt, already)
    requires StaysUnidentified(ticks, group, openedAt) && OutputFlows(ticks, openedAt, first)
    ensures WindowOpen(Run(m, ticks, n), group, openedAt, LastChange(ticks, n, first))
    ensures OnSchedule(Run(m, ticks, n), openedAt, already + ProbeCount(m, ticks, n))
    decreases n
  {
    hide *;
    Unroll(m, ticks, n, first);
    if n > 0 {
      var before := Run(m, ticks, n - 1);
      var t := ticks[n - 1];
      WindowIsBounded(m, ticks, n - 1, group, openedAt, first, already);
      FlowAt(ticks, group, openedAt, first, n - 1);
      TurnKeepsWindow(before, t, group, openedAt, LastChange(ticks, n - 1, first));
      StaysOnSchedule(before, t, group, openedAt, LastChange(ticks, n - 1, first), already + ProbeCount(m, ticks, n - 1));
    }
  }

  lemma {:induction false} StaysOnSchedule(m: Machine, t: Tick, group: nat, openedAt: nat, last: Option<nat>, count: nat)
    requires WindowOpen(m, group, openedAt, last) && Unidentified(t, group) && openedAt <= t.now
    requires OnSchedule(m, openedAt, count)
    ensures OnSchedule(Turn(m, t), openedAt, count + (if Probes(m, t) then 1 else 0))
  {
    TurnKeepsWindow(m, t, group, openedAt, last);
    hide Turn, Probes, HoldsWindow, WindowOpen, Unidentified, Wake;
    if Probes(m, t) {
      NextProbe(count, m.lastCheck, openedAt, t.now);
    }
  }

  lemma {:induction false} Unroll(m: Machine, ticks: seq<Tick>, n: nat, first: Option<nat>)
    requires n <= |ticks|
    ensures n == 0 ==> Run(m, ticks, n) == m && ProbeCount(m, ticks, n) == 0 && LastChange(ticks, n, first) == first
    ensures n > 0 ==>
      var before, t := Run(m, ticks, n - 1), ticks[n - 1];
      && Run(m, ticks, n) == Turn(before, t)
      && ProbeCount(m, ticks, n) == ProbeCount(m, ticks, n - 1) + (if Probes(Wake(before, t), t) then 1 else 0)
      && LastChange(ticks, n, first) == if Changes(t) then Some(t.now) else LastChange(ticks, n - 1, first)
  {
    hide Turn, Wake, Probes, Changes;
  }

  lemma {:induction false} FlowAt(ticks: seq<Tick>, group: nat, openedAt: nat, first: Option<nat>, n: nat)
    requires StaysUnidentified(ticks, group, openedAt) && OutputFlows(ticks, openedAt, first) && n < |ticks|
    ensures Unidentified(ticks[n], group) && openedAt <= ticks[n].now
    ensures HoldsWindow(ticks[n], openedAt, LastChange(ticks, n, first))
  {
    hide Unidentified, HoldsWindow;
  }

  /**
   However a window was opened, and however long output goes on without a pause once it is over, it is never
   restarted, and at most seven probes run in it, those that had run when it is looked at first included.
   */
  lemma {:induction false} AtMostSevenProbes(
    m: Machine, ticks: seq<Tick>, group: nat, openedAt: nat, first: Option<nat>, already: nat)
    requires WindowOpen(m, group, openedAt, first) && OnSchedule(m, openedAt, already)
    requires StaysUnidentified(ticks, group, openedAt) && OutputFlows(ticks, openedAt, first)
    ensures already + ProbeCount(m, ticks, |ticks|) <= 7
    ensures forall n | 0 <= n <= |ticks| :: Run(m, ticks, n).acquisition.startedAt == Some(openedAt)
  {
    hide Run, ProbeCount, StaysUnidentified, OutputFlows, LastChange;
    forall n | 0 <= n <= |ticks| ensures Run(m, ticks, n).acquisition.startedAt == Some(openedAt) {
      WindowIsBounded(m, ticks, n, group, openedAt, first, already);
    }
    WindowIsBounded(m, ticks, |ticks|, group, openedAt, first, already);
  }

  /** A window opened by a change of the foreground group: its opening probe and at most six more. */
  lemma {:induction false} GroupChangeAllowsSixMore(m: Machine, t: Tick, ticks: seq<Tick>, group: nat)
    requires m.presence == Presence(None, 0) && m.hasProbe && m.lastGroup != Some(group)
    requires !m.releaseWasActive && m.graceUntil.None? && Unidentified(t, group)
    requires StaysUnidentified(ticks, group, t.now) && OutputFlows(ticks, t.now, m.acquisition.lastChangeAt)
    ensures Probes(Wake(m, t), t) && ProbeCount(Turn(m, t), ticks, |ticks|) <= 6
  {
    GroupChangeOpensWindow(m, t, group);
    hide Turn, Wake, Probes, WindowOpen, StaysUnidentified, OutputFlows, ProbeCount;
    AtMostSevenProbes(Turn(m, t), ticks, group, t.now, m.acquisition.lastChangeAt, 1);
  }
}
