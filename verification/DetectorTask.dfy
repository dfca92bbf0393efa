/** The detector loop with its local variables, assigned turn by turn. */
module DetectorTask {
  import opened Common
  import opened Detector

  class Detection {
    var presence: Presence
    var lastCheck: nat
    var lastGroup: Option<nat>
    var hasProbe: bool
    var acquisitionStartedAt: Option<nat>
    var lastContentChangeAt: Option<nat>
    var pendingClear: bool
    var exitReported: bool
    var releaseWasActive: bool
    var pendingRestore: bool
    var graceUntil: Option<nat>
    ghost var log: seq<Entry>

    ghost function State(): Machine
      reads this
    {
      Machine(presence, lastCheck, lastGroup, hasProbe, Acquisition(acquisitionStartedAt, lastContentChangeAt),
              pendingClear, exitReported, releaseWasActive, pendingRestore, graceUntil, log)
    }

    constructor (restored: Option<Agent>, now: nat)
      ensures State() == Start(restored, now)
    {
      presence, lastCheck, lastGroup, hasProbe := Presence(restored, 0), now, None, false;
      acquisitionStartedAt, lastContentChangeAt := None, None;
      pendingClear, exitReported, releaseWasActive, pendingRestore := false, false, false, restored.Some?;
      graceUntil, log := None, [];
    }

    method WakeUp(t: Tick)
      modifies this
      ensures State() == Wake(old(State()), t)
    {
      if t.reset {
        presence := Presence(None, 0);
        lastGroup, hasProbe := None, false;
        acquisitionStartedAt, lastContentChangeAt := None, None;
        pendingClear, exitReported, releaseWasActive, pendingRestore := false, false, false, false;
        graceUntil := None;
        log := log + [WasReset];
      }
      if t.suppressed.None? && releaseWasActive {
        hasProbe := false;
        acquisitionStartedAt, lastContentChangeAt := None, None;
      }
      releaseWasActive := t.suppressed.Some?;
    }

    /** `sync_content_change_acquisition` on the two time variables it is given. */
    method SyncContentChange(suppressed: Option<Agent>, groupChanged: bool, contentChanged: bool, now: nat)
      modifies this`acquisitionStartedAt, this`lastContentChangeAt
      ensures Acquisition(acquisitionStartedAt, lastContentChangeAt) ==
        SyncAcquisition(Acquisition(old(acquisitionStartedAt), old(lastContentChangeAt)),
                        presence.current, suppressed, groupChanged, contentChanged, now)
    {
      if presence.current.Some? || suppressed.Some? || groupChanged {
        return;
      }
      if contentChanged {
        if acquisitionStartedAt.None?
          || (Since(now, acquisitionStartedAt.value) > PROCESS_ACQUISITION_WINDOW
              && (lastContentChangeAt.None? || Since(now, lastContentChangeAt.value) >= PROCESS_ACQUISITION_IDLE_RESET)) {
          acquisitionStartedAt := Some(now);
        }
        lastContentChangeAt := Some(now);
        return;
      }
      if acquisitionStartedAt.None? || lastContentChangeAt.None? {
        return;
      }
      if Since(now, acquisitionStartedAt.value) > PROCESS_ACQUISITION_WINDOW
        && Since(now, lastContentChangeAt.value) >= PROCESS_ACQUISITION_IDLE_RESET {
        acquisitionStartedAt, lastContentChangeAt := None, None;
      }
    }

    /** What the probe's answer does to the presence and the exit flags. */
    method Act(t: Tick, found: Option<Agent>)
      requires found == FoundAgent(t)
      modifies this
      ensures State() == AfterAction(old(State()).(log := old(log) + [Look(t)]), t)
    {
      log := log + [Probed(found, t.probe.foregroundIsShell)];
      match ForegroundShellAgentAction(presence.current, found, t.probe.foregroundIsShell, exitReported) {
        case ReportProcessExit =>
          pendingClear := true;
        case ClearAgent =>
          pendingClear, exitReported := false, false;
          presence := ClearCurrent(presence);
        case Observe =>
          pendingClear, exitReported := false, false;
          presence := ObserveProbe(presence, found);
      }
    }

    method Remember(t: Tick, found: Option<Agent>, groupChanged: bool, ghost before: Machine)
      requires found == FoundAgent(t) && groupChanged == ForegroundGroupChanged(GroupOf(t), before.lastGroup)
      requires hasProbe == before.hasProbe
      modifies this
      ensures State() == Track(before, old(State()), t)
    {
      var hadProbe := hasProbe;
      lastCheck, hasProbe, pendingRestore := t.now, true, false;
      lastGroup := GroupForChangeTracking(if t.hasChild then t.group else None, t.probe.group);
      if found.Some? {
        acquisitionStartedAt, lastContentChangeAt := None, None;
      } else if presence.current.None? && hadProbe && groupChanged {
        acquisitionStartedAt := Some(t.now);
      }
    }

    method AnnounceChange(previous: Option<Agent>, now: nat) returns (changed: bool)
      modifies this
      ensures State() == Announce(previous, old(State()), now)
      ensures changed <==> presence.current != previous
    {
      changed := presence.current != previous;
      if changed {
        if presence.current.Some? {
          graceUntil := Some(now + AGENT_STARTUP_GRACE_WINDOW);
          log := log + [Published(presence.current, false)];
        } else {
          graceUntil := None;
        }
      }
    }

    /** The probing half of a turn; reports what it found and whether the identity changed. */
    method ProbeForeground(t: Tick) returns (found: Option<Agent>, changed: bool)
      modifies this
      ensures State() == ProbeStep(old(State()), t)
      ensures found == if Probes(old(State()), t) then FoundAgent(t) else None
      ensures changed <==> presence.current != old(presence.current)
    {
      hide AfterAction, Track, Announce, ShouldProbe, SkipForLifecycleAuthority, FoundAgent, ForegroundGroupChanged;
      found, changed := None, false;
      ghost var before := State();
      var group := if t.hasChild then t.group else None;
      var groupChanged := ForegroundGroupChanged(group, lastGroup);
      var input := ProbeInput(
        presence.current, t.suppressed, group, lastGroup, hasProbe,
        if acquisitionStartedAt.Some? then Some(Since(t.now, acquisitionStartedAt.value)) else None,
        pendingClear, pendingRestore, Since(t.now, lastCheck));
      assert input == InputOf(before, t);
      if !t.hasChild || SkipForLifecycleAuthority(t.lifecycle, input) || !ShouldProbe(input) {
        return;
      }
      var previous := presence.current;
      found := FoundAgent(t);
      Act(t, found);
      ActKeepsSchedule(before.(log := before.log + [Look(t)]), t);
      Remember(t, found, groupChanged, before);
      ghost var tracked := State();
      changed := AnnounceChange(previous, t.now);
      AnnounceKeepsPresence(previous, tracked, t.now);
    }

    /** Reading the screen and publishing. */
    method ReadScreen(t: Tick, exited: bool, groupChanged: bool)
      requires exited == ProcessExited(State())
      modifies this
      ensures State() == ReadAndPublish(old(State()), t, groupChanged)
    {
      if (t.paused && !exited) || t.skipScreen {
        return;
      }
      if !t.paused {
        if t.skipUpdate {
          return;
        }
        SyncContentChange(t.suppressed, groupChanged, t.contentChanged, t.now);
      }
      hide SyncAcquisition;
      if t.publishes {
        if exited {
          exitReported := true;
        }
        log := log + [Published(presence.current, exited)];
      }
    }

    /** One turn of the loop. */
    method RunTurn(t: Tick)
      modifies this
      ensures State() == Turn(old(State()), t)
    {
      hide ProbeStep, Wake, Probes, FoundAgent, ForegroundGroupChanged, ReadAndPublish;
      WakeUp(t);
      var groupBefore := lastGroup;
      var found, changed := ProbeForeground(t);
      var exited := pendingClear && presence.current.Some? && !exitReported;
      if t.lifecycle && !exited {
        if found.Some? && !changed {
          log := log + [Published(found, false)];
        }
        return;
      }
      if graceUntil.Some? {
        if exited {
          graceUntil := None;
        } else {
          if t.now >= graceUntil.value {
            graceUntil := None;
          }
          return;
        }
      }
      ReadScreen(t, exited, ForegroundGroupChanged(if t.hasChild then t.group else None, groupBefore));
    }
  }

  lemma {:induction false} ActKeepsSchedule(m: Machine, t: Tick)
    ensures AfterAction(m, t).hasProbe == m.hasProbe
  {
  }

  lemma {:induction false} AnnounceKeepsPresence(previous: Option<Agent>, m: Machine, now: nat)
    ensures Announce(previous, m, now).presence == m.presence
  {
  }
}
