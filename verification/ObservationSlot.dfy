/**
 The shared slot that keeps the newest foreground observation, and the list of exits not yet
 acknowledged. Both are written from concurrent places, so what they end up holding must not
 depend on the interleaving.
 */
module ObservationSlot {
  import opened Common

  type Agent = nat

  datatype Observation = Observation(agent: Option<Agent>, at: nat)

  /** `record_process_observation`. */
  function Record(slot: Option<Observation>, o: Observation): Option<Observation> {
    if slot.None? || slot.value.at < o.at then Some(o)
    else if slot.value.at > o.at then slot
    else if slot.value.agent != o.agent then Some(slot.value.(agent := None))
    else slot
  }

  function RecordAll(os: seq<Observation>): Option<Observation> {
    if os == [] then None else Record(RecordAll(os[..|os| - 1]), os[|os| - 1])
  }

  /** The newest time, and an agent only when everything seen at that time agrees on it. */
  ghost predicate Newest(slot: Observation, os: seq<Observation>) {
    && (exists o :: o in os && o.at == slot.at)
    && (forall o | o in os :: o.at <= slot.at)
    && (forall a :: slot.agent == Some(a) <==> forall o | o in os && o.at == slot.at :: o.agent == Some(a))
  }

  /** Whatever order observations arrive in, the slot ends at the newest of them. */
  lemma {:induction false} SlotIsNewest(os: seq<Observation>)
    requires os != []
    ensures RecordAll(os).Some? && Newest(RecordAll(os).value, os)
    decreases |os|
  {
    var before, o := os[..|os| - 1], os[|os| - 1];
    assert forall x :: x in os <==> x in before || x == o;
    if before == [] {
      assert os == [o];
      assert RecordAll(os) == Some(o);
      assert o in os;
    } else {
      SlotIsNewest(before);
      var old' := RecordAll(before).value;
      var now := RecordAll(os).value;
      var w :| w in before && w.at == old'.at;
      forall a ensures now.agent == Some(a) <==> forall x | x in os && x.at == now.at :: x.agent == Some(a) {
        if o.at == old'.at {
          assert old'.agent == Some(a) <==> forall x | x in before && x.at == old'.at :: x.agent == Some(a);
        }
      }
      assert (if o.at > old'.at then o else w) in os;
    }
  }

  lemma {:induction false} NewestIsUnique(a: Observation, b: Observation, os: seq<Observation>)
    requires Newest(a, os) && Newest(b, os)
    ensures a == b
  {
    if a.agent.Some? {
      assert b.agent == Some(a.agent.value);
    }
    if b.agent.Some? {
      assert a.agent == Some(b.agent.value);
    }
  }

  /** Any interleaving of the same observations leaves the same slot. */
  lemma {:induction false} OrderDoesNotMatter(os: seq<Observation>, other: seq<Observation>)
    requires multiset(os) == multiset(other)
    ensures RecordAll(os) == RecordAll(other)
  {
    assert forall o :: o in os <==> o in multiset(os);
    assert forall o :: o in other <==> o in multiset(other);
    assert |os| == |multiset(os)| && |other| == |multiset(other)|;
    if os != [] {
      SlotIsNewest(os);
      SlotIsNewest(other);
      assert Newest(RecordAll(other).value, os);
      NewestIsUnique(RecordAll(os).value, RecordAll(other).value, os);
    }
  }

  /** An agent in the slot was seen: the slot is one of the observations. */
  lemma {:induction false} SeenWhenPositive(os: seq<Observation>) returns (i: nat)
    requires RecordAll(os).Some? && RecordAll(os).value.agent.Some?
    ensures i < |os| && os[i] == RecordAll(os).value
  {
    SlotIsNewest(os);
    hide RecordAll;
    var slot := RecordAll(os).value;
    var w :| w in os && w.at == slot.at;
    assert w.agent == Some(slot.agent.value);
    i :| 0 <= i < |os| && os[i] == w;
  }

  /**
   Once an exit, a release or a reset was recorded at some time, the slot names an agent only if a
   strictly newer probe found it: a probe captured no later never brings positive proof back.
   */
  lemma {:induction false} LossIsFinalUntilNewer(os: seq<Observation>, loss: Observation)
    requires loss in os && loss.agent.None?
    ensures RecordAll(os).Some? && (RecordAll(os).value.agent.Some? ==>
      RecordAll(os).value.at > loss.at && exists o :: o in os && o == RecordAll(os).value)
  {
    SlotIsNewest(os);
    hide RecordAll;
    if RecordAll(os).value.agent.Some? {
      var i := SeenWhenPositive(os);
    }
  }

  // --- Who writes ---

  /** A probe's answer with the foreground groups seen and probed, a published exit, or a release or reset. */
  datatype Writing =
    | Probe(native: Option<nat>, probed: Option<nat>, agent: Option<Agent>, at: nat)
    | Exit(agent: Option<Agent>, at: nat)
    | Drop(at: nat)

  /** `record_foreground_probe` keeps an agent only if the probe looked at the pane's own foreground group. */
  function Observed(w: Writing): Observation {
    match w
    case Probe(native, probed, agent, at) =>
      Observation(if native.Some? && native == probed then agent else None, at)
    case Exit(_, at) => Observation(None, at)
    case Drop(at) => Observation(None, at)
  }

  function AllObserved(ws: seq<Writing>): (os: seq<Observation>)
    ensures |os| == |ws| && forall i | 0 <= i < |ws| :: os[i] == Observed(ws[i])
  {
    if ws == [] then [] else AllObserved(ws[..|ws| - 1]) + [Observed(ws[|ws| - 1])]
  }

  /**
   However the writers interleave, the slot names an agent only on the word of a probe of the pane's
   own foreground group that is newer than every exit, release and reset.
   */
  lemma {:induction false} PositiveProofIsNewest(ws: seq<Writing>)
    requires RecordAll(AllObserved(ws)).Some? && RecordAll(AllObserved(ws)).value.agent.Some?
    ensures exists i :: 0 <= i < |ws| && Names(ws[i], RecordAll(AllObserved(ws)).value)
    ensures forall k | 0 <= k < |ws| && !ws[k].Probe? :: ws[k].at < RecordAll(AllObserved(ws)).value.at
  {
    PositiveProofOf(ws, AllObserved(ws));
  }

  lemma {:induction false} PositiveProofOf(ws: seq<Writing>, os: seq<Observation>)
    requires |os| == |ws| && forall i | 0 <= i < |ws| :: os[i] == Observed(ws[i])
    requires RecordAll(os).Some? && RecordAll(os).value.agent.Some?
    ensures exists i :: 0 <= i < |ws| && Names(ws[i], RecordAll(os).value)
    ensures forall k | 0 <= k < |ws| && !ws[k].Probe? :: ws[k].at < RecordAll(os).value.at
  {
    var seen := SeenWhenPositive(os);
    hide RecordAll;
    assert Names(ws[seen], RecordAll(os).value);
    forall k | 0 <= k < |ws| && !ws[k].Probe? ensures ws[k].at < RecordAll(os).value.at {
      assert os[k] in os;
      LossIsFinalUntilNewer(os, os[k]);
    }
  }

  /** A probe of the pane's own foreground group that found what the slot says, when it says. */
  predicate Names(w: Writing, slot: Observation) {
    w.Probe? && w.at == slot.at && w.agent == slot.agent && w.native.Some? && w.native == w.probed
  }

  /** The agent a writing proves on its own word: only a probe of the pane's own foreground group proves one. */
  function Proven(w: Writing): Option<Agent> {
    if w.Probe? && w.native.Some? && w.probed == w.native then w.agent else None
  }

  /** Nothing else was written at the time of the writing, or later, but what proves the same agent. */
  ghost predicate Undisputed(ws: seq<Writing>, i: nat)
    requires i < |ws|
  {
    forall k | 0 <= k < |ws| :: ws[k].at < ws[i].at || (ws[k].at == ws[i].at && Proven(ws[k]) == Proven(ws[i]))
  }

  /**
   The slot names an agent if and only if some probe of the pane's own foreground group found that agent
   and is undisputed: everything else was written for an earlier time, or for the same with the same agent.
   */
  lemma {:induction false} SlotNamesUndisputed(ws: seq<Writing>, agent: Agent)
    ensures RecordAll(AllObserved(ws)).Some? && RecordAll(AllObserved(ws)).value.agent == Some(agent)
            <==> exists i :: 0 <= i < |ws| && Proven(ws[i]) == Some(agent) && Undisputed(ws, i)
  {
    var os := AllObserved(ws);
    if ws != [] {
      ProvenAreObserved(ws, os);
      SlotIsNewest(os);
      SlotIsUndisputed(ws, os, RecordAll(os).value, agent);
    }
  }

  lemma {:induction false} ProvenAreObserved(ws: seq<Writing>, os: seq<Observation>)
    requires os == AllObserved(ws)
    ensures |os| == |ws| && forall i | 0 <= i < |ws| :: os[i].agent == Proven(ws[i]) && os[i].at == ws[i].at
  {
    assert forall i | 0 <= i < |ws| :: os[i] == Observed(ws[i]);
  }

  lemma {:induction false} SlotIsUndisputed(ws: seq<Writing>, os: seq<Observation>, slot: Observation, agent: Agent)
    requires |os| == |ws| && forall i | 0 <= i < |ws| :: os[i].agent == Proven(ws[i]) && os[i].at == ws[i].at
    requires Newest(slot, os)
    ensures slot.agent == Some(agent)
            <==> exists i :: 0 <= i < |ws| && Proven(ws[i]) == Some(agent) && Undisputed(ws, i)
  {
    hide Proven;
    var w :| w in os && w.at == slot.at;
    var at :| 0 <= at < |os| && os[at] == w;
    if slot.agent == Some(agent) {
      forall k | 0 <= k < |ws|
        ensures ws[k].at < ws[at].at || (ws[k].at == ws[at].at && Proven(ws[k]) == Proven(ws[at]))
      {
        assert os[k] in os;
      }
      assert Proven(ws[at]) == Some(agent) && Undisputed(ws, at);
    }
    if i :| 0 <= i < |ws| && Proven(ws[i]) == Some(agent) && Undisputed(ws, i) {
      assert os[i] in os;
      assert slot.at == ws[i].at;
      forall o | o in os && o.at == slot.at ensures o.agent == Some(agent) {
        var k :| 0 <= k < |os| && os[k] == o;
        assert ws[k].at == ws[i].at;
      }
    }
  }

  /** What the concurrent writers share: the slot, and the exits published and not yet acknowledged. */
  class SharedObservations {
    var current: Option<Observation>
    var pendingExits: seq<(Option<Agent>, nat)>
    ghost var written: seq<Writing>

    ghost predicate Valid()
      reads this
    {
      current == RecordAll(AllObserved(written))
    }

    constructor ()
      ensures Valid() && written == [] && pendingExits == []
    {
      current, pendingExits, written := None, [], [];
    }

    /** `record_process_observation`: one writer's turn under the lock. */
    method Write(agent: Option<Agent>, observedAt: nat, ghost writer: Writing)
      requires Valid() && Observed(writer) == Observation(agent, observedAt)
      modifies this`current, this`written
      ensures Valid() && written == old(written) + [writer]
    {
      if current.None? || current.value.at < observedAt {
        current := Some(Observation(agent, observedAt));
      } else if current.value.at == observedAt {
        if current.value.agent != agent {
          current := Some(current.value.(agent := None));
        }
      }
      written := written + [writer];
      assert written[..|written| - 1] == old(written);
    }

    method RecordForegroundProbe(native: Option<nat>, probed: Option<nat>, agent: Option<Agent>, observedAt: nat)
      requires Valid()
      modifies this
      ensures Valid() && written == old(written) + [Probe(native, probed, agent, observedAt)]
      ensures pendingExits == old(pendingExits)
    {
      var nativeAgent := if native.Some? && native == probed then agent else None;
      Write(nativeAgent, observedAt, Probe(native, probed, agent, observedAt));
    }

    /** The part of `publish_state_changed_event` that comes before the queue. */
    method BeforePublishing(agent: Option<Agent>, exited: bool, observedAt: nat)
      requires Valid()
      modifies this
      ensures Valid()
      ensures written == old(written) + (if exited then [Exit(agent, observedAt)] else [])
      ensures pendingExits == old(pendingExits) + (if exited then [(agent, observedAt)] else [])
    {
      if exited {
        Write(None, observedAt, Exit(agent, observedAt));
        pendingExits := pendingExits + [(agent, observedAt)];
      }
    }

    /** `begin_graceful_release` and `reset_agent_detection`, as far as the slot goes. */
    method DropProof(now: nat)
      requires Valid()
      modifies this
      ensures Valid() && written == old(written) + [Drop(now)] && pendingExits == old(pendingExits)
    {
      Write(None, now, Drop(now));
    }

    /** `acknowledge_process_exit`: removes one matching entry, the oldest, and nothing else. */
    method Acknowledge(agent: Option<Agent>, observedAt: nat)
      modifies this`pendingExits
      ensures multiset(pendingExits) == multiset(old(pendingExits)) - multiset{(agent, observedAt)}
      ensures (agent, observedAt) !in old(pendingExits) ==> pendingExits == old(pendingExits)
      ensures (agent, observedAt) in old(pendingExits) ==>
        exists i :: 0 <= i < |old(pendingExits)| && old(pendingExits)[i] == (agent, observedAt)
          && (agent, observedAt) !in old(pendingExits)[..i]
          && pendingExits == old(pendingExits)[..i] + old(pendingExits)[i + 1..]
    {
      var i := 0;
      while i < |pendingExits|
        invariant 0 <= i <= |pendingExits| && pendingExits == old(pendingExits)
        invariant (agent, observedAt) !in pendingExits[..i]
      {
        if pendingExits[i] == (agent, observedAt) {
          assert pendingExits == pendingExits[..i] + [pendingExits[i]] + pendingExits[i + 1..];
          pendingExits := pendingExits[..i] + pendingExits[i + 1..];
          return;
        }
        assert pendingExits[..i + 1] == pendingExits[..i] + [pendingExits[i]];
        i := i + 1;
      }
      assert pendingExits[..i] == pendingExits;
    }
  }
}
