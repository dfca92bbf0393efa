/** Metadata tokens with deadlines, and the fence that refuses replayed report sequences. */
module MetadataTokens {
  import opened Common

  datatype Token = Token(value: string, expiresAt: Option<nat>)

  type Entries = map<string, Token>
  type Changes = map<string, Option<string>>

  /** What a patch leaves: given keys take the new value and deadline or go, the others stay. */
  function Patched(entries: Entries, patch: Changes, expiresAt: Option<nat>): Entries {
    map k | k in entries.Keys + patch.Keys && (k in patch ==> patch[k].Some?) ::
      if k in patch then Token(patch[k].value, expiresAt) else entries[k]
  }

  function Restrict(patch: Changes, keys: set<string>): Changes {
    map k | k in patch && k in keys :: patch[k]
  }

  /** Applying one more key of a patch. */
  lemma {:induction false} PatchedStep(entries: Entries, patch: Changes, keys: set<string>, k: string, expiresAt: Option<nat>)
    requires k in patch && k !in keys && keys <= patch.Keys
    ensures var before := Patched(entries, Restrict(patch, keys), expiresAt);
            var after := Patched(entries, Restrict(patch, keys + {k}), expiresAt);
            && after == (if patch[k].Some? then before[k := Token(patch[k].value, expiresAt)] else before - {k})
            && (k in before <==> k in entries) && (k in entries ==> before[k] == entries[k])
  {
    var before := Patched(entries, Restrict(patch, keys), expiresAt);
    var after := Patched(entries, Restrict(patch, keys + {k}), expiresAt);
    var next := if patch[k].Some? then before[k := Token(patch[k].value, expiresAt)] else before - {k};
    assert after.Keys == next.Keys;
  }

  function Live(entries: Entries, now: nat): Entries {
    map k | k in entries && (entries[k].expiresAt.Some? ==> entries[k].expiresAt.value > now) :: entries[k]
  }

  /** The earliest deadline there is. */
  ghost predicate IsNextExpiry(entries: Entries, next: Option<nat>) {
    match next
    case None => forall k | k in entries :: entries[k].expiresAt.None?
    case Some(t) =>
      && (exists k :: k in entries && entries[k].expiresAt == Some(t))
      && (forall k | k in entries && entries[k].expiresAt.Some? :: t <= entries[k].expiresAt.value)
  }

  /** Nothing expires before the next deadline, and something does at it. */
  lemma {:induction false} ExpiryIsDue(entries: Entries, next: Option<nat>, now: nat)
    requires IsNextExpiry(entries, next)
    ensures Live(entries, now) == entries <==> next.None? || now < next.value
    ensures forall later: nat :: IsNextExpiry(Live(entries, now), Some(later)) ==> later > now
  {
    if next.Some? && now >= next.value {
      var k :| k in entries && entries[k].expiresAt == next;
      assert k !in Live(entries, now);
    }
    if next.None? || now < next.value {
      assert Live(entries, now) == entries;
    }
  }

  class MetadataTokenStore {
    var entries: Entries

    constructor ()
      ensures entries == map[]
    {
      entries := map[];
    }

    /**
     `patch`: the result does not depend on the order the patch is visited in, and the answer says
     exactly whether any value or deadline changed. `horizon` is the last time the clock can name.
     */
    method Patch(patch: Changes, ttl: Option<nat>, now: nat, horizon: nat) returns (changed: bool)
      modifies this
      ensures var expiresAt := if ttl.Some? && now + ttl.value <= horizon then Some(now + ttl.value) else None;
              entries == Patched(old(entries), patch, expiresAt)
      ensures changed <==> entries != old(entries)
    {
      var expiresAt := if ttl.Some? && now + ttl.value <= horizon then Some(now + ttl.value) else None;
      changed := false;
      var rest := patch.Keys;
      assert Patched(entries, Restrict(patch, {}), expiresAt) == entries;
      while rest != {}
        invariant rest <= patch.Keys
        invariant entries == Patched(old(entries), Restrict(patch, patch.Keys - rest), expiresAt)
        invariant changed <==> entries != old(entries)
        invariant forall k | k in rest :: k in entries <==> k in old(entries)
        invariant forall k | k in rest && k in entries :: entries[k] == old(entries)[k]
        decreases rest
      {
        var k :| k in rest;
        PatchedStep(old(entries), patch, patch.Keys - rest, k, expiresAt);
        assert patch.Keys - (rest - {k}) == patch.Keys - rest + {k};
        ghost var before := entries;
        if patch[k].Some? {
          var token := Token(patch[k].value, expiresAt);
          if !(k in entries && entries[k] == token) {
            entries := entries[k := token];
            changed := true;
            assert k in entries && !(k in old(entries) && entries[k] == old(entries)[k]);
          }
        } else {
          if k in entries {
            changed := true;
            assert k in old(entries);
          }
          entries := entries - {k};
        }
        rest := rest - {k};
      }
      assert patch.Keys - rest == patch.Keys && Restrict(patch, patch.Keys) == patch;
    }

    /** `key_count_after_patch`: the number of keys there would be, without patching. */
    method KeyCountAfterPatch(patch: Changes) returns (count: nat)
      ensures forall expiresAt :: count == |Patched(entries, patch, expiresAt)|
    {
      var keys := entries.Keys;
      var rest := patch.Keys;
      while rest != {}
        invariant rest <= patch.Keys
        invariant forall k :: k in keys <==>
          if k in patch && k !in rest then patch[k].Some? else k in entries
        decreases rest
      {
        var k :| k in rest;
        if patch[k].Some? {
          keys := keys + {k};
        } else {
          keys := keys - {k};
        }
        rest := rest - {k};
      }
      count := |keys|;
      forall expiresAt ensures count == |Patched(entries, patch, expiresAt)| {
        var after := Patched(entries, patch, expiresAt);
        assert after.Keys == keys;
        assert |after| == |after.Keys|;
      }
    }

    /** `expire_at`: what is due goes, everything left is due strictly later. */
    method ExpireAt(now: nat) returns (changed: bool)
      modifies this
      ensures entries == Live(old(entries), now)
      ensures changed <==> entries != old(entries)
      ensures forall k | k in entries && entries[k].expiresAt.Some? :: entries[k].expiresAt.value > now
      ensures forall k | k in old(entries) && k !in entries ::
        old(entries)[k].expiresAt.Some? && old(entries)[k].expiresAt.value <= now
    {
      var before := |entries|;
      ghost var was := entries;
      entries := Live(entries, now);
      changed := |entries| != before;
      assert entries.Keys <= was.Keys;
      SubmapSize(entries, was);
    }

    /** `next_expiry`. */
    method NextExpiry() returns (next: Option<nat>)
      ensures IsNextExpiry(entries, next)
    {
      next := None;
      var rest := entries.Keys;
      while rest != {}
        invariant rest <= entries.Keys
        invariant next.None? ==> forall k | k in entries && k !in rest :: entries[k].expiresAt.None?
        invariant next.Some? ==>
          && (exists k :: k in entries && entries[k].expiresAt == next)
          && (forall k | k in entries && k !in rest && entries[k].expiresAt.Some? :: next.value <= entries[k].expiresAt.value)
        decreases rest
      {
        var k :| k in rest;
        var deadline := entries[k].expiresAt;
        if deadline.Some? && (next.None? || deadline.value < next.value) {
          next := deadline;
        }
        rest := rest - {k};
      }
    }
  }

  lemma {:induction false} SubmapSize(a: Entries, b: Entries)
    requires a.Keys <= b.Keys && forall k | k in a :: a[k] == b[k]
    ensures |a| == |b| <==> a == b
  {
    assert |a| == |a.Keys| && |b| == |b.Keys|;
    if |a| == |b| {
      if a.Keys != b.Keys {
        SmallerSize(a.Keys, b.Keys);
      }
    }
  }

  // --- The replay fence ---

  const MAX_SEQUENCE_SOURCES: nat := 32

  datatype Verdict = Accepted | Stale | Full

  /** `sequence_is_fresh`. */
  predicate IsFresh(sequences: map<string, nat>, source: string, seq_: Option<nat>) {
    seq_.None? || source !in sequences || seq_.value > sequences[source]
  }

  /** `accept_sequence`: the new table and the verdict. */
  function Accept(sequences: map<string, nat>, source: string, seq_: Option<nat>): (map<string, nat>, Verdict) {
    if seq_.None? then (sequences, Accepted)
    else if !IsFresh(sequences, source, seq_) then (sequences, Stale)
    else if source !in sequences && |sequences| >= MAX_SEQUENCE_SOURCES then (sequences, Full)
    else (sequences[source := seq_.value], Accepted)
  }

  class ReplayFence {
    var sequences: map<string, nat>

    constructor ()
      ensures sequences == map[]
    {
      sequences := map[];
    }

    method AcceptSequence(source: string, seq_: Option<nat>) returns (verdict: Verdict)
      modifies this
      ensures (sequences, verdict) == Accept(old(sequences), source, seq_)
      ensures !verdict.Accepted? ==> sequences == old(sequences)
    {
      if seq_.None? {
        return Accepted;
      }
      if !IsFresh(sequences, source, seq_) {
        return Stale;
      }
      if source !in sequences && |sequences| >= MAX_SEQUENCE_SOURCES {
        return Full;
      }
      sequences := sequences[source := seq_.value];
      verdict := Accepted;
    }
  }

  lemma {:induction false} AcceptSize(table: map<string, nat>, source: string, number: Option<nat>)
    requires |table| <= MAX_SEQUENCE_SOURCES
    ensures |Accept(table, source, number).0| <= MAX_SEQUENCE_SOURCES
  {
    if number.Some? {
      var next := table[source := number.value];
      assert next.Keys == table.Keys + {source};
      assert |next| == |next.Keys| && |table| == |table.Keys|;
      if source in table {
        assert next.Keys == table.Keys;
      }
    }
  }

  datatype Report = Report(source: string, number: Option<nat>)

  function TableAfter(reports: seq<Report>, n: nat): map<string, nat>
    requires n <= |reports|
  {
    if n == 0 then map[] else Accept(TableAfter(reports, n - 1), reports[n - 1].source, reports[n - 1].number).0
  }

  predicate AcceptedAt(reports: seq<Report>, i: nat)
    requires i < |reports|
  {
    reports[i].number.Some? && Accept(TableAfter(reports, i), reports[i].source, reports[i].number).1.Accepted?
  }

  /** The table never names more than 32 sources. */
  lemma {:induction false} AtMost32Sources(reports: seq<Report>, n: nat)
    requires n <= |reports|
    ensures |TableAfter(reports, n)| <= MAX_SEQUENCE_SOURCES
    decreases n
  {
    if n > 0 {
      AtMost32Sources(reports, n - 1);
      var table, source := TableAfter(reports, n - 1), reports[n - 1].source;
      AcceptSize(table, source, reports[n - 1].number);
    }
  }

  /** No number was accepted from this report's source after it. */
  ghost predicate IsLastAccepted(reports: seq<Report>, n: nat, i: nat)
    requires i < n <= |reports|
  {
    forall j | i < j < n && AcceptedAt(reports, j) :: reports[j].source != reports[i].source
  }

  /** The table holds the number of each source that was accepted last, which is the largest accepted. */
  lemma {:induction false} TableIsLastAccepted(reports: seq<Report>, n: nat, i: nat)
    requires i < n <= |reports| && AcceptedAt(reports, i)
    ensures reports[i].source in TableAfter(reports, n)
    ensures TableAfter(reports, n)[reports[i].source] >= reports[i].number.value
    ensures TableAfter(reports, n)[reports[i].source] == reports[i].number.value <==> IsLastAccepted(reports, n, i)
    decreases n
  {
    if i < n - 1 {
      TableIsLastAccepted(reports, n - 1, i);
      assert IsLastAccepted(reports, n, i) <==>
        IsLastAccepted(reports, n - 1, i) && (AcceptedAt(reports, n - 1) ==> reports[n - 1].source != reports[i].source);
    }
  }

  /** The table names no source but those a number was accepted from. */
  lemma {:induction false} TableNamesAccepted(reports: seq<Report>, n: nat, source: string)
    requires n <= |reports| && source in TableAfter(reports, n)
    ensures exists i :: 0 <= i < n && AcceptedAt(reports, i) && reports[i].source == source
    decreases n
  {
    if source in TableAfter(reports, n - 1) {
      TableNamesAccepted(reports, n - 1, source);
    } else {
      assert AcceptedAt(reports, n - 1);
    }
  }

  /** Over any run of reports the accepted numbers of one source strictly increase. */
  lemma {:induction false} AcceptedNumbersIncrease(reports: seq<Report>, i: nat, j: nat)
    requires i < j < |reports| && AcceptedAt(reports, i) && AcceptedAt(reports, j)
    requires reports[i].source == reports[j].source
    ensures reports[i].number.value < reports[j].number.value
  {
    TableIsLastAccepted(reports, j, i);
  }

  /** A number is refused as stale exactly when one at least as large was accepted from its source before. */
  lemma {:induction false} StaleMeansReplayed(reports: seq<Report>, n: nat, source: string, number: nat)
    requires n <= |reports|
    ensures !IsFresh(TableAfter(reports, n), source, Some(number)) <==>
            exists i :: 0 <= i < n && AcceptedAt(reports, i) && reports[i].source == source && reports[i].number.value >= number
    decreases n
  {
    if n > 0 {
      StaleMeansReplayed(reports, n - 1, source, number);
      var last := reports[n - 1];
      if AcceptedAt(reports, n - 1) && last.source == source {
        if number > last.number.value {
          forall i | 0 <= i < n && AcceptedAt(reports, i) && reports[i].source == source
            ensures reports[i].number.value < number
          {
            if i < n - 1 {
              AcceptedNumbersIncrease(reports, i, n - 1);
            }
          }
        }
      }
    }
  }

  /** The sources a number was accepted from. */
  ghost function AcceptedSources(reports: seq<Report>, n: nat): set<string>
    requires n <= |reports|
  {
    set i | 0 <= i < n && AcceptedAt(reports, i) :: reports[i].source
  }

  /** A number at least as large was accepted from the source. */
  ghost predicate AcceptedBefore(reports: seq<Report>, n: nat, source: string, number: nat)
    requires n <= |reports|
  {
    exists i :: 0 <= i < n && AcceptedAt(reports, i) && reports[i].source == source && reports[i].number.value >= number
  }

  lemma {:induction false} TableKeysAreAccepted(reports: seq<Report>, n: nat)
    requires n <= |reports|
    ensures TableAfter(reports, n).Keys == AcceptedSources(reports, n)
  {
    hide TableAfter, AcceptedAt;
    forall source | source in TableAfter(reports, n) ensures source in AcceptedSources(reports, n) {
      TableNamesAccepted(reports, n, source);
    }
    forall i | 0 <= i < n && AcceptedAt(reports, i) ensures reports[i].source in TableAfter(reports, n) {
      TableIsLastAccepted(reports, n, i);
    }
  }

  /**
   The verdict on a report after any others. A report without a number is always accepted and leaves
   the table alone. A number is stale exactly when one at least as large was accepted from its source,
   and finds the table full exactly when none was and 32 other sources had one accepted.
   */
  lemma {:induction false} VerdictIs(reports: seq<Report>, n: nat, source: string, number: Option<nat>)
    requires n <= |reports|
    ensures var (next, verdict) := Accept(TableAfter(reports, n), source, number);
            && (number.None? ==> verdict == Accepted && next == TableAfter(reports, n))
            && (verdict.Stale? <==> number.Some? && AcceptedBefore(reports, n, source, number.value))
            && (verdict.Full? <==>
                  number.Some? && source !in AcceptedSources(reports, n) && |AcceptedSources(reports, n)| == 32)
  {
    TableKeysAreAccepted(reports, n);
    AtMost32Sources(reports, n);
    if number.Some? {
      StaleMeansReplayed(reports, n, source, number.value);
    }
    var table := TableAfter(reports, n);
    assert |table| == |table.Keys|;
    hide TableAfter, AcceptedAt, AcceptedSources;
  }
}
