/**
 Rewriting a launch command so that it resumes a given session: default-deny scanners for the
 agents with an adapter, the laws they obey, and exactly when a rewrite can be rewritten again.
 */
module ResumeArgv {
  import opened Common

  type Argv = seq<string>

  predicate Dashed(tok: string) {
    tok != "" && tok[0] == '-'
  }

  function BeforeEquals(tok: string): string {
    if tok == "" || tok[0] == '=' then "" else [tok[0]] + BeforeEquals(tok[1..])
  }

  /** `tok` is the `--flag=value` form of one of the names. */
  predicate EqFormIn(tok: string, names: set<string>) {
    "--" <= tok && '=' in tok && BeforeEquals(tok) in names
  }

  /** Which flags of an agent select a session, and which are kept. */
  datatype Spec = Spec(
    boolSelectors: set<string>, valueSelectors: set<string>, canonicalSelector: string,
    boolAllow: set<string>, valueAllow: set<string>)

  const CLAUDE_SPEC: Spec := Spec(
    {"--continue", "-c"},
    {"--resume", "-r", "--session-id"},
    "--resume",
    {"--dangerously-skip-permissions", "--allow-dangerously-skip-permissions", "--fork-session", "--safe-mode"},
    {"--model", "--fallback-model", "--permission-mode", "--agent", "--effort"})

  const PI_SPEC: Spec := Spec(
    {"--continue", "-c", "--resume", "-r"},
    {"--session", "--session-id"},
    "--session",
    {"--no-tools", "-nt", "--no-builtin-tools", "-nbt", "--approve", "-a", "--no-approve", "-na", "--offline",
     "--no-extensions", "-ne", "--no-skills", "-ns", "--no-context-files", "-nc"},
    {"--provider", "--model", "--thinking", "--tools", "-t", "--exclude-tools", "-xt", "--models", "--mode"})

  /** What the laws need of a spec: flags look like flags, and the injected selector is one that takes a value. */
  ghost predicate SpecFits(spec: Spec) {
    && (forall f | f in spec.boolSelectors :: Dashed(f))
    && (forall f | f in spec.valueSelectors :: Dashed(f))
    && (forall f | f in spec.boolAllow :: Dashed(f))
    && (forall f | f in spec.valueAllow :: Dashed(f))
    && spec.canonicalSelector in spec.valueSelectors
    && spec.canonicalSelector !in spec.boolSelectors
    && spec.canonicalSelector != "--"
  }

  lemma {:induction false} ClaudeSpecFits()
    ensures SpecFits(CLAUDE_SPEC)
  {
    assert forall f | f in CLAUDE_SPEC.boolSelectors :: Dashed(f);
    assert forall f | f in CLAUDE_SPEC.valueSelectors :: Dashed(f);
    assert forall f | f in CLAUDE_SPEC.boolAllow :: Dashed(f);
    assert forall f | f in CLAUDE_SPEC.valueAllow :: Dashed(f);
    assert "--resume"[2] == 'r' && "--continue"[2] == 'c' && |"-c"| == 2 && |"--"| == 2 && |"--resume"| == 8;
  }

  lemma {:induction false} PiSpecFits()
    ensures SpecFits(PI_SPEC)
  {
    assert forall f | f in PI_SPEC.boolSelectors :: Dashed(f);
    assert forall f | f in PI_SPEC.valueSelectors :: Dashed(f);
    assert forall f | f in PI_SPEC.boolAllow :: Dashed(f);
    assert forall f | f in PI_SPEC.valueAllow :: Dashed(f);
    assert "--session"[2] == 's' && "--continue"[2] == 'c' && "--resume"[2] == 'r' && |"-c"| == 2 && |"--"| == 2 && |"-r"| == 2;
    assert |"--session"| == 9;
  }

  // --- Parsing a command line into what is kept and what selects a session ---

  datatype Item = Selector(tokens: Argv) | Kept(tokens: Argv)

  predicate IsSelectorToken(spec: Spec, tok: string) {
    tok in spec.boolSelectors || tok in spec.valueSelectors || EqFormIn(tok, spec.valueSelectors)
  }

  /** The item a command line starts with, by the same order of tests as the scanner; nothing when it is not understood. */
  function NextItem(spec: Spec, rest: Argv): (r: Option<Item>)
    requires rest != []
    ensures r.Some? ==> 0 < |r.value.tokens| <= |rest| && r.value.tokens == rest[..|r.value.tokens|]
  {
    var tok := rest[0];
    var plainNext := |rest| > 1 && !Dashed(rest[1]);
    if tok == "--" then None
    else if tok in spec.boolSelectors then Some(Selector([tok]))
    else if tok in spec.valueSelectors then Some(Selector(if plainNext then [tok, rest[1]] else [tok]))
    else if EqFormIn(tok, spec.valueSelectors) then Some(Selector([tok]))
    else if tok in spec.boolAllow then Some(Kept([tok]))
    else if tok in spec.valueAllow then if plainNext then Some(Kept([tok, rest[1]])) else None
    else if EqFormIn(tok, spec.valueAllow) then Some(Kept([tok]))
    else None
  }

  function Items(spec: Spec, rest: Argv): Option<seq<Item>>
    decreases |rest|
  {
    if rest == [] then Some([])
    else
      var item := NextItem(spec, rest);
      if item.None? then None
      else
        var tail := Items(spec, rest[|item.value.tokens|..]);
        if tail.None? then None else Some([item.value] + tail.value)
  }

  function Tokens(items: seq<Item>): Argv {
    if items == [] then [] else items[0].tokens + Tokens(items[1..])
  }

  function KeptOf(items: seq<Item>): Argv {
    if items == [] then []
    else (if items[0].Kept? then items[0].tokens else []) + KeptOf(items[1..])
  }

  /** What is kept before the first selector, or everything when there is none. */
  function KeptBefore(items: seq<Item>): Argv {
    if items == [] || items[0].Selector? then [] else items[0].tokens + KeptBefore(items[1..])
  }

  function KeptAfter(items: seq<Item>): Argv {
    if items == [] then []
    else if items[0].Selector? then KeptOf(items[1..])
    else KeptAfter(items[1..])
  }

  /** `rewrite_flag_selector_agent`: the selector of the new session takes the place of the first old one. */
  function RewriteFlags(argv0: string, rest: Argv, spec: Spec, value: string): Option<Argv> {
    var items := Items(spec, rest);
    if items.None? then None
    else Some([argv0] + KeptBefore(items.value) + [spec.canonicalSelector, value] + KeptAfter(items.value))
  }

  // --- The scanner ---

  lemma {:induction false} KeptSplits(items: seq<Item>)
    ensures KeptOf(items) == KeptBefore(items) + KeptAfter(items)
    decreases |items|
  {
    if items != [] && items[0].Kept? {
      KeptSplits(items[1..]);
    }
  }

  /** Where the scan stands: what it has kept so far and will keep is what the parse keeps. */
  ghost predicate Scanned(spec: Spec, rest: Argv, i: nat, kept: Argv, selectorPos: Option<nat>)
    requires i <= |rest|
  {
    && (selectorPos.Some? ==> selectorPos.value <= |kept|)
    && (Items(spec, rest).Some? <==> Items(spec, rest[i..]).Some?)
    && (Items(spec, rest).Some? ==>
          var all, left := Items(spec, rest).value, Items(spec, rest[i..]).value;
          if selectorPos.Some? then
            KeptBefore(all) == kept[..selectorPos.value] && KeptAfter(all) == kept[selectorPos.value..] + KeptOf(left)
          else KeptBefore(all) == kept + KeptBefore(left) && KeptAfter(all) == KeptAfter(left))
  }

  lemma {:induction false} ScanStarts(spec: Spec, rest: Argv)
    ensures Scanned(spec, rest, 0, [], None)
  {
    assert rest[0..] == rest;
  }

  lemma {:induction false} ScanAdvances(spec: Spec, rest: Argv, i: nat, kept: Argv, selectorPos: Option<nat>, item: Item)
    requires i < |rest| && Scanned(spec, rest, i, kept, selectorPos) && NextItem(spec, rest[i..]) == Some(item)
    ensures item.Selector? ==>
      Scanned(spec, rest, i + |item.tokens|, kept, if selectorPos.Some? then selectorPos else Some(|kept|))
    ensures item.Kept? ==> Scanned(spec, rest, i + |item.tokens|, kept + item.tokens, selectorPos)
  {
    hide *;
    StepKept(spec, rest[i..], item);
    var n := i + |item.tokens|;
    assert rest[i..][|item.tokens|..] == rest[n..];
    if item.Selector? {
      ScanPastSelector(spec, rest, i, n, kept, selectorPos);
    } else {
      ScanPastKept(spec, rest, i, n, kept, selectorPos, item.tokens);
    }
  }

  lemma {:induction false} ScanPastSelector(spec: Spec, rest: Argv, i: nat, n: nat, kept: Argv, selectorPos: Option<nat>)
    requires i < n <= |rest| && Scanned(spec, rest, i, kept, selectorPos)
    requires Items(spec, rest[i..]).Some? <==> Items(spec, rest[n..]).Some?
    requires Items(spec, rest[n..]).Some? ==>
      var left, tail := Items(spec, rest[i..]).value, Items(spec, rest[n..]).value;
      KeptOf(left) == [] + KeptOf(tail) && KeptBefore(left) == [] && KeptAfter(left) == KeptOf(tail)
    ensures Scanned(spec, rest, n, kept, if selectorPos.Some? then selectorPos else Some(|kept|))
  {
    hide *;
    ScannedMeans(spec, rest, i, kept, selectorPos);
    ScannedMeans(spec, rest, n, kept, if selectorPos.Some? then selectorPos else Some(|kept|));
    assert kept[..|kept|] == kept && kept[|kept|..] == [] && kept + [] == kept;
    if Items(spec, rest[n..]).Some? {
      NothingBefore(KeptOf(Items(spec, rest[n..]).value));
    }
  }

  lemma {:induction false} ScanPastKept(spec: Spec, rest: Argv, i: nat, n: nat, kept: Argv, selectorPos: Option<nat>, more: Argv)
    requires i < n <= |rest| && Scanned(spec, rest, i, kept, selectorPos)
    requires Items(spec, rest[i..]).Some? <==> Items(spec, rest[n..]).Some?
    requires Items(spec, rest[n..]).Some? ==>
      var left, tail := Items(spec, rest[i..]).value, Items(spec, rest[n..]).value;
      KeptOf(left) == more + KeptOf(tail) && KeptBefore(left) == more + KeptBefore(tail) && KeptAfter(left) == KeptAfter(tail)
    ensures Scanned(spec, rest, n, kept + more, selectorPos)
  {
    hide *;
    ScannedMeans(spec, rest, i, kept, selectorPos);
    ScannedMeans(spec, rest, n, kept + more, selectorPos);
    if Items(spec, rest[n..]).Some? {
      var tail := Items(spec, rest[n..]).value;
      if selectorPos.Some? {
        var at := selectorPos.value;
        assert (kept + more)[..at] == kept[..at] && (kept + more)[at..] == kept[at..] + more;
        assert kept[at..] + (more + KeptOf(tail)) == (kept[at..] + more) + KeptOf(tail);
      } else {
        assert (kept + more) + KeptBefore(tail) == kept + (more + KeptBefore(tail));
      }
    }
  }

  lemma {:induction false} ScannedMeans(spec: Spec, rest: Argv, i: nat, kept: Argv, selectorPos: Option<nat>)
    requires i <= |rest|
    ensures Scanned(spec, rest, i, kept, selectorPos) <==>
      && (selectorPos.Some? ==> selectorPos.value <= |kept|)
      && (Items(spec, rest).Some? <==> Items(spec, rest[i..]).Some?)
      && (Items(spec, rest).Some? ==>
            var all, left := Items(spec, rest).value, Items(spec, rest[i..]).value;
            if selectorPos.Some? then
              KeptBefore(all) == kept[..selectorPos.value] && KeptAfter(all) == kept[selectorPos.value..] + KeptOf(left)
            else KeptBefore(all) == kept + KeptBefore(left) && KeptAfter(all) == KeptAfter(left))
  {
  }

  lemma {:induction false} ScanEnds(argv0: string, rest: Argv, spec: Spec, value: string, kept: Argv, selectorPos: Option<nat>)
    requires Scanned(spec, rest, |rest|, kept, selectorPos)
    ensures var at := if selectorPos.Some? then selectorPos.value else |kept|;
            RewriteFlags(argv0, rest, spec, value)
            == Some([argv0] + kept[..at] + [spec.canonicalSelector, value] + kept[at..])
  {
    assert rest[|rest|..] == [];
    var none: seq<Item> := [];
    assert Items(spec, rest[|rest|..]) == Some(none) && KeptBefore(none) == KeptAfter(none) == KeptOf(none) == [];
    hide Items, KeptBefore, KeptAfter, KeptOf;
    assert kept[..|kept|] == kept && kept[|kept|..] == [] && kept + [] == kept;
    if selectorPos.Some? {
      assert kept[selectorPos.value..] + [] == kept[selectorPos.value..];
    }
  }

  lemma {:induction false} ScanRefuses(argv0: string, rest: Argv, spec: Spec, value: string, i: nat, kept: Argv, selectorPos: Option<nat>)
    requires i < |rest| && Scanned(spec, rest, i, kept, selectorPos) && NextItem(spec, rest[i..]).None?
    ensures RewriteFlags(argv0, rest, spec, value).None?
  {
    StepNone(spec, rest[i..]);
  }

  /** The index scan, against the parse. */
  method ScanFlags(argv0: string, rest: Argv, spec: Spec, value: string) returns (out: Option<Argv>)
    ensures out == RewriteFlags(argv0, rest, spec, value)
  {
    hide *;
    var kept: Argv := [];
    var selectorPos: Option<nat> := None;
    var i := 0;
    ScanStarts(spec, rest);
    while i < |rest|
      invariant 0 <= i <= |rest| && Scanned(spec, rest, i, kept, selectorPos)
      invariant selectorPos.Some? ==> selectorPos.value <= |kept|
    {
      var item := ReadItem(rest, i, spec);
      if item.None? {
        ScanRefuses(argv0, rest, spec, value, i, kept, selectorPos);
        return None;
      }
      ScanAdvances(spec, rest, i, kept, selectorPos, item.value);
      if item.value.Selector? {
        if selectorPos.None? {
          selectorPos := Some(|kept|);
        }
      } else {
        kept := kept + item.value.tokens;
      }
      i := i + |item.value.tokens|;
    }
    var at := if selectorPos.Some? then selectorPos.value else |kept|;
    ScanEnds(argv0, rest, spec, value, kept, selectorPos);
    out := Some([argv0] + kept[..at] + [spec.canonicalSelector, value] + kept[at..]);
  }

  lemma {:induction false} StepKept(spec: Spec, rest: Argv, item: Item)
    requires rest != [] && NextItem(spec, rest) == Some(item)
    ensures var tail := Items(spec, rest[|item.tokens|..]);
            && (Items(spec, rest).Some? <==> tail.Some?)
            && (tail.Some? ==>
                  var items := Items(spec, rest).value;
                  && items == [item] + tail.value && items[1..] == tail.value
                  && KeptOf(items) == (if item.Kept? then item.tokens else []) + KeptOf(tail.value)
                  && KeptBefore(items) == (if item.Kept? then item.tokens + KeptBefore(tail.value) else [])
                  && KeptAfter(items) == if item.Kept? then KeptAfter(tail.value) else KeptOf(tail.value))
  {
    hide NextItem;
  }

  /** One token of the scan and, when it takes one, its value. */
  method ReadItem(rest: Argv, i: nat, spec: Spec) returns (item: Option<Item>)
    requires i < |rest|
    ensures item == NextItem(spec, rest[i..])
  {
    var tok := rest[i];
    if tok == "--" {
      return None;
    } else if tok in spec.boolSelectors {
      return Some(Selector([tok]));
    } else if tok in spec.valueSelectors {
      if i + 1 < |rest| && !Dashed(rest[i + 1]) {
        return Some(Selector([tok, rest[i + 1]]));
      }
      return Some(Selector([tok]));
    } else if EqFormIn(tok, spec.valueSelectors) {
      return Some(Selector([tok]));
    } else if tok in spec.boolAllow {
      return Some(Kept([tok]));
    } else if tok in spec.valueAllow {
      if i + 1 < |rest| && !Dashed(rest[i + 1]) {
        return Some(Kept([tok, rest[i + 1]]));
      }
      return None;
    } else if EqFormIn(tok, spec.valueAllow) {
      return Some(Kept([tok]));
    }
    return None;
  }

  // --- Laws ---

  /** The parse loses nothing: its items spell the command line. */
  lemma {:induction false} ItemsSpellTheInput(spec: Spec, rest: Argv)
    requires Items(spec, rest).Some?
    ensures Tokens(Items(spec, rest).value) == rest
    decreases |rest|
  {
    hide NextItem;
    if rest != [] {
      var item := NextItem(spec, rest).value;
      ItemsSpellTheInput(spec, rest[|item.tokens|..]);
      StepKept(spec, rest, item);
      assert rest == rest[..|item.tokens|] + rest[|item.tokens|..];
    }
  }

  /** An item read the same way whatever follows it: everything but a selector still missing its value. */
  ghost predicate ClosedItem(spec: Spec, item: Item) {
    item.tokens != [] && Dashed(item.tokens[0]) && forall tail: Argv :: NextItem(spec, item.tokens + tail) == Some(item)
  }

  lemma {:induction false} KeptIsClosed(spec: Spec, rest: Argv)
    requires SpecFits(spec) && rest != []
    requires NextItem(spec, rest).Some? && NextItem(spec, rest).value.Kept?
    ensures ClosedItem(spec, NextItem(spec, rest).value)
    ensures forall tok | tok in NextItem(spec, rest).value.tokens :: !IsSelectorToken(spec, tok)
  {
    var item := NextItem(spec, rest).value;
    forall tail: Argv ensures NextItem(spec, item.tokens + tail) == Some(item) {
      assert (item.tokens + tail)[0] == item.tokens[0];
      if |item.tokens| == 2 {
        assert (item.tokens + tail)[1] == item.tokens[1];
      }
    }
  }

  ghost predicate AllClosed(spec: Spec, items: seq<Item>) {
    forall item | item in items :: ClosedItem(spec, item)
  }

  function OnlyKept(items: seq<Item>): seq<Item> {
    if items == [] then [] else (if items[0].Kept? then [items[0]] else []) + OnlyKept(items[1..])
  }

  lemma {:induction false} OnlyKeptFacts(spec: Spec, rest: Argv)
    requires SpecFits(spec) && Items(spec, rest).Some?
    ensures var kept := OnlyKept(Items(spec, rest).value);
            && AllClosed(spec, kept)
            && (forall tok | tok in Tokens(kept) :: !IsSelectorToken(spec, tok))
    decreases |rest|
  {
    hide NextItem, ClosedItem, SpecFits, IsSelectorToken, KeptOf, KeptBefore, KeptAfter;
    if rest != [] {
      var item := NextItem(spec, rest).value;
      StepKept(spec, rest, item);
      OnlyKeptFacts(spec, rest[|item.tokens|..]);
      var tail := OnlyKept(Items(spec, rest[|item.tokens|..]).value);
      if item.Kept? {
        KeptIsClosed(spec, rest);
        assert OnlyKept(Items(spec, rest).value) == [item] + tail;
        TokensCons(item, tail);
      } else {
        assert OnlyKept(Items(spec, rest).value) == tail;
      }
    }
  }

  /** Reading one item that is what the text starts with. */
  lemma {:induction false} StepItem(spec: Spec, item: Item, more: Argv)
    requires item.tokens != [] && NextItem(spec, item.tokens + more) == Some(item)
    ensures Items(spec, item.tokens + more) ==
      (var rest := Items(spec, more); if rest.None? then None else Some([item] + rest.value))
  {
    assert (item.tokens + more)[|item.tokens|..] == more;
    hide NextItem;
  }

  lemma {:induction false} ConsAssoc<T>(x: T, s: seq<T>, t: seq<T>)
    ensures [x] + (s + t) == ([x] + s) + t
  {
  }

  lemma {:induction false} ClosedHead(spec: Spec, items: seq<Item>, more: Argv)
    requires AllClosed(spec, items) && items != []
    ensures items[0].tokens != [] && NextItem(spec, items[0].tokens + more) == Some(items[0])
    ensures AllClosed(spec, items[1..])
  {
    hide NextItem;
    assert items[0] in items;
  }

  lemma {:induction false} TokensOfCons(items: seq<Item>, tail: Argv)
    requires items != []
    ensures Tokens(items) + tail == items[0].tokens + (Tokens(items[1..]) + tail)
  {
  }

  lemma {:induction false} ItemsOfNothing(spec: Spec, tail: Argv)
    ensures Items(spec, Tokens([]) + tail) == Items(spec, tail)
    ensures forall items: seq<Item> :: [] + items == items
  {
    assert Tokens([]) + tail == tail;
    hide Items;
  }

  /** Closed items parse back to themselves in front of anything. */
  lemma {:induction false} ClosedItemsParse(spec: Spec, items: seq<Item>, tail: Argv)
    requires AllClosed(spec, items)
    ensures Items(spec, Tokens(items) + tail) ==
      (var rest := Items(spec, tail); if rest.None? then None else Some(items + rest.value))
    decreases |items|
  {
    hide *;
    if items == [] {
      ItemsOfNothing(spec, tail);
    } else {
      var more := Tokens(items[1..]) + tail;
      ClosedHead(spec, items, more);
      ClosedItemsParse(spec, items[1..], tail);
      TokensOfCons(items, tail);
      StepItem(spec, items[0], more);
      assert items == [items[0]] + items[1..];
      if Items(spec, tail).Some? {
        ConsAssoc(items[0], items[1..], Items(spec, tail).value);
      }
    }
  }

  function Before(items: seq<Item>): seq<Item> {
    if items == [] || items[0].Selector? then [] else [items[0]] + Before(items[1..])
  }

  function After(items: seq<Item>): seq<Item> {
    if items == [] then []
    else if items[0].Selector? then OnlyKept(items[1..])
    else After(items[1..])
  }

  lemma {:induction false} TokensCons(item: Item, items: seq<Item>)
    ensures Tokens([item] + items) == item.tokens + Tokens(items)
  {
    assert ([item] + items)[1..] == items;
  }

  lemma {:induction false} SidesJoin(items: seq<Item>)
    ensures OnlyKept(items) == Before(items) + After(items)
    ensures (forall item | item in OnlyKept(items) :: item.Kept?)
    decreases |items|
  {
    if items != [] {
      SidesJoin(items[1..]);
      var only, before, after := OnlyKept(items[1..]), Before(items[1..]), After(items[1..]);
      if items[0].Kept? {
        assert [items[0]] + (before + after) == ([items[0]] + before) + after;
      } else {
        assert OnlyKept(items) == only && Before(items) == [];
      }
    }
  }

  lemma {:induction false} SidesAreKept(items: seq<Item>)
    ensures OnlyKept(items) == Before(items) + After(items)
    ensures (forall item | item in OnlyKept(items) :: item.Kept?)
    ensures Tokens(OnlyKept(items)) == KeptOf(items)
    ensures Tokens(Before(items)) == KeptBefore(items) && Tokens(After(items)) == KeptAfter(items)
    decreases |items|
  {
    SidesJoin(items);
    if items != [] {
      SidesAreKept(items[1..]);
      var only, before := OnlyKept(items[1..]), Before(items[1..]);
      if items[0].Kept? {
        assert OnlyKept(items) == [items[0]] + only && Before(items) == [items[0]] + before;
        assert After(items) == After(items[1..]) && KeptAfter(items) == KeptAfter(items[1..]);
        assert KeptOf(items) == items[0].tokens + KeptOf(items[1..]);
        assert KeptBefore(items) == items[0].tokens + KeptBefore(items[1..]);
        TokensCons(items[0], only);
        TokensCons(items[0], before);
        hide *;
      } else {
        assert OnlyKept(items) == only && After(items) == only;
        assert KeptOf(items) == KeptOf(items[1..]) && KeptAfter(items) == KeptOf(items[1..]);
        assert Before(items) == [] && KeptBefore(items) == [] && Tokens([]) == [];
        hide *;
      }
    }
  }

  lemma {:induction false} AllKeptSides(items: seq<Item>)
    requires forall item | item in items :: item.Kept?
    ensures KeptBefore(items) == Tokens(items) && KeptAfter(items) == [] && KeptOf(items) == Tokens(items)
    decreases |items|
  {
    if items != [] {
      assert items[0] in items;
      assert forall item | item in items[1..] :: item in items;
      AllKeptSides(items[1..]);
    }
  }

  lemma {:induction false} KeptAround(before: seq<Item>, selector: Item, after: seq<Item>)
    requires selector.Selector? && forall item | item in before + after :: item.Kept?
    ensures KeptBefore(before + [selector] + after) == Tokens(before)
    ensures KeptAfter(before + [selector] + after) == Tokens(after)
    decreases |before|
  {
    var all := before + [selector] + after;
    assert forall item | item in after :: item in before + after;
    if before == [] {
      assert all[0] == selector && all[1..] == after;
      AllKeptSides(after);
    } else {
      assert before[0] in before + after;
      assert forall item | item in before[1..] + after :: item in before + after;
      KeptAround(before[1..], selector, after);
      assert all[0] == before[0] && all[1..] == before[1..] + [selector] + after;
    }
  }

  /** How many tokens select a session. */
  function SelectorCount(spec: Spec, toks: Argv): nat {
    if toks == [] then 0 else (if IsSelectorToken(spec, toks[0]) then 1 else 0) + SelectorCount(spec, toks[1..])
  }

  lemma {:induction false} SelectorCountAppend(spec: Spec, a: Argv, b: Argv)
    ensures SelectorCount(spec, a + b) == SelectorCount(spec, a) + SelectorCount(spec, b)
    decreases |a|
  {
    hide IsSelectorToken;
    if a == [] {
      assert a + b == b;
    } else {
      SelectorCountAppend(spec, a[1..], b);
      assert (a + b)[1..] == a[1..] + b;
    }
  }

  lemma {:induction false} NoSelectors(spec: Spec, toks: Argv)
    requires forall tok | tok in toks :: !IsSelectorToken(spec, tok)
    ensures SelectorCount(spec, toks) == 0
    decreases |toks|
  {
    if toks != [] {
      NoSelectors(spec, toks[1..]);
    }
  }

  lemma {:induction false} PlainIsNoSelector(spec: Spec, value: string)
    requires SpecFits(spec) && !Dashed(value)
    ensures !IsSelectorToken(spec, value)
  {
  }

  /**
   A successful rewrite: the program name, then the original's kept flags in their original order
   with one selector among them, at the place of the first old one, carrying the new session.
   */
  lemma {:induction false} RewriteKeepsFlags(argv0: string, rest: Argv, spec: Spec, value: string)
    requires SpecFits(spec) && !Dashed(value) && RewriteFlags(argv0, rest, spec, value).Some?
    ensures var out := RewriteFlags(argv0, rest, spec, value).value;
            var items := Items(spec, rest).value;
            var at := |KeptBefore(items)| + 1;
            && out[0] == argv0 && out[at] == spec.canonicalSelector && out[at + 1] == value
            && out[1..at] + out[at + 2..] == KeptOf(items)
            && SelectorCount(spec, out[1..]) == 1
  {
    hide *;
    RewrittenItems(argv0, rest, spec, value);
    var items := Items(spec, rest).value;
    var before, after := KeptBefore(items), KeptAfter(items);
    KeptAreNoSelectors(spec, rest);
    CanonicalIsSelector(spec);
    PlainIsNoSelector(spec, value);
    OutputShape(argv0, before, spec.canonicalSelector, value, after);
    SelectorsAround(spec, before, spec.canonicalSelector, value, after);
    OutputOf(argv0, rest, spec, value, items);
  }

  lemma {:induction false} KeptAreNoSelectors(spec: Spec, rest: Argv)
    requires SpecFits(spec) && Items(spec, rest).Some?
    ensures var items := Items(spec, rest).value;
            && KeptBefore(items) + KeptAfter(items) == KeptOf(items)
            && forall tok | tok in KeptBefore(items) + KeptAfter(items) :: !IsSelectorToken(spec, tok)
  {
    var items := Items(spec, rest).value;
    KeptSplits(items);
    OnlyKeptFacts(spec, rest);
    SidesAreKept(items);
    hide Items, IsSelectorToken, KeptBefore, KeptAfter, KeptOf, NextItem;
  }

  lemma {:induction false} CanonicalIsSelector(spec: Spec)
    requires SpecFits(spec)
    ensures IsSelectorToken(spec, spec.canonicalSelector)
  {
  }

  lemma {:induction false} OutputOf(argv0: string, rest: Argv, spec: Spec, value: string, items: seq<Item>)
    requires Items(spec, rest) == Some(items)
    ensures RewriteFlags(argv0, rest, spec, value)
         == Some([argv0] + KeptBefore(items) + [spec.canonicalSelector, value] + KeptAfter(items))
  {
  }

  lemma {:induction false} OutputShape(argv0: string, before: Argv, selector: string, value: string, after: Argv)
    ensures var out := [argv0] + before + [selector, value] + after;
            var at := |before| + 1;
            && out[0] == argv0 && out[at] == selector && out[at + 1] == value
            && out[1..at] == before && out[at + 2..] == after
            && out[1..] == before + ([selector, value] + after)
  {
  }

  lemma {:induction false} SelectorsAround(spec: Spec, before: Argv, selector: string, value: string, after: Argv)
    requires forall tok | tok in before + after :: !IsSelectorToken(spec, tok)
    requires IsSelectorToken(spec, selector) && !IsSelectorToken(spec, value)
    ensures SelectorCount(spec, before + ([selector, value] + after)) == 1
  {
    hide IsSelectorToken;
    assert forall tok | tok in before :: tok in before + after;
    assert forall tok | tok in after :: tok in before + after;
    SelectorCountAppend(spec, before, [selector, value] + after);
    SelectorCountAppend(spec, [selector, value], after);
    NoSelectors(spec, before);
    NoSelectors(spec, after);
    assert [selector, value][1..] == [value] && [value][1..] == [];
  }

  /** What the rewriter reads when it is given its own output. */
  lemma {:induction false} OutputItems(rest: Argv, spec: Spec, value: string)
    requires SpecFits(spec) && Items(spec, rest).Some?
    ensures var items := Items(spec, rest).value;
            var tail := [spec.canonicalSelector, value] + KeptAfter(items);
            && AllClosed(spec, Before(items)) && AllClosed(spec, After(items))
            && (forall item | item in Before(items) + After(items) :: item.Kept?)
            && Tokens(Before(items)) == KeptBefore(items) && Tokens(After(items)) == KeptAfter(items)
            && Items(spec, KeptBefore(items) + tail) ==
                 (var more := Items(spec, tail); if more.None? then None else Some(Before(items) + more.value))
  {
    var items := Items(spec, rest).value;
    OnlyKeptFacts(spec, rest);
    SidesAreKept(items);
    assert forall item | item in Before(items) :: item in OnlyKept(items);
    assert forall item | item in After(items) :: item in OnlyKept(items);
    ClosedItemsParse(spec, Before(items), [spec.canonicalSelector, value] + KeptAfter(items));
  }

  lemma {:induction false} AfterItems(spec: Spec, items: seq<Item>)
    requires AllClosed(spec, items)
    ensures Items(spec, Tokens(items)) == Some(items)
    ensures Tokens(items) != [] ==> Dashed(Tokens(items)[0])
  {
    ClosedItemsParse(spec, items, []);
    assert Tokens(items) + [] == Tokens(items);
    assert items + [] == items;
    if items != [] {
      assert ClosedItem(spec, items[0]);
    }
  }

  /**
   Rewriting a rewrite for another session is the same as rewriting the original for it.
   */
  lemma {:induction false} RewriteComposes(argv0: string, rest: Argv, spec: Spec, value: string, other: string)
    requires SpecFits(spec) && !Dashed(value) && RewriteFlags(argv0, rest, spec, value).Some?
    ensures RewriteFlags(argv0, RewriteFlags(argv0, rest, spec, value).value[1..], spec, other)
         == RewriteFlags(argv0, rest, spec, other)
  {
    var items := Items(spec, rest).value;
    var out := RewriteFlags(argv0, rest, spec, value).value;
    var tail := [spec.canonicalSelector, value] + KeptAfter(items);
    OutputItems(rest, spec, value);
    AfterItems(spec, After(items));
    var selector := Selector([spec.canonicalSelector, value]);
    assert NextItem(spec, tail) == Some(selector);
    assert tail[2..] == KeptAfter(items);
    ItemsStep(spec, tail, selector, After(items));
    var all := Before(items) + [selector] + After(items);
    assert Before(items) + ([selector] + After(items)) == all;
    KeptAround(Before(items), selector, After(items));
    hide *;
    OutputShape(argv0, KeptBefore(items), spec.canonicalSelector, value, KeptAfter(items));
    OutputOf(argv0, rest, spec, value, items);
    OutputOf(argv0, rest, spec, other, items);
    OutputOf(argv0, out[1..], spec, other, all);
  }

  lemma {:induction false} ItemsStep(spec: Spec, rest: Argv, item: Item, tail: seq<Item>)
    requires rest != [] && NextItem(spec, rest) == Some(item) && Items(spec, rest[|item.tokens|..]) == Some(tail)
    ensures Items(spec, rest) == Some([item] + tail)
  {
  }

  /**
   The exact condition: a rewrite can be rewritten for another session with the same outcome if and
   only if the session value does not look like a flag, or is itself a session selector.
   */
  lemma {:induction false} RewriteComposesIff(argv0: string, rest: Argv, spec: Spec, value: string, other: string)
    requires SpecFits(spec) && RewriteFlags(argv0, rest, spec, value).Some?
    ensures RewriteFlags(argv0, RewriteFlags(argv0, rest, spec, value).value[1..], spec, other)
              == RewriteFlags(argv0, rest, spec, other)
            <==> !Dashed(value) || (IsSelectorToken(spec, value) && value != "--")
  {
    if !Dashed(value) {
      RewriteComposes(argv0, rest, spec, value, other);
    } else {
      DashedValue(argv0, rest, spec, value, other);
    }
  }

  lemma {:induction false} DashedValue(argv0: string, rest: Argv, spec: Spec, value: string, other: string)
    requires SpecFits(spec) && RewriteFlags(argv0, rest, spec, value).Some? && Dashed(value)
    ensures RewriteFlags(argv0, RewriteFlags(argv0, rest, spec, value).value[1..], spec, other)
              == RewriteFlags(argv0, rest, spec, other)
            <==> IsSelectorToken(spec, value) && value != "--"
  {
    hide *;
    RewrittenItems(argv0, rest, spec, value);
    var items := Items(spec, rest).value;
    var out := RewriteFlags(argv0, rest, spec, value).value;
    var item := NextItem(spec, [value] + KeptAfter(items));
    DashedOutputItems(argv0, rest, spec, value);
    ValueAsItem(spec, value, items);
    OutputOf(argv0, rest, spec, other, items);
    if item.None? {
      NoItemsNoRewrite(argv0, out[1..], spec, other);
    } else {
      var all := DashedItems(spec, items, item.value);
      OutputOf(argv0, out[1..], spec, other, all);
      DashedSides(spec, items, item.value);
      SameOutputs([argv0] + KeptBefore(items) + [spec.canonicalSelector, other],
                  if item.value.Kept? then [value] else [], KeptAfter(items));
    }
  }

  /** What the rewriter reads in its output when it takes the value for an item. */
  function DashedItems(spec: Spec, items: seq<Item>, item: Item): seq<Item> {
    Before(items) + [Selector([spec.canonicalSelector])] + ([item] + After(items))
  }

  lemma {:induction false} DashedSides(spec: Spec, items: seq<Item>, item: Item)
    requires forall x | x in Before(items) + After(items) :: x.Kept?
    requires Tokens(Before(items)) == KeptBefore(items) && Tokens(After(items)) == KeptAfter(items)
    ensures KeptBefore(DashedItems(spec, items, item)) == KeptBefore(items)
    ensures KeptAfter(DashedItems(spec, items, item)) == (if item.Kept? then item.tokens else []) + KeptAfter(items)
  {
    hide Before, After, Tokens, KeptBefore, KeptAfter;
    TwoSelectors(Before(items), Selector([spec.canonicalSelector]), item, After(items));
  }

  lemma {:induction false} DashedOutputItems(argv0: string, rest: Argv, spec: Spec, value: string)
    requires SpecFits(spec) && RewriteFlags(argv0, rest, spec, value).Some? && Dashed(value) && Items(spec, rest).Some?
    requires RewriteFlags(argv0, rest, spec, value).value != []
    ensures var items := Items(spec, rest).value;
            var item := NextItem(spec, [value] + KeptAfter(items));
            && AllClosed(spec, After(items)) && (forall x | x in Before(items) + After(items) :: x.Kept?)
            && Tokens(Before(items)) == KeptBefore(items) && Tokens(After(items)) == KeptAfter(items)
            && Items(spec, RewriteFlags(argv0, rest, spec, value).value[1..])
                 == if item.None? then None else Some(DashedItems(spec, items, item.value))
  {
    var items := Items(spec, rest).value;
    var selector := Selector([spec.canonicalSelector]);
    SelectorAlone(spec, value, KeptAfter(items));
    hide *;
    var valued := [value] + KeptAfter(items);
    OutputItems(rest, spec, value);
    ValueAsItem(spec, value, items);
    StepKept(spec, [spec.canonicalSelector, value] + KeptAfter(items), selector);
    OutputShape(argv0, KeptBefore(items), spec.canonicalSelector, value, KeptAfter(items));
    OutputOf(argv0, rest, spec, value, items);
    var item := NextItem(spec, valued);
    if item.Some? {
      DashedItemsAssoc(spec, items, item.value);
    }
  }

  lemma {:induction false} DashedItemsAssoc(spec: Spec, items: seq<Item>, item: Item)
    ensures Before(items) + ([Selector([spec.canonicalSelector])] + ([item] + After(items))) == DashedItems(spec, items, item)
  {
  }

  lemma {:induction false} SameOutputs(head: Argv, extra: Argv, tail: Argv)
    ensures head + (extra + tail) == head + tail <==> extra == []
  {
    if extra != [] {
      assert |head + (extra + tail)| > |head + tail|;
    } else {
      assert extra + tail == tail;
    }
  }

  lemma {:induction false} RewrittenItems(argv0: string, rest: Argv, spec: Spec, value: string)
    requires RewriteFlags(argv0, rest, spec, value).Some?
    ensures Items(spec, rest).Some? && RewriteFlags(argv0, rest, spec, value).value != []
  {
    hide Items;
  }

  /** In front of a flag-like value the selector is read as one without a value. */
  lemma {:induction false} SelectorAlone(spec: Spec, value: string, flags: Argv)
    requires SpecFits(spec) && Dashed(value)
    ensures var tail := [spec.canonicalSelector, value] + flags;
            && NextItem(spec, tail) == Some(Selector([spec.canonicalSelector]))
            && tail[1..] == [value] + flags
  {
  }

  lemma {:induction false} NothingBefore(s: Argv)
    ensures [] + s == s
  {
  }

  lemma {:induction false} LongerByOne(head: Argv, extra: string, tail: Argv)
    ensures head + ([extra] + tail) != head + tail
  {
    assert |head + ([extra] + tail)| == |head + tail| + 1;
  }

  lemma {:induction false} NoItemsNoRewrite(argv0: string, rest: Argv, spec: Spec, value: string)
    requires Items(spec, rest).None?
    ensures RewriteFlags(argv0, rest, spec, value).None?
  {
  }

  /** A flag-like session value is read as an item of its own: refused, kept, or one more selector. */
  lemma {:induction false} ValueAsItem(spec: Spec, value: string, items: seq<Item>)
    requires SpecFits(spec) && Dashed(value) && AllClosed(spec, After(items)) && Tokens(After(items)) == KeptAfter(items)
    ensures var valued := [value] + KeptAfter(items);
            var item := NextItem(spec, valued);
            && (item.None? ==> Items(spec, valued).None? && (!IsSelectorToken(spec, value) || value == "--"))
            && (item.Some? ==>
                  && item.value.tokens == [value]
                  && Items(spec, valued) == Some([item.value] + After(items))
                  && (item.value.Selector? <==> IsSelectorToken(spec, value) && value != "--"))
  {
    var valued := [value] + KeptAfter(items);
    var item := NextItem(spec, valued);
    AfterItems(spec, After(items));
    assert valued[1..] == KeptAfter(items);
    assert |valued| > 1 ==> Dashed(valued[1]);
    hide AllClosed, Items;
    if item.Some? {
      assert item.value.tokens == [value];
      ItemsStep(spec, valued, item.value, After(items));
    } else {
      StepNone(spec, valued);
    }
  }

  lemma {:induction false} StepNone(spec: Spec, rest: Argv)
    requires rest != [] && NextItem(spec, rest).None?
    ensures Items(spec, rest).None?
  {
  }

  lemma {:induction false} TwoSelectors(before: seq<Item>, selector: Item, item: Item, after: seq<Item>)
    requires selector.Selector? && forall x | x in before + after :: x.Kept?
    ensures KeptBefore(before + [selector] + ([item] + after)) == Tokens(before)
    ensures KeptAfter(before + [selector] + ([item] + after)) ==
      (if item.Kept? then item.tokens else []) + Tokens(after)
    decreases |before|
  {
    var all := before + [selector] + ([item] + after);
    assert forall x | x in after :: x in before + after;
    if before == [] {
      assert all[0] == selector && all[1..] == [item] + after && ([item] + after)[1..] == after;
      AllKeptSides(after);
    } else {
      assert before[0] in before + after;
      assert forall x | x in before[1..] + after :: x in before + after;
      TwoSelectors(before[1..], selector, item, after);
      assert all[0] == before[0] && all[1..] == before[1..] + [selector] + ([item] + after);
    }
  }
}
