/**
 The grammar of the launch commands that may be rewritten, stated without the scanners: a rewrite
 succeeds exactly when the command splits into groups of the grammar, and what it keeps are exactly
 the groups of allowlisted flags.
 */
module ResumeGrammar {
  import opened Common
  import opened ResumeArgv

  /** A value, as opposed to a flag, starts with anything but a dash. */
  predicate Plain(tok: string) {
    !("-" <= tok)
  }

  /** The token assigns a value to a long name: `--name=value`, split at the first equals sign. */
  ghost predicate Assigns(tok: string, names: set<string>) {
    exists name: string, value: string {:trigger name + "=" + value} ::
      name in names && "--" <= name && '=' !in name && tok == name + "=" + value
  }

  /** One step of a command: what selects the session, or a policy flag with its value. */
  datatype Group = Session(tokens: Argv) | Policy(tokens: Argv)

  ghost predicate SelectsSession(spec: Spec, tok: string) {
    tok in spec.boolSelectors || tok in spec.valueSelectors || Assigns(tok, spec.valueSelectors)
  }

  /** A selector takes the plain token that follows it as its value, and does without when none does. */
  ghost predicate SessionGroup(spec: Spec, group: Argv, after: Argv)
    requires group != []
  {
    if group[0] in spec.boolSelectors then |group| == 1
    else if group[0] in spec.valueSelectors then
      if |group| == 1 then after == [] || !Plain(after[0]) else |group| == 2 && Plain(group[1])
    else |group| == 1 && Assigns(group[0], spec.valueSelectors)
  }

  /** A policy flag alone, a flag with one plain value, or a flag with its value assigned. */
  ghost predicate PolicyGroup(spec: Spec, group: Argv)
    requires group != []
  {
    if group[0] in spec.boolAllow then |group| == 1
    else if group[0] in spec.valueAllow then |group| == 2 && Plain(group[1])
    else |group| == 1 && Assigns(group[0], spec.valueAllow)
  }

  /** The group a command starts with. */
  ghost predicate StartsWith(spec: Spec, rest: Argv, group: Group) {
    && group.tokens != [] && group.tokens <= rest && group.tokens[0] != "--"
    && if group.Session? then SessionGroup(spec, group.tokens, rest[|group.tokens|..])
       else !SelectsSession(spec, group.tokens[0]) && PolicyGroup(spec, group.tokens)
  }

  ghost predicate Splits(spec: Spec, rest: Argv, groups: seq<Group>)
    decreases |groups|
  {
    if groups == [] then rest == []
    else StartsWith(spec, rest, groups[0]) && Splits(spec, rest[|groups[0].tokens|..], groups[1..])
  }

  /** The policy flags of the groups, in their order. */
  function Policies(groups: seq<Group>): Argv {
    if groups == [] then []
    else if groups[0].Policy? then groups[0].tokens + Policies(groups[1..])
    else Policies(groups[1..])
  }

  /** The `k`-th group is the first that selects a session, or `k` is their number and none does. */
  ghost predicate FirstSession(groups: seq<Group>, k: nat) {
    && k <= |groups|
    && (k < |groups| ==> groups[k].Session?)
    && forall j | 0 <= j < k :: groups[j].Policy?
  }

  // --- A token ---

  lemma {:induction false} BeforeEqualsSplits(tok: string)
    requires '=' in tok
    ensures |BeforeEquals(tok)| < |tok| && '=' !in BeforeEquals(tok)
    ensures tok == BeforeEquals(tok) + "=" + tok[|BeforeEquals(tok)| + 1..]
    decreases |tok|
  {
    if tok[0] != '=' {
      BeforeEqualsSplits(tok[1..]);
      assert tok == [tok[0]] + tok[1..];
    } else {
      assert tok == "=" + tok[1..];
    }
  }

  lemma {:induction false} BeforeEqualsIs(name: string, value: string)
    requires '=' !in name
    ensures BeforeEquals(name + "=" + value) == name
    decreases |name|
  {
    var tok := name + "=" + value;
    if name != "" {
      assert tok[0] == name[0] && tok[1..] == name[1..] + "=" + value;
      BeforeEqualsIs(name[1..], value);
    }
  }

  lemma {:induction false} AssignsIs(tok: string, names: set<string>)
    ensures Assigns(tok, names) <==> EqFormIn(tok, names)
  {
    if EqFormIn(tok, names) {
      BeforeEqualsSplits(tok);
      var name, value := BeforeEquals(tok), tok[|BeforeEquals(tok)| + 1..];
      assert tok == name + "=" + value && tok[|name|] == '=';
      assert tok[0] == '-' && tok[1] == '-';
      assert |name| >= 2 && name[0] == tok[0] && name[1] == tok[1];
    }
    if Assigns(tok, names) {
      var name, value :| name in names && "--" <= name && '=' !in name && tok == name + "=" + value;
      BeforeEqualsIs(name, value);
      assert tok[|name|] == '=';
      assert tok[0] == name[0] && tok[1] == name[1];
    }
  }

  lemma {:induction false} PlainIs(tok: string)
    ensures Plain(tok) <==> !Dashed(tok)
  {
  }

  // --- The scanner's items are the groups ---

  function ItemOf(group: Group): Item {
    if group.Session? then Selector(group.tokens) else Kept(group.tokens)
  }

  function GroupOf(item: Item): Group {
    if item.Selector? then Session(item.tokens) else Policy(item.tokens)
  }

  function ItemsOf(groups: seq<Group>): seq<Item> {
    if groups == [] then [] else [ItemOf(groups[0])] + ItemsOf(groups[1..])
  }

  lemma {:induction false} TokenIs(spec: Spec, rest: Argv)
    requires rest != []
    ensures Assigns(rest[0], spec.valueSelectors) <==> EqFormIn(rest[0], spec.valueSelectors)
    ensures Assigns(rest[0], spec.valueAllow) <==> EqFormIn(rest[0], spec.valueAllow)
    ensures |rest| > 1 ==> (Plain(rest[1]) <==> !Dashed(rest[1]))
  {
    AssignsIs(rest[0], spec.valueSelectors);
    AssignsIs(rest[0], spec.valueAllow);
  }

  lemma {:induction false} NextIsGroup(spec: Spec, rest: Argv)
    requires rest != [] && NextItem(spec, rest).Some?
    ensures StartsWith(spec, rest, GroupOf(NextItem(spec, rest).value))
  {
    TokenIs(spec, rest);
    hide Assigns, EqFormIn, Plain, Dashed;
  }

  lemma {:induction false} GroupIsNext(spec: Spec, rest: Argv, group: Group)
    requires StartsWith(spec, rest, group)
    ensures rest != [] && NextItem(spec, rest) == Some(ItemOf(group))
  {
    TokenIs(spec, rest);
    assert group.tokens[0] == rest[0];
    if |group.tokens| == 1 {
      assert group.tokens == [rest[0]];
    } else {
      assert |group.tokens| == 2 && group.tokens[1] == rest[1] && group.tokens == [rest[0], rest[1]];
    }
    hide Assigns, EqFormIn, Plain, Dashed;
  }

  lemma {:induction false} GroupsParse(spec: Spec, rest: Argv, groups: seq<Group>)
    requires Splits(spec, rest, groups)
    ensures Items(spec, rest) == Some(ItemsOf(groups))
    decreases |groups|
  {
    hide NextItem, StartsWith;
    if groups != [] {
      GroupIsNext(spec, rest, groups[0]);
      GroupsParse(spec, rest[|groups[0].tokens|..], groups[1..]);
    }
  }

  lemma {:induction false} ItemsSplit(spec: Spec, rest: Argv) returns (groups: seq<Group>)
    requires Items(spec, rest).Some?
    ensures Splits(spec, rest, groups)
    decreases |rest|
  {
    hide NextItem, StartsWith;
    groups := [];
    if rest != [] {
      NextIsGroup(spec, rest);
      var group := GroupOf(NextItem(spec, rest).value);
      var tail := ItemsSplit(spec, rest[|group.tokens|..]);
      groups := [group] + tail;
      assert groups[1..] == tail;
    }
  }

  lemma {:induction false} KeptArePolicies(groups: seq<Group>, k: nat)
    requires FirstSession(groups, k)
    ensures KeptOf(ItemsOf(groups)) == Policies(groups)
    ensures KeptBefore(ItemsOf(groups)) == Policies(groups[..k])
    ensures KeptAfter(ItemsOf(groups)) == Policies(groups[k..])
    decreases |groups|
  {
    if groups == [] {
      assert groups[..k] == [] && groups[k..] == [];
    } else {
      var items := ItemsOf(groups);
      assert items[0] == ItemOf(groups[0]) && items[1..] == ItemsOf(groups[1..]);
      if k == 0 {
        PoliciesAreKept(groups[1..]);
        assert groups[..0] == [] && groups[0..] == groups;
      } else {
        assert groups[0].Policy?;
        assert FirstSession(groups[1..], k - 1);
        KeptArePolicies(groups[1..], k - 1);
        assert groups[..k][1..] == groups[1..][..k - 1] && groups[k..] == groups[1..][k - 1..];
      }
    }
  }

  lemma {:induction false} PoliciesAreKept(groups: seq<Group>)
    ensures KeptOf(ItemsOf(groups)) == Policies(groups)
    decreases |groups|
  {
    if groups != [] {
      PoliciesAreKept(groups[1..]);
      assert ItemsOf(groups)[1..] == ItemsOf(groups[1..]);
    }
  }

  // --- The laws ---

  /** Default-deny, exactly: a command is rewritten if and only if it splits into groups of the grammar. */
  lemma {:induction false} RewrittenIffGrammar(argv0: string, rest: Argv, spec: Spec, value: string)
    ensures RewriteFlags(argv0, rest, spec, value).Some? <==> exists groups :: Splits(spec, rest, groups)
  {
    if RewriteFlags(argv0, rest, spec, value).Some? {
      var groups := ItemsSplit(spec, rest);
    }
    if groups :| Splits(spec, rest, groups) {
      GroupsParse(spec, rest, groups);
    }
  }

  /**
   What a rewrite says: the policy flags before the first session selector, the new session in its
   place, and the policy flags after it; at the end when there was none.
   */
  lemma {:induction false} RewriteIsPolicies(argv0: string, rest: Argv, spec: Spec, value: string, groups: seq<Group>, k: nat)
    requires Splits(spec, rest, groups) && FirstSession(groups, k)
    ensures RewriteFlags(argv0, rest, spec, value)
         == Some([argv0] + Policies(groups[..k]) + [spec.canonicalSelector, value] + Policies(groups[k..]))
  {
    GroupsParse(spec, rest, groups);
    KeptArePolicies(groups, k);
    hide *;
    OutputOf(argv0, rest, spec, value, ItemsOf(groups));
  }

  /** Every rewrite is of that form. */
  lemma {:induction false} RewriteSays(argv0: string, rest: Argv, spec: Spec, value: string) returns (groups: seq<Group>, k: nat)
    requires RewriteFlags(argv0, rest, spec, value).Some?
    ensures Splits(spec, rest, groups) && FirstSession(groups, k)
    ensures RewriteFlags(argv0, rest, spec, value).value
         == [argv0] + Policies(groups[..k]) + [spec.canonicalSelector, value] + Policies(groups[k..])
  {
    groups := ItemsSplit(spec, rest);
    k := 0;
    while k < |groups| && groups[k].Policy?
      invariant k <= |groups| && forall j | 0 <= j < k :: groups[j].Policy?
    {
      k := k + 1;
    }
    RewriteIsPolicies(argv0, rest, spec, value, groups, k);
  }

  /** A command splits in one way only. */
  lemma {:induction false} SplitIsUnique(spec: Spec, rest: Argv, groups: seq<Group>, others: seq<Group>)
    requires Splits(spec, rest, groups) && Splits(spec, rest, others)
    ensures groups == others
    decreases |groups|
  {
    hide StartsWith, NextItem;
    if groups == [] {
      if others != [] {
        GroupIsNext(spec, rest, others[0]);
      }
    } else {
      GroupIsNext(spec, rest, groups[0]);
      assert others != [];
      GroupIsNext(spec, rest, others[0]);
      assert groups[0] == others[0];
      SplitIsUnique(spec, rest[|groups[0].tokens|..], groups[1..], others[1..]);
      assert groups == [groups[0]] + groups[1..] && others == [others[0]] + others[1..];
    }
  }

  /** Every flag of a command that is rewritten is known by its own name or by the name it assigns to. */
  ghost predicate Known(spec: Spec, tok: string) {
    || SelectsSession(spec, tok)
    || tok in spec.boolAllow || tok in spec.valueAllow || Assigns(tok, spec.valueAllow)
  }

  lemma {:induction false} FlagsAreKnown(spec: Spec, rest: Argv, groups: seq<Group>)
    requires Splits(spec, rest, groups)
    ensures forall tok | tok in rest && !Plain(tok) :: Known(spec, tok) && tok != "--"
    decreases |groups|
  {
    if groups != [] {
      var group := groups[0];
      var after := rest[|group.tokens|..];
      FlagsAreKnown(spec, after, groups[1..]);
      assert rest == group.tokens + after;
      forall tok | tok in rest && !Plain(tok) ensures Known(spec, tok) && tok != "--" {
        if tok !in after {
          assert tok in group.tokens;
          FlagOfGroup(spec, rest, group, tok);
        }
      }
    }
  }

  lemma {:induction false} FlagOfGroup(spec: Spec, rest: Argv, group: Group, tok: string)
    requires StartsWith(spec, rest, group) && tok in group.tokens && !Plain(tok)
    ensures tok == group.tokens[0] && Known(spec, tok) && tok != "--"
  {
    hide Assigns;
  }

  /** A command with a flag that is not known is not rewritten, wherever the flag stands. */
  lemma {:induction false} UnknownFlagRefuses(argv0: string, rest: Argv, spec: Spec, value: string, tok: string)
    requires tok in rest && !Plain(tok) && (!Known(spec, tok) || tok == "--")
    ensures RewriteFlags(argv0, rest, spec, value).None?
  {
    if RewriteFlags(argv0, rest, spec, value).Some? {
      var groups := ItemsSplit(spec, rest);
      FlagsAreKnown(spec, rest, groups);
    }
  }

  /** The key an operator gives pi on its command line is never written down for a resume. */
  lemma {:induction false} PiKeyIsNeverKept(argv0: string, rest: Argv, value: string, tok: string)
    requires tok in rest && (tok == "--api-key" || "--api-key=" <= tok)
    ensures RewriteFlags(argv0, rest, PI_SPEC, value).None?
  {
    KeyIsUnknown(tok);
    UnknownFlagRefuses(argv0, rest, PI_SPEC, value, tok);
  }

  lemma {:induction false} KeyIsUnknown(tok: string)
    requires tok == "--api-key" || "--api-key=" <= tok
    ensures !Plain(tok) && !Known(PI_SPEC, tok)
  {
    AssignsIs(tok, PI_SPEC.valueSelectors);
    AssignsIs(tok, PI_SPEC.valueAllow);
    if tok != "--api-key" {
      assert tok == "--api-key" + "=" + tok[10..];
      BeforeEqualsIs("--api-key", tok[10..]);
    }
    NotAPiName("--api-key");
    NotAPiName(tok);
  }

  lemma {:induction false} NotAPiName(tok: string)
    requires |tok| >= 9 && tok[2] == 'a' && tok[3] == 'p' && tok[4] == 'i'
    ensures tok !in PI_SPEC.boolSelectors && tok !in PI_SPEC.valueSelectors
    ensures tok !in PI_SPEC.boolAllow && tok !in PI_SPEC.valueAllow
  {
  }
}
