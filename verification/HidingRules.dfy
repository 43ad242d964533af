/** The stylesheet rules that hide elements, kept by one key each: looking up an element's own keys finds
    exactly the elements a scan of all rules would find. */
module HidingRules {
  import opened Wrappers

  /** An element a rule hides: a tag (or any), with all of these classes and ids. */
  datatype Compound = Compound(tag: Option<string>, classes: seq<string>, ids: seq<string>)

  const MAX_HIDING_RULES := 2000

  function RuleKey(c: Compound): string {
    if c.ids != [] then "#" + c.ids[0]
    else if c.classes != [] then "." + c.classes[0]
    else if c.tag.Some? then c.tag.value else "*"
  }

  predicate Hides(c: Compound, name: string, classes: set<string>, id: string) {
    && (c.tag.None? || c.tag.value == name)
    && (forall k <- c.classes :: k in classes)
    && (forall i <- c.ids :: i == id)
  }

  /** The rules kept: the first ones, up to the limit; more than that is only suspected. */
  function Kept(rules: seq<Compound>): seq<Compound> {
    if |rules| > MAX_HIDING_RULES then rules[..MAX_HIDING_RULES] else rules
  }

  ghost predicate Indexes(index: map<string, seq<Compound>>, rules: seq<Compound>) {
    && (forall key <- index :: forall c <- index[key] :: c in rules)
    && (forall c <- rules :: RuleKey(c) in index && c in index[RuleKey(c)])
  }

  /** A stylesheet rule as read: at-rules nested too deeply are `unread`; `hides` when its body hides content,
      `conditional` when it applies to some readers only. A selector gives the compounds it stands for, or nothing when
      it cannot be read. */
  datatype StyleRule = StyleRule(unread: bool, hides: bool, conditional: bool, selectors: seq<Option<seq<Compound>>>)

  /** The rule hides elements for every reader. */
  predicate Resolves(r: StyleRule) { !r.unread && r.hides && !r.conditional }

  /** The compounds of the readable selectors, in order. */
  function Expanded(selectors: seq<Option<seq<Compound>>>): seq<Compound> {
    if selectors == [] then [] else
      var n := |selectors| - 1;
      Expanded(selectors[..n]) + if selectors[n].Some? then selectors[n].value else []
  }

  function Resolved(rules: seq<StyleRule>): seq<Compound> {
    if rules == [] then [] else
      var n := |rules| - 1;
      Resolved(rules[..n]) + if Resolves(rules[n]) then Expanded(rules[n].selectors) else []
  }

  /** The rule may hide what is not resolved: not read, for some readers only, or with an unreadable selector. */
  predicate Doubtful(r: StyleRule) {
    r.unread || (r.hides && (r.conditional || exists s <- r.selectors :: s.None?))
  }

  predicate Within(all: seq<Compound>) { |all| <= MAX_HIDING_RULES }

  function Filed(index: map<string, seq<Compound>>, c: Compound): map<string, seq<Compound>> {
    index[RuleKey(c) := (if RuleKey(c) in index then index[RuleKey(c)] else []) + [c]]
  }

  lemma FiledIndexes(index: map<string, seq<Compound>>, rules: seq<Compound>, c: Compound)
    requires Indexes(index, rules)
    ensures Indexes(Filed(index, c), rules + [c])
  {
    var after := Filed(index, c);
    forall x <- rules + [c] ensures RuleKey(x) in after && x in after[RuleKey(x)] { assert x in rules || x == c; }
  }

  /** Below the limit everything is kept, and one more. */
  lemma KeptMore(all: seq<Compound>, c: Compound)
    requires |Kept(all)| < MAX_HIDING_RULES
    ensures Kept(all) == all && Kept(all + [c]) == all + [c] && Within(all + [c])
  {
  }

  method FileCompounds(compounds: seq<Compound>, index: map<string, seq<Compound>>, count: nat, suspected: bool,
      ghost all: seq<Compound>)
      returns (index': map<string, seq<Compound>>, count': nat, suspected': bool)
    requires Indexes(index, Kept(all)) && count == |Kept(all)|
    ensures Indexes(index', Kept(all + compounds)) && count' == |Kept(all + compounds)|
    ensures suspected' <==> suspected || (compounds != [] && !Within(all + compounds))
  {
    index', count', suspected' := index, count, suspected;
    ghost var now := all;
    for i := 0 to |compounds|
      invariant now + compounds[i..] == all + compounds && (i > 0 ==> Within(now)) && (i == 0 ==> now == all)
      invariant Indexes(index', Kept(now)) && count' == |Kept(now)|
      invariant suspected' == suspected
    {
      if count' >= MAX_HIDING_RULES {
        KeptFull(now, compounds[i..]);
        suspected' := true;
        return;
      }
      KeptMore(now, compounds[i]);
      FiledIndexes(index', now, compounds[i]);
      index' := Filed(index', compounds[i]);
      count' := count' + 1;
      assert compounds[i..] == [compounds[i]] + compounds[i + 1..];
      now := now + [compounds[i]];
    }
    assert now == all + compounds;
  }

  /** Nothing more is kept once the limit is reached. */
  lemma KeptFull(all: seq<Compound>, more: seq<Compound>)
    requires |Kept(all)| >= MAX_HIDING_RULES && more != []
    ensures Kept(all + more) == Kept(all) && !Within(all + more)
  {
  }

  lemma ExpandedMore(selectors: seq<Option<seq<Compound>>>, i: nat)
    requires i < |selectors|
    ensures Expanded(selectors[..i + 1]) == Expanded(selectors[..i]) + if selectors[i].Some? then selectors[i].value
              else []
  {
    assert selectors[..i + 1][..i] == selectors[..i];
  }

  method FileSelectors(selectors: seq<Option<seq<Compound>>>, index: map<string, seq<Compound>>, count: nat,
      suspected: bool, ghost all: seq<Compound>)
      returns (index': map<string, seq<Compound>>, count': nat, suspected': bool)
    requires Indexes(index, Kept(all)) && count == |Kept(all)| && (!Within(all) ==> suspected)
    ensures Indexes(index', Kept(all + Expanded(selectors))) && count' == |Kept(all + Expanded(selectors))|
    ensures suspected' <==> suspected || (exists s <- selectors :: s.None?) || !Within(all + Expanded(selectors))
  {
    index', count', suspected' := index, count, suspected;
    ghost var now := all;
    for i := 0 to |selectors|
      invariant now == all + Expanded(selectors[..i])
      invariant Indexes(index', Kept(now)) && count' == |Kept(now)|
      invariant suspected' <==> suspected || SomeUnread(selectors, i) || !Within(now)
    {
      NextSelector(all, selectors, i, now);
      if selectors[i].None? {
        suspected' := true;
      } else {
        index', count', suspected' := FileCompounds(selectors[i].value, index', count', suspected', now);
        now := now + selectors[i].value;
      }
    }
    AllSelectors(selectors);
  }

  /** One of the first `n` selectors cannot be read. */
  ghost predicate SomeUnread(selectors: seq<Option<seq<Compound>>>, n: nat)
    requires n <= |selectors|
  {
    exists j | 0 <= j < n :: selectors[j].None?
  }

  lemma NextSelector(all: seq<Compound>, selectors: seq<Option<seq<Compound>>>, i: nat, now: seq<Compound>)
    requires i < |selectors| && now == all + Expanded(selectors[..i])
    ensures SomeUnread(selectors, i + 1) <==> SomeUnread(selectors, i) || selectors[i].None?
    ensures all + Expanded(selectors[..i + 1]) == if selectors[i].Some? then now + selectors[i].value else now
    ensures !Within(now) && selectors[i].Some? ==> !Within(now + selectors[i].value)
  {
    ExpandedMore(selectors, i);
  }

  lemma AllSelectors(selectors: seq<Option<seq<Compound>>>)
    ensures selectors[..|selectors|] == selectors
    ensures SomeUnread(selectors, |selectors|) <==> exists s <- selectors :: s.None?
  {
    if SomeUnread(selectors, |selectors|) {
      var j :| 0 <= j < |selectors| && selectors[j].None?;
      assert selectors[j] in selectors;
    }
  }

  /** `hidingRules`, over the rules as read: the resolved compounds are filed up to the limit, and hiding beyond that,
      or by a rule that is not resolved, is suspected. */
  method BuildIndex(rules: seq<StyleRule>) returns (index: map<string, seq<Compound>>, suspected: bool)
    ensures Indexes(index, Kept(Resolved(rules)))
    ensures suspected <==> (exists r <- rules :: Doubtful(r)) || !Within(Resolved(rules))
  {
    index, suspected := map[], false;
    var count := 0;
    ghost var now: seq<Compound> := [];
    for i := 0 to |rules|
      invariant now == Resolved(rules[..i]) && Indexes(index, Kept(now)) && count == |Kept(now)|
      invariant suspected <==> SomeDoubtful(rules, i) || !Within(now)
    {
      var r := rules[i];
      NextRule(rules, i, now);
      ghost var before := now;
      now := Resolved(rules[..i + 1]);
      if r.unread {
        suspected := true;
        continue;
      }
      if !r.hides { continue; }
      if r.conditional {
        suspected := true;
        continue;
      }
      index, count, suspected := FileSelectors(r.selectors, index, count, suspected, before);
    }
    AllRules(rules);
  }

  /** One of the first `n` rules is doubtful. */
  ghost predicate SomeDoubtful(rules: seq<StyleRule>, n: nat)
    requires n <= |rules|
  {
    exists j | 0 <= j < n :: Doubtful(rules[j])
  }

  lemma NextRule(rules: seq<StyleRule>, i: nat, now: seq<Compound>)
    requires i < |rules| && now == Resolved(rules[..i])
    ensures SomeDoubtful(rules, i + 1) <==> SomeDoubtful(rules, i) || Doubtful(rules[i])
    ensures Resolved(rules[..i + 1]) == if Resolves(rules[i]) then now + Expanded(rules[i].selectors) else now
    ensures !Within(now) ==> !Within(now + Expanded(rules[i].selectors))
  {
    assert rules[..i + 1][..i] == rules[..i];
    assert now + [] == now;
  }

  lemma AllRules(rules: seq<StyleRule>)
    ensures rules[..|rules|] == rules
    ensures SomeDoubtful(rules, |rules|) <==> exists r <- rules :: Doubtful(r)
  {
    if SomeDoubtful(rules, |rules|) {
      var j :| 0 <= j < |rules| && Doubtful(rules[j]);
      assert rules[j] in rules;
    }
  }

  function KeysOf(name: string, classes: set<string>, id: string): set<string> {
    {"#" + id, name, "*"} + set c <- classes :: "." + c
  }

  predicate Lookup(index: map<string, seq<Compound>>, name: string, classes: set<string>, id: string) {
    exists key <- KeysOf(name, classes, id) | key in index :: exists c <- index[key] :: Hides(c, name, classes, id)
  }

  /** A rule that hides an element is filed under one of the element's own keys. */
  lemma KeyIsOwn(c: Compound, name: string, classes: set<string>, id: string)
    requires Hides(c, name, classes, id)
    ensures RuleKey(c) in KeysOf(name, classes, id)
  {
    if c.ids != [] {
      assert c.ids[0] in c.ids;
    } else if c.classes != [] {
      assert c.classes[0] in c.classes;
    }
  }

  /** The element is one the rule is for: of its tag if it names one, with every class and every id it names. */
  predicate Meets(c: Compound, name: string, classes: set<string>, id: string) {
    && (c.tag.Some? ==> c.tag.value == name)
    && (forall k | 0 <= k < |c.classes| :: c.classes[k] in classes)
    && (forall k | 0 <= k < |c.ids| :: c.ids[k] == id)
  }

  lemma MeetsMeaning(c: Compound, name: string, classes: set<string>, id: string)
    ensures Meets(c, name, classes, id) <==> Hides(c, name, classes, id)
  {
    if Meets(c, name, classes, id) {
      forall x <- c.classes ensures x in classes { var k :| 0 <= k < |c.classes| && c.classes[k] == x; }
      forall x <- c.ids ensures x == id { var k :| 0 <= k < |c.ids| && c.ids[k] == x; }
      assert Hides(c, name, classes, id);
    }
    if Hides(c, name, classes, id) {
      forall k | 0 <= k < |c.classes| ensures c.classes[k] in classes { assert c.classes[k] in c.classes; }
      forall k | 0 <= k < |c.ids| ensures c.ids[k] == id { assert c.ids[k] in c.ids; }
      assert Meets(c, name, classes, id);
    }
  }

  /** The indexed check is the scan of every kept rule. */
  lemma LookupIsScan(index: map<string, seq<Compound>>, rules: seq<Compound>, name: string, classes: set<string>,
      id: string)
    requires Indexes(index, rules)
    ensures Lookup(index, name, classes, id) <==> exists c <- rules :: Meets(c, name, classes, id)
  {
    forall c <- rules ensures Meets(c, name, classes, id) <==> Hides(c, name, classes, id) {
      MeetsMeaning(c, name, classes, id);
    }
    forall c <- rules | Hides(c, name, classes, id) ensures Lookup(index, name, classes, id) {
      KeyIsOwn(c, name, classes, id);
      assert c in index[RuleKey(c)];
    }
  }
}
