/**
 * The inbox rule engine: condition trees over facts, and the fold that turns an ordered
 * rule list into one evaluation.
 */
module InboxRules {
  import opened Wrappers
  import opened Sorting

  // ---------------------------------------------------------------- conditions

  datatype Value = Text(text: string) | Number(number: real) | Flag(flag: bool)

  datatype Expected = Single(value: Value) | List(items: seq<Value>)

  datatype Operator = Eq | Neq | Gt | Gte | Lt | Lte | Contains | StartsWith | In | Exists | Unknown(name: string)

  datatype Condition =
    | Comparison(field: string, op: Operator, expected: Option<Expected>)
    | All(all: seq<Condition>)
    | AnyOf(any: seq<Condition>)
    | Not(condition: Condition)

  type Facts = map<string, Value>

  /** The language's number parsing, number printing and lower-casing. */
  datatype Coercions = Coercions(parse: string -> Option<real>, show: real -> string, lower: string -> string)

  function AsNumber(v: Option<Value>, k: Coercions): Option<real> {
    match v
    case Some(Number(x)) => Some(x)
    case Some(Text(s)) => k.parse(s)
    case _ => None
  }

  function AsString(v: Option<Value>, k: Coercions): Option<string> {
    match v
    case Some(Text(s)) => Some(s)
    case Some(Number(x)) => Some(k.show(x))
    case Some(Flag(b)) => Some(if b then "true" else "false")
    case None => None
  }

  function SingleValue(expected: Option<Expected>): Option<Value> {
    if expected.Some? && expected.value.Single? then Some(expected.value.value) else None
  }

  /** Strict equality: absent equals absent, and a list equals nothing. */
  predicate IsSame(actual: Option<Value>, expected: Option<Expected>) {
    if expected.None? then actual.None? else expected.value.Single? && actual == Some(expected.value.value)
  }

  predicate IsInside(needle: string, hay: string) {
    exists i {:trigger hay[i..]} :: 0 <= i <= |hay| && needle <= hay[i..]
  }

  predicate Compares(op: Operator, a: real, b: real) {
    match op
    case Gt => a > b
    case Gte => a >= b
    case Lt => a < b
    case Lte => a <= b
    case _ => false
  }

  /** One comparison; an unknown operator never matches. */
  predicate EvaluateComparison(field: string, op: Operator, expected: Option<Expected>, facts: Facts, k: Coercions) {
    var actual := if field in facts then Some(facts[field]) else None;
    match op
    case Exists => actual.Some?
    case Eq => IsSame(actual, expected)
    case Neq => !IsSame(actual, expected)
    case Gt | Gte | Lt | Lte =>
      var a, b := AsNumber(actual, k), AsNumber(SingleValue(expected), k);
      a.Some? && b.Some? && Compares(op, a.value, b.value)
    case Contains =>
      var hay, needle := AsString(actual, k), AsString(SingleValue(expected), k);
      hay.Some? && needle.Some? && IsInside(k.lower(needle.value), k.lower(hay.value))
    case StartsWith =>
      var hay, needle := AsString(actual, k), AsString(SingleValue(expected), k);
      hay.Some? && needle.Some? && k.lower(needle.value) <= k.lower(hay.value)
    case In => expected.Some? && expected.value.List? && actual.Some? && actual.value in expected.value.items
    case Unknown(_) => false
  }

  predicate EvaluateCondition(c: Condition, facts: Facts, k: Coercions) {
    match c
    case All(cs) => EveryHolds(cs, facts, k)
    case AnyOf(cs) => SomeHolds(cs, facts, k)
    case Not(d) => !EvaluateCondition(d, facts, k)
    case Comparison(field, op, expected) => EvaluateComparison(field, op, expected, facts, k)
  }

  predicate EveryHolds(cs: seq<Condition>, facts: Facts, k: Coercions) {
    cs == [] || (EvaluateCondition(cs[0], facts, k) && EveryHolds(cs[1..], facts, k))
  }

  predicate SomeHolds(cs: seq<Condition>, facts: Facts, k: Coercions) {
    cs != [] && (EvaluateCondition(cs[0], facts, k) || SomeHolds(cs[1..], facts, k))
  }

  /** The fields a tree looks up. */
  function Fields(c: Condition): set<string> {
    match c
    case All(cs) => FieldsOf(cs)
    case AnyOf(cs) => FieldsOf(cs)
    case Not(d) => Fields(d)
    case Comparison(field, _, _) => {field}
  }

  function FieldsOf(cs: seq<Condition>): set<string> {
    if cs == [] then {} else Fields(cs[0]) + FieldsOf(cs[1..])
  }

  /**
   * The four orderings hold only between numbers, where `gte` and `lte` are the complements of
   * `lt` and `gt`; `startsWith` is a `contains`; and `in` is `eq` with one of the items.
   */
  lemma OperatorsRelate(field: string, expected: Option<Expected>, facts: Facts, k: Coercions)
    ensures var holds := (op: Operator) => EvaluateComparison(field, op, expected, facts, k);
            var a, b := AsNumber(if field in facts then Some(facts[field]) else None, k), AsNumber(SingleValue(expected), k);
            && (a.Some? && b.Some? ==> holds(Gte) == !holds(Lt) && holds(Lte) == !holds(Gt) && !(holds(Lt) && holds(Gt)))
            && (a.None? || b.None? ==> !holds(Gt) && !holds(Gte) && !holds(Lt) && !holds(Lte))
            && (holds(StartsWith) ==> holds(Contains))
            && (holds(In) <==> exists v :: expected.Some? && expected.value.List? && v in expected.value.items
                                           && EvaluateComparison(field, Eq, Some(Single(v)), facts, k))
  {
    var hay, needle := AsString(if field in facts then Some(facts[field]) else None, k), AsString(SingleValue(expected), k);
    if hay.Some? && needle.Some? && k.lower(needle.value) <= k.lower(hay.value) {
      assert k.lower(hay.value)[0..] == k.lower(hay.value);
    }
    if EvaluateComparison(field, In, expected, facts, k) {
      assert EvaluateComparison(field, Eq, Some(Single(facts[field])), facts, k);
    }
  }

  /** A number, or text that parses as one; a flag is none. */
  predicate ReadsAs(v: Value, x: real, k: Coercions) { v == Number(x) || (v.Text? && k.parse(v.text) == Some(x)) }

  predicate WrittenAs(v: Value, s: string, k: Coercions) {
    v == Text(s) || (v.Number? && s == k.show(v.number)) || (v == Flag(true) && s == "true") || (v == Flag(false) && s == "false")
  }

  predicate Around(hay: string, pre: string, needle: string, post: string) { hay == pre + needle + post }

  /** A fact against a single value: equality is of kind and content; the orderings need two numbers. */
  lemma OperatorsOnValues(field: string, w: Value, facts: Facts, k: Coercions)
    requires field in facts
    ensures var v, holds := facts[field], (op: Operator) => EvaluateComparison(field, op, Some(Single(w)), facts, k);
            && holds(Exists) && (holds(Eq) <==> v == w) && (holds(Neq) <==> v != w) && !holds(In)
            && ((forall x :: !ReadsAs(v, x, k)) || (forall y :: !ReadsAs(w, y, k)) ==>
                  !holds(Gt) && !holds(Gte) && !holds(Lt) && !holds(Lte))
  {
    NumberIs(facts[field], k);
    NumberIs(w, k);
    hide ReadsAs, AsNumber;
  }

  lemma OrderOnNumbers(field: string, w: Value, facts: Facts, k: Coercions, x: real, y: real)
    requires field in facts && ReadsAs(facts[field], x, k) && ReadsAs(w, y, k)
    ensures var holds := (op: Operator) => EvaluateComparison(field, op, Some(Single(w)), facts, k);
            (holds(Gt) <==> x > y) && (holds(Gte) <==> x >= y) && (holds(Lt) <==> x < y) && (holds(Lte) <==> x <= y)
  {
    NumberIs(facts[field], k);
    NumberIs(w, k);
    hide ReadsAs, AsNumber;
  }

  /** Both sides are compared as lower-case text: inside it, or at its start. */
  lemma TextOperators(field: string, w: Value, facts: Facts, k: Coercions, s: string, t: string)
    requires field in facts && WrittenAs(facts[field], s, k) && WrittenAs(w, t, k)
    ensures EvaluateComparison(field, Contains, Some(Single(w)), facts, k) <==> exists pre, post :: Around(k.lower(s), pre, k.lower(t), post)
    ensures EvaluateComparison(field, StartsWith, Some(Single(w)), facts, k) <==> exists post :: Around(k.lower(s), "", k.lower(t), post)
  {
    InsideIsAround(k.lower(t), k.lower(s));
    StartIsAround(k.lower(t), k.lower(s));
    assert AsString(Some(facts[field]), k) == Some(s) && AsString(Some(w), k) == Some(t);
    hide IsInside, Around, WrittenAs, AsString;
  }

  lemma NumberIs(v: Value, k: Coercions)
    ensures forall x :: AsNumber(Some(v), k) == Some(x) <==> ReadsAs(v, x, k)
    ensures AsNumber(Some(v), k).None? <==> forall x :: !ReadsAs(v, x, k)
  {
    if AsNumber(Some(v), k).Some? {
      assert ReadsAs(v, AsNumber(Some(v), k).value, k);
    }
  }

  lemma StartIsAround(needle: string, hay: string)
    ensures needle <= hay <==> exists post :: Around(hay, "", needle, post)
  {
    if needle <= hay {
      assert Around(hay, "", needle, hay[|needle|..]);
    }
  }

  lemma InsideIsAround(needle: string, hay: string)
    ensures IsInside(needle, hay) <==> exists pre, post :: Around(hay, pre, needle, post)
  {
    if IsInside(needle, hay) {
      var i :| 0 <= i <= |hay| && needle <= hay[i..];
      assert hay == hay[..i] + hay[i..];
      assert Around(hay, hay[..i], needle, hay[i..][|needle|..]);
    }
    if pre, post :| Around(hay, pre, needle, post) {
      assert hay == pre + (needle + post);
      assert hay[|pre|..] == needle + post;
    }
  }

  /** Each operator on a fact and a list, and on a fact that is not there. */
  lemma OperatorsOnListsAndAbsence(field: string, expected: Option<Expected>, facts: Facts, k: Coercions)
    ensures var holds := (op: Operator) => EvaluateComparison(field, op, expected, facts, k);
            && (field !in facts ==> !holds(Exists) && (holds(Eq) <==> expected.None?) && (holds(Neq) <==> expected.Some?))
            && (field !in facts || expected.None? || expected.value.List? ==>
                  !holds(Gt) && !holds(Gte) && !holds(Lt) && !holds(Lte) && !holds(Contains) && !holds(StartsWith))
            && (field in facts && expected.Some? && expected.value.List? ==> holds(Exists) && !holds(Eq) && holds(Neq))
            && (holds(In) <==> field in facts && expected.Some? && expected.value.List?
                               && exists i :: 0 <= i < |expected.value.items| && expected.value.items[i] == facts[field])
            && forall name :: !holds(Unknown(name))
  {
  }

  /** Two fact maps look alike on these fields. */
  ghost predicate AgreeOn(fields: set<string>, a: Facts, b: Facts) {
    forall f | f in fields :: (f in a <==> f in b) && (f in a ==> a[f] == b[f])
  }

  /** A rule sees nothing but the facts its condition names. */
  lemma {:induction false} OnlyNamedFactsMatter(c: Condition, a: Facts, b: Facts, k: Coercions)
    requires AgreeOn(Fields(c), a, b)
    ensures EvaluateCondition(c, a, k) == EvaluateCondition(c, b, k)
    decreases c
  {
    match c
    case All(cs) => OnlyNamedFactsMatterIn(cs, a, b, k);
    case AnyOf(cs) => OnlyNamedFactsMatterIn(cs, a, b, k);
    case Not(d) => OnlyNamedFactsMatter(d, a, b, k);
    case Comparison(field, op, expected) => assert field in Fields(c);
  }

  lemma {:induction false} OnlyNamedFactsMatterIn(cs: seq<Condition>, a: Facts, b: Facts, k: Coercions)
    requires AgreeOn(FieldsOf(cs), a, b)
    ensures EveryHolds(cs, a, k) == EveryHolds(cs, b, k) && SomeHolds(cs, a, k) == SomeHolds(cs, b, k)
    decreases cs
  {
    if cs != [] {
      OnlyNamedFactsMatter(cs[0], a, b, k);
      OnlyNamedFactsMatterIn(cs[1..], a, b, k);
    }
  }

  ghost predicate Matches(c: Condition, facts: Facts, k: Coercions) { EvaluateCondition(c, facts, k) }

  /** `all` is a conjunction, true when empty; `any` a disjunction, false when empty. */
  lemma {:induction false} AllAndAny(cs: seq<Condition>, facts: Facts, k: Coercions)
    ensures EvaluateCondition(All(cs), facts, k) <==> forall c | c in cs :: Matches(c, facts, k)
    ensures EvaluateCondition(AnyOf(cs), facts, k) <==> exists c :: c in cs && Matches(c, facts, k)
    decreases cs
  {
    if cs != [] {
      AllAndAny(cs[1..], facts, k);
      assert Matches(cs[0], facts, k) == EvaluateCondition(cs[0], facts, k);
      assert forall c :: c in cs <==> c == cs[0] || c in cs[1..];
      hide Matches;
    }
  }

  function Negations(cs: seq<Condition>): seq<Condition> { seq(|cs|, i requires 0 <= i < |cs| => Not(cs[i])) }

  lemma DeMorgan(cs: seq<Condition>, facts: Facts, k: Coercions)
    ensures EvaluateCondition(Not(All(cs)), facts, k) == EvaluateCondition(AnyOf(Negations(cs)), facts, k)
    ensures EvaluateCondition(Not(AnyOf(cs)), facts, k) == EvaluateCondition(All(Negations(cs)), facts, k)
  {
    NegationsNegate(cs, facts, k);
  }

  lemma {:induction false} NegationsNegate(cs: seq<Condition>, facts: Facts, k: Coercions)
    ensures EveryHolds(cs, facts, k) == !SomeHolds(Negations(cs), facts, k)
    ensures SomeHolds(cs, facts, k) == !EveryHolds(Negations(cs), facts, k)
    decreases cs
  {
    if cs != [] {
      NegationsNegate(cs[1..], facts, k);
      assert Negations(cs)[1..] == Negations(cs[1..]);
      assert Negations(cs)[0] == Not(cs[0]);
    }
  }

  // ---------------------------------------------------------------- rules

  datatype Priority = Low | Normal | High | Urgent

  function PriorityRank(p: Priority): nat {
    match p
    case Low => 0
    case Normal => 1
    case High => 2
    case Urgent => 3
  }

  datatype Actions = Actions(priority: Option<Priority>, tags: Option<seq<string>>, route: Option<string>, flag: Option<bool>)

  datatype Rule = Rule(id: int, enabled: bool, condition: Condition, actions: Actions)

  datatype Firing = Firing(ruleId: int, actions: Actions)

  datatype Evaluation = Evaluation(
    firedRuleIds: seq<int>, priority: Option<Priority>, tags: seq<string>, route: Option<string>, flagged: bool, firings: seq<Firing>)

  const NOTHING := Evaluation([], None, [], None, false, [])

  predicate Fires(rule: Rule, facts: Facts, k: Coercions) { rule.enabled && EvaluateCondition(rule.condition, facts, k) }

  function HigherPriority(a: Option<Priority>, b: Priority): Priority {
    if a.None? then b else if PriorityRank(b) > PriorityRank(a.value) then b else a.value
  }

  /** Adding a list to a `Set`: what is new, in order of first occurrence. */
  function Union(tags: seq<string>, more: seq<string>): seq<string> {
    if more == [] then tags
    else
      var before, last := Union(tags, more[..|more| - 1]), more[|more| - 1];
      if last in before then before else before + [last]
  }

  function TagsOf(actions: Actions): seq<string> { if actions.tags.Some? then actions.tags.value else [] }

  predicate SetsRoute(actions: Actions) { actions.route.Some? && actions.route.value != "" }

  function Applied(e: Evaluation, rule: Rule): Evaluation {
    Evaluation(
      e.firedRuleIds + [rule.id],
      if rule.actions.priority.Some? then Some(HigherPriority(e.priority, rule.actions.priority.value)) else e.priority,
      Union(e.tags, TagsOf(rule.actions)),
      if SetsRoute(rule.actions) then rule.actions.route else e.route,
      e.flagged || rule.actions.flag == Some(true),
      e.firings + [Firing(rule.id, rule.actions)])
  }

  function Evaluate(rules: seq<Rule>, facts: Facts, k: Coercions): Evaluation {
    if rules == [] then NOTHING
    else
      var before, last := Evaluate(rules[..|rules| - 1], facts, k), rules[|rules| - 1];
      if Fires(last, facts, k) then Applied(before, last) else before
  }

  method AddTags(tagSet: seq<string>, tags: seq<string>) returns (more: seq<string>)
    ensures more == Union(tagSet, tags)
  {
    more := tagSet;
    for n := 0 to |tags|
      invariant more == Union(tagSet, tags[..n])
    {
      assert tags[..n + 1][..n] == tags[..n];
      if tags[n] !in more {
        more := more + [tags[n]];
      }
    }
    assert tags[..|tags|] == tags;
  }

  method EvaluateRules(rules: seq<Rule>, facts: Facts, k: Coercions) returns (result: Evaluation)
    ensures result == Evaluate(rules, facts, k)
  {
    hide EvaluateCondition;
    var tagSet: seq<string> := [];
    result := NOTHING;
    for n := 0 to |rules|
      invariant result.(tags := tagSet) == Evaluate(rules[..n], facts, k)
    {
      var rule := rules[n];
      assert rules[..n + 1][..n] == rules[..n];
      if !rule.enabled || !EvaluateCondition(rule.condition, facts, k) {
        continue;
      }
      result := result.(firedRuleIds := result.firedRuleIds + [rule.id]);
      result := result.(firings := result.firings + [Firing(rule.id, rule.actions)]);
      if rule.actions.priority.Some? {
        result := result.(priority := Some(HigherPriority(result.priority, rule.actions.priority.value)));
      }
      tagSet := AddTags(tagSet, if rule.actions.tags.Some? then rule.actions.tags.value else []);
      if rule.actions.route.Some? && rule.actions.route.value != "" {
        result := result.(route := rule.actions.route);
      }
      if rule.actions.flag == Some(true) {
        result := result.(flagged := true);
      }
    }
    assert rules[..|rules|] == rules;
    result := result.(tags := tagSet);
  }

  // ---------------------------------------------------------------- concatenation

  function HigherOf(a: Option<Priority>, b: Option<Priority>): Option<Priority> {
    if b.None? then a else Some(HigherPriority(a, b.value))
  }

  /** Max of the priorities, tag union, the later route, or of the flags, firings appended. */
  function Combine(a: Evaluation, b: Evaluation): Evaluation {
    Evaluation(
      a.firedRuleIds + b.firedRuleIds, HigherOf(a.priority, b.priority), Union(a.tags, b.tags),
      if b.route.Some? then b.route else a.route, a.flagged || b.flagged, a.firings + b.firings)
  }

  lemma {:induction false} UnionMembers(tags: seq<string>, more: seq<string>)
    ensures forall t :: t in Union(tags, more) <==> t in tags || t in more
    ensures AllDistinct(tags) ==> AllDistinct(Union(tags, more))
    decreases more
  {
    if more != [] {
      UnionMembers(tags, more[..|more| - 1]);
      assert more == more[..|more| - 1] + [more[|more| - 1]];
    }
  }

  lemma UnionSnoc(tags: seq<string>, more: seq<string>, t: string)
    ensures Union(tags, more + [t]) == if t in Union(tags, more) then Union(tags, more) else Union(tags, more) + [t]
  {
    assert (more + [t])[..|more|] == more;
  }

  lemma {:induction false} UnionChains(a: seq<string>, b: seq<string>, c: seq<string>)
    ensures Union(Union(a, b), c) == Union(a, Union(b, c))
    decreases c
  {
    if c != [] {
      var init, last := c[..|c| - 1], c[|c| - 1];
      UnionChains(a, b, init);
      UnionMembers(b, init);
      UnionMembers(a, Union(b, init));
      UnionSnoc(a, Union(b, init), last);
    }
  }

  lemma CombineApplied(a: Evaluation, b: Evaluation, rule: Rule)
    ensures Combine(a, Applied(b, rule)) == Applied(Combine(a, b), rule)
  {
    UnionChains(a.tags, b.tags, TagsOf(rule.actions));
    assert a.firedRuleIds + (b.firedRuleIds + [rule.id]) == a.firedRuleIds + b.firedRuleIds + [rule.id];
    assert a.firings + (b.firings + [Firing(rule.id, rule.actions)]) == a.firings + b.firings + [Firing(rule.id, rule.actions)];
    hide Union;
  }

  lemma CombineNothing(a: Evaluation)
    ensures Combine(a, NOTHING) == a
  {
  }

  /** Evaluating a concatenated rule list is combining the evaluations of its two parts. */
  lemma {:induction false} EvaluateConcat(a: seq<Rule>, b: seq<Rule>, facts: Facts, k: Coercions)
    ensures Evaluate(a + b, facts, k) == Combine(Evaluate(a, facts, k), Evaluate(b, facts, k))
    decreases b
  {
    if b == [] {
      assert a + b == a;
      CombineNothing(Evaluate(a, facts, k));
    } else {
      var init, last := b[..|b| - 1], b[|b| - 1];
      assert (a + b)[..|a + b| - 1] == a + init;
      EvaluateConcat(a, init, facts, k);
      CombineApplied(Evaluate(a, facts, k), Evaluate(init, facts, k), last);
      hide Combine, Applied, Fires;
    }
  }

  // ---------------------------------------------------------------- what the order of rules can change

  ghost predicate FiresWith(rules: seq<Rule>, facts: Facts, k: Coercions, p: Priority) {
    exists r :: r in rules && Fires(r, facts, k) && r.actions.priority == Some(p)
  }

  ghost predicate FiresTag(rules: seq<Rule>, facts: Facts, k: Coercions, t: string) {
    exists r :: r in rules && Fires(r, facts, k) && t in TagsOf(r.actions)
  }

  ghost predicate FiresFlag(rules: seq<Rule>, facts: Facts, k: Coercions) {
    exists r :: r in rules && Fires(r, facts, k) && r.actions.flag == Some(true)
  }

  lemma LastFires(rules: seq<Rule>, facts: Facts, k: Coercions)
    requires rules != []
    ensures var init, last := rules[..|rules| - 1], rules[|rules| - 1];
            && (forall p :: FiresWith(rules, facts, k, p)
                  <==> FiresWith(init, facts, k, p) || (Fires(last, facts, k) && last.actions.priority == Some(p)))
            && (forall t :: FiresTag(rules, facts, k, t)
                  <==> FiresTag(init, facts, k, t) || (Fires(last, facts, k) && t in TagsOf(last.actions)))
            && (FiresFlag(rules, facts, k) <==> FiresFlag(init, facts, k) || (Fires(last, facts, k) && last.actions.flag == Some(true)))
  {
    var init, last := rules[..|rules| - 1], rules[|rules| - 1];
    hide Fires, TagsOf;
    assert rules == init + [last];
    assert forall r :: r in rules <==> r in init || r == last;
  }

  /** The priority is the highest among the firing rules, the tags are theirs, each once, and the flag is any of theirs. */
  lemma {:induction false} EvaluationMeans(rules: seq<Rule>, facts: Facts, k: Coercions)
    ensures var e := Evaluate(rules, facts, k);
            && (e.priority.Some? ==> FiresWith(rules, facts, k, e.priority.value))
            && (forall p | FiresWith(rules, facts, k, p) :: e.priority.Some? && PriorityRank(p) <= PriorityRank(e.priority.value))
            && (forall t :: t in e.tags <==> FiresTag(rules, facts, k, t))
            && AllDistinct(e.tags)
            && (e.flagged <==> FiresFlag(rules, facts, k))
    decreases rules
  {
    if rules != [] {
      var init, last := rules[..|rules| - 1], rules[|rules| - 1];
      EvaluationMeans(init, facts, k);
      LastFires(rules, facts, k);
      UnionMembers(Evaluate(init, facts, k).tags, TagsOf(last.actions));
      hide FiresWith, FiresTag, FiresFlag, Fires, Union;
    }
  }

  /** Priority, tag set and flag depend only on which rules there are, not on their order or repetition. */
  lemma OrderIrrelevant(a: seq<Rule>, b: seq<Rule>, facts: Facts, k: Coercions)
    requires forall r :: r in a <==> r in b
    ensures var x, y := Evaluate(a, facts, k), Evaluate(b, facts, k);
            x.priority == y.priority && x.flagged == y.flagged && forall t :: t in x.tags <==> t in y.tags
  {
    EvaluationMeans(a, facts, k);
    EvaluationMeans(b, facts, k);
    forall p
      ensures FiresWith(a, facts, k, p) <==> FiresWith(b, facts, k, p)
    {
    }
    forall t
      ensures FiresTag(a, facts, k, t) <==> FiresTag(b, facts, k, t)
    {
    }
    assert FiresFlag(a, facts, k) <==> FiresFlag(b, facts, k);
    hide FiresWith, FiresTag, FiresFlag, Evaluate;
    var x, y := Evaluate(a, facts, k).priority, Evaluate(b, facts, k).priority;
    if x.Some? && y.Some? {
      assert PriorityRank(x.value) == PriorityRank(y.value);
    }
  }

  /** The route is the last non-empty one, so swapping two rules that set different routes changes it. */
  lemma RouteDependsOnOrder(a: Rule, b: Rule, facts: Facts, k: Coercions)
    requires Fires(a, facts, k) && Fires(b, facts, k) && SetsRoute(a.actions) && SetsRoute(b.actions)
    ensures Evaluate([a, b], facts, k).route == b.actions.route && Evaluate([b, a], facts, k).route == a.actions.route
  {
    hide Fires;
    assert [a, b][..1] == [a] && [b, a][..1] == [b] && [a][..0] == [] && [b][..0] == [];
  }

  /** The firings are the rules that fire, in order, with their ids. */
  lemma {:induction false} FiringsAreFired(rules: seq<Rule>, facts: Facts, k: Coercions, fires: Rule -> bool)
    requires forall r | r in rules :: fires(r) == Fires(r, facts, k)
    ensures var e, fired := Evaluate(rules, facts, k), Filter(rules, fires);
            && |e.firings| == |e.firedRuleIds| == |fired|
            && forall i | 0 <= i < |fired| :: e.firings[i] == Firing(fired[i].id, fired[i].actions) && e.firedRuleIds[i] == fired[i].id
    decreases rules
  {
    if rules != [] {
      var init, last := rules[..|rules| - 1], rules[|rules| - 1];
      assert rules == init + [last];
      FiringsAreFired(init, facts, k, fires);
      FilterSnoc(init, last, fires);
      hide Filter, Fires, Union;
    }
  }

  /** A rule at the end of the list counts exactly if it is enabled and its condition holds. */
  lemma LastRuleCounts(rules: seq<Rule>, r: Rule, facts: Facts, k: Coercions)
    ensures var before, after := Evaluate(rules, facts, k), Evaluate(rules + [r], facts, k);
            if r.enabled && Matches(r.condition, facts, k) then after.firedRuleIds == before.firedRuleIds + [r.id] else after == before
  {
    assert (rules + [r])[..|rules|] == rules;
    hide EvaluateCondition;
  }

  /** Urgent beats high, high beats normal, normal beats low; without a priority from any firing rule there is none. */
  lemma UrgencyWins(rules: seq<Rule>, facts: Facts, k: Coercions)
    ensures var p, fires := Evaluate(rules, facts, k).priority, (q: Priority) => FiresWith(rules, facts, k, q);
            && (p == Some(Urgent) <==> fires(Urgent))
            && (p == Some(High) <==> fires(High) && !fires(Urgent))
            && (p == Some(Normal) <==> fires(Normal) && !fires(High) && !fires(Urgent))
            && (p == Some(Low) <==> fires(Low) && !fires(Normal) && !fires(High) && !fires(Urgent))
  {
    EvaluationMeans(rules, facts, k);
    hide FiresWith, Evaluate;
  }

  /** The rule fires and names a route. */
  ghost predicate Routes(r: Rule, route: string, facts: Facts, k: Coercions) {
    r.enabled && Matches(r.condition, facts, k) && r.actions.route == Some(route) && route != ""
  }

  /** The route is that of the last firing rule that names one. */
  lemma {:induction false} RouteIsLast(rules: seq<Rule>, facts: Facts, k: Coercions)
    ensures var route := Evaluate(rules, facts, k).route;
            && (route.None? ==> forall i, x | 0 <= i < |rules| :: !Routes(rules[i], x, facts, k))
            && (route.Some? ==> exists i :: 0 <= i < |rules| && Routes(rules[i], route.value, facts, k)
                                            && forall j, x | i < j < |rules| :: !Routes(rules[j], x, facts, k))
    decreases rules
  {
    if rules != [] {
      var n := |rules| - 1;
      var init, last := rules[..n], rules[n];
      RouteIsLast(init, facts, k);
      var route := Evaluate(init, facts, k).route;
      assert rules == init + [last];
      assert forall i | 0 <= i < n :: init[i] == rules[i];
      if Fires(last, facts, k) && SetsRoute(last.actions) {
        assert Routes(rules[n], last.actions.route.value, facts, k);
        assert Evaluate(rules, facts, k).route == last.actions.route;
      } else {
        assert Evaluate(rules, facts, k).route == route;
        assert forall x :: !Routes(rules[n], x, facts, k);
        hide Routes, Evaluate;
        if route.Some? {
          var i :| 0 <= i < n && Routes(init[i], route.value, facts, k) && forall j, x | i < j < n :: !Routes(init[j], x, facts, k);
          assert Routes(rules[i], route.value, facts, k);
        }
      }
    }
  }
}
