/** The preflight walk over a GraphQL operation and its fragment graph, and the
    expanded operation it measures without ever building it. */
module GraphQLInspector {
  import opened Keyset

  const MAX_DEPTH := 12
  const MAX_FIELDS := 200
  const MAX_COST := 1000
  const MAX_NAME := 64

  // ---------- documents ----------

  datatype Value = IntValue(raw: string) | Variable(name: string) | OtherValue

  datatype Selection =
    | Field(name: string, first: Option<Value>, sub: seq<Selection>)
    | Inline(sub: seq<Selection>)
    | Spread(name: string)

  type Document = map<string, seq<Selection>>

  /** A variable's JSON value: a string, null, or any other value's text. */
  datatype Json = JString(text: string) | JNull | JOther(text: string)

  datatype Params = Params(variables: map<string, Json>, defaults: map<string, Option<Value>>, development: bool)

  // ---------- the page size of a connection ----------

  predicate AllDigits(s: string) { forall i :: 0 <= i < |s| ==> '0' <= s[i] <= '9' }

  function Number(s: string): (n: int)
    requires AllDigits(s)
    ensures n >= 0
  {
    if s == [] then 0 else 10 * Number(s[..|s| - 1]) + (s[|s| - 1] as int - '0' as int)
  }

  /** Decimal text with an optional sign. Values beyond the machine's range fail
      in the original; they are outside 1..100 either way. */
  function Atoi(s: string): Option<int> {
    var digits := if s != [] && (s[0] == '-' || s[0] == '+') then s[1..] else s;
    if digits == [] || !AllDigits(digits) then None
    else Some(if s[0] == '-' then -Number(digits) else Number(digits))
  }

  function RawSize(p: Params, v: Value): Option<string> {
    match v
    case IntValue(raw) => Some(raw)
    case OtherValue => None
    case Variable(name) =>
      if name in p.variables then
        Some(match p.variables[name] case JString(text) => text case JNull => "" case JOther(text) => text)
      else if name in p.defaults && p.defaults[name].Some? && p.defaults[name].value.IntValue? then
        Some(p.defaults[name].value.raw)
      else None
  }

  /** The page size an argument asks for, if it is between 1 and 100. */
  function PageSize(p: Params, v: Value): (size: Option<int>)
    ensures size.Some? ==> 1 <= size.value <= 100
  {
    var raw := RawSize(p, v);
    if raw.None? then None
    else
      var n := Atoi(raw.value);
      if n.None? || n.value < 1 || n.value > 100 then None else n
  }

  predicate Connection(name: string) {
    name in {"subjects", "sessions", "providerConnections", "customProviders", "syncJobs"}
  }

  predicate Introspective(name: string) { name == "__schema" || name == "__type" }

  /** A field the walk does not refuse for what it is. */
  predicate Allowed(p: Params, f: Selection)
    requires f.Field?
  {
    && (p.development || !Introspective(f.name))
    && (Connection(f.name) && f.first.Some? ==> PageSize(p, f.first.value).Some?)
  }

  /** The cost one field adds, given the multiplier above it. */
  function Weight(p: Params, f: Selection, multiplier: int): (w: int)
    requires f.Field? && multiplier >= 1
    ensures w >= multiplier
  {
    var w := if f.name == "activitySnapshot" then multiplier * 100 else multiplier;
    var size :=
      if !Connection(f.name) then 1
      else if f.first.None? then 100
      else if PageSize(p, f.first.value).Some? then PageSize(p, f.first.value).value else 1;
    Grows(w, size);
    w * size
  }

  lemma Grows(w: int, size: int)
    requires w >= 0 && size >= 1
    ensures w * size >= w
  {
  }

  // ---------- the walk ----------

  datatype Verdict = Accepted | TooDeep | Introspection | TooManyFields | BadPageSize | TooCostly | Cyclic | Unknown

  /** The inspector's counters. */
  datatype Meter = Meter(fields: int, roots: int, cost: int, depth: int)

  datatype Outcome = Outcome(verdict: Verdict, meter: Meter)

  function Max(a: int, b: int): int { if a < b then b else a }

  /** What counting one field does, before its own selections are walked. */
  function Enter(p: Params, f: Selection, depth: int, multiplier: int, root: bool, m: Meter): Outcome
    requires f.Field? && multiplier >= 1
  {
    var m1 := if root then m.(roots := m.roots + 1) else m;
    if !p.development && Introspective(f.name) then Outcome(Introspection, m1)
    else
      var m2 := m1.(fields := m1.fields + 1);
      if m2.fields > MAX_FIELDS then Outcome(TooManyFields, m2)
      else
        var m3 := m2.(depth := Max(m2.depth, depth));
        if !Allowed(p, f) then Outcome(BadPageSize, m3)
        else
          var w := Weight(p, f, multiplier);
          var m4 := m3.(cost := m3.cost + w);
          Outcome(if m4.cost > MAX_COST || w > MAX_COST then TooCostly else Accepted, m4)
  }

  /** The walk as a function of the document; visiting holds the open fragments. */
  function Walked(d: Document, p: Params, s: seq<Selection>, depth: int, multiplier: int,
                  visiting: set<string>, root: bool, m: Meter): Outcome
    requires multiplier >= 1
    decreases d.Keys - visiting, s, 1
  {
    if depth > MAX_DEPTH then Outcome(TooDeep, m)
    else WalkedList(d, p, s, depth, multiplier, visiting, root, m)
  }

  function WalkedList(d: Document, p: Params, s: seq<Selection>, depth: int, multiplier: int,
                      visiting: set<string>, root: bool, m: Meter): Outcome
    requires multiplier >= 1
    decreases d.Keys - visiting, s, 0
  {
    if s == [] then Outcome(Accepted, m)
    else
      var first := WalkedOne(d, p, s[0], depth, multiplier, visiting, root, m);
      if first.verdict != Accepted then first
      else WalkedList(d, p, s[1..], depth, multiplier, visiting, root, first.meter)
  }

  function WalkedOne(d: Document, p: Params, item: Selection, depth: int, multiplier: int,
                     visiting: set<string>, root: bool, m: Meter): Outcome
    requires multiplier >= 1
    decreases d.Keys - visiting, item, 0
  {
    match item
    case Field(_, _, sub) =>
      var entered := Enter(p, item, depth, multiplier, root, m);
      if entered.verdict != Accepted then entered
      else Walked(d, p, sub, depth + 1, Weight(p, item, multiplier), visiting, false, entered.meter)
    case Inline(sub) => Walked(d, p, sub, depth, multiplier, visiting, root, m)
    case Spread(name) =>
      if name in visiting then Outcome(Cyclic, m)
      else if name !in d then Outcome(Unknown, m)
      else
        assert name in d.Keys - visiting && name !in d.Keys - (visiting + {name});
        Walked(d, p, d[name], depth + 1, multiplier, visiting + {name}, root, m)
  }

  class Inspector {
    const document: Document
    const params: Params
    var fields: int
    var rootFields: int
    var cost: int
    var depth: int
    /** The open fragments: one map shared by the whole recursion. */
    var visiting: set<string>

    constructor (document: Document, params: Params)
      ensures this.document == document && this.params == params
      ensures Counters() == Meter(0, 0, 0, 0) && visiting == {}
    {
      this.document, this.params := document, params;
      fields, rootFields, cost, depth, visiting := 0, 0, 0, 0, {};
    }

    function Counters(): Meter reads this { Meter(fields, rootFields, cost, depth) }

    /** Counting one field: every check that comes before its own selections. */
    method CountField(item: Selection, level: int, multiplier: int, root: bool) returns (verdict: Verdict, weight: int)
      requires item.Field? && multiplier >= 1
      modifies this`fields, this`rootFields, this`cost, this`depth
      ensures Outcome(verdict, Counters()) == Enter(params, item, level, multiplier, root, old(Counters()))
      ensures verdict == Accepted ==> weight == Weight(params, item, multiplier)
    {
      weight := multiplier;
      if root { rootFields := rootFields + 1; }
      if !params.development && Introspective(item.name) { return Introspection, weight; }
      fields := fields + 1;
      if fields > MAX_FIELDS { return TooManyFields, weight; }
      if level > depth { depth := level; }
      if item.name == "activitySnapshot" { weight := weight * 100; }
      if Connection(item.name) {
        var size := 100;
        if item.first.Some? {
          var asked := PageSize(params, item.first.value);
          if asked.None? { return BadPageSize, weight; }
          size := asked.value;
        }
        weight := weight * size;
      }
      cost := cost + weight;
      if cost > MAX_COST || weight > MAX_COST { return TooCostly, weight; }
      return Accepted, weight;
    }

    method Walk(selections: seq<Selection>, level: int, multiplier: int, root: bool) returns (verdict: Verdict)
      requires multiplier >= 1
      modifies this
      ensures visiting == old(visiting)
      ensures Outcome(verdict, Counters())
           == Walked(document, params, selections, level, multiplier, old(visiting), root, old(Counters()))
      decreases document.Keys - visiting, selections
    {
      hide Enter, Weight;
      if level > MAX_DEPTH { return TooDeep; }
      ghost var whole := WalkedList(document, params, selections, level, multiplier, visiting, root, Counters());
      for i := 0 to |selections|
        invariant visiting == old(visiting)
        invariant whole == WalkedList(document, params, selections[i..], level, multiplier, visiting, root, Counters())
      {
        var item := selections[i];
        assert selections[i..][0] == item && selections[i..][1..] == selections[i + 1..];
        match item
        case Field(name, first, sub) =>
          var entered, weight := CountField(item, level, multiplier, root);
          if entered != Accepted { return entered; }
          verdict := Walk(sub, level + 1, weight, false);
          if verdict != Accepted { return; }
        case Inline(sub) =>
          verdict := Walk(sub, level, multiplier, root);
          if verdict != Accepted { return; }
        case Spread(name) =>
          if name in visiting { return Cyclic; }
          if name !in document { return Unknown; }
          assert name in document.Keys - visiting && name !in document.Keys - (visiting + {name});
          visiting := visiting + {name};
          verdict := Walk(document[name], level + 1, multiplier, root);
          visiting := visiting - {name};
          if verdict != Accepted { return; }
      }
      verdict := Accepted;
    }
  }

  // ---------- the expanded operation ----------

  /** A selection set with every spread replaced by its fragment's selections. A
      group stands for an inline fragment (lift 0) or a spread (lift 1). */
  datatype Tree = Node(field: Selection, kids: seq<Tree>) | Group(lift: int, kids: seq<Tree>)

  ghost predicate Expands(d: Document, s: seq<Selection>, t: seq<Tree>)
    decreases t
  {
    |s| == |t| && (s != [] ==> ExpandsOne(d, s[0], t[0]) && Expands(d, s[1..], t[1..]))
  }

  ghost predicate ExpandsOne(d: Document, item: Selection, t: Tree)
    decreases t
  {
    match item
    case Field(_, _, sub) => t.Node? && t.field == item && Expands(d, sub, t.kids)
    case Inline(sub) => t.Group? && t.lift == 0 && Expands(d, sub, t.kids)
    case Spread(name) => t.Group? && t.lift == 1 && name in d && Expands(d, d[name], t.kids)
  }

  /** How many fields the expansion has. */
  ghost function Fields(t: seq<Tree>): (n: int)
    ensures n >= 0
  {
    if t == [] then 0 else (if t[0].Node? then 1 else 0) + Fields(t[0].kids) + Fields(t[1..])
  }

  /** How many of them are root fields. */
  ghost function Roots(t: seq<Tree>): (n: int)
    ensures n >= 0
  {
    if t == [] then 0 else (if t[0].Node? then 1 else Roots(t[0].kids)) + Roots(t[1..])
  }

  /** The sum of all field weights, each under the weights above it. */
  ghost function Cost(p: Params, t: seq<Tree>, multiplier: int): (n: int)
    requires multiplier >= 1 && AreFields(t)
    ensures n >= 0
    decreases t
  {
    if t == [] then 0
    else
      var here := if t[0].Node? then Weight(p, t[0].field, multiplier) else 0;
      here + Cost(p, t[0].kids, if t[0].Node? then here else multiplier) + Cost(p, t[1..], multiplier)
  }

  /** The deepest level at which a field stands. */
  ghost function Height(t: seq<Tree>, depth: int): (n: int)
    ensures n >= 0
    decreases t
  {
    if t == [] then 0
    else
      Max(Max(if t[0].Node? then depth else 0, Height(t[0].kids, if t[0].Node? then depth + 1 else depth + t[0].lift)),
          Height(t[1..], depth))
  }

  /** The deepest level at which a selection set, perhaps an empty one, is entered. */
  ghost function Reach(t: seq<Tree>, depth: int): (n: int)
    ensures n >= depth
    decreases t
  {
    if t == [] then depth
    else Max(Reach(t[0].kids, if t[0].Node? then depth + 1 else depth + t[0].lift), Reach(t[1..], depth))
  }

  ghost predicate AreFields(t: seq<Tree>) {
    t != [] ==> (t[0].Node? ==> t[0].field.Field?) && AreFields(t[0].kids) && AreFields(t[1..])
  }

  /** Every field, wherever it stands, is allowed. */
  ghost predicate AllAllowed(p: Params, t: seq<Tree>) {
    t != [] ==>
      && (t[0].Node? ==> t[0].field.Field? && Allowed(p, t[0].field))
      && AllAllowed(p, t[0].kids) && AllAllowed(p, t[1..])
  }

  /** An expansion within all limits, counted on top of m. */
  ghost predicate Fits(p: Params, t: seq<Tree>, depth: int, multiplier: int, m: Meter)
    requires multiplier >= 1 && AreFields(t)
  {
    && AllAllowed(p, t)
    && m.fields + Fields(t) <= MAX_FIELDS
    && m.cost + Cost(p, t, multiplier) <= MAX_COST
    && Reach(t, depth) <= MAX_DEPTH
  }

  ghost function Total(p: Params, t: seq<Tree>, depth: int, multiplier: int, root: bool, m: Meter): Meter
    requires multiplier >= 1 && AreFields(t)
  {
    Meter(m.fields + Fields(t), m.roots + (if root then Roots(t) else 0),
          m.cost + Cost(p, t, multiplier), Max(m.depth, Height(t, depth)))
  }

  /** There is at most one expansion. */
  lemma {:induction false} ExpansionIsUnique(d: Document, s: seq<Selection>, t: seq<Tree>, u: seq<Tree>)
    requires Expands(d, s, t) && Expands(d, s, u)
    ensures t == u
    decreases t
  {
    if s != [] {
      match s[0] {
        case Field(_, _, sub) => ExpansionIsUnique(d, sub, t[0].kids, u[0].kids);
        case Inline(sub) => ExpansionIsUnique(d, sub, t[0].kids, u[0].kids);
        case Spread(name) => ExpansionIsUnique(d, d[name], t[0].kids, u[0].kids);
      }
      ExpansionIsUnique(d, s[1..], t[1..], u[1..]);
      assert t == [t[0]] + t[1..] && u == [u[0]] + u[1..];
    }
  }

  ghost function Size(t: seq<Tree>): (n: int)
    ensures n >= 0
  {
    if t == [] then 0 else 1 + Size(t[0].kids) + Size(t[1..])
  }

  /** A field is never entered deeper than one level above the limit. */
  lemma {:induction false} HeightBelowReach(t: seq<Tree>, depth: int)
    requires depth >= 0 && forall i :: 0 <= i < |t| ==> Lifts(t[i])
    ensures Height(t, depth) > 0 ==> Height(t, depth) < Reach(t, depth)
    decreases t
  {
    if t != [] {
      HeightBelowReach(t[0].kids, if t[0].Node? then depth + 1 else depth + t[0].lift);
      HeightBelowReach(t[1..], depth);
    }
  }

  ghost predicate Lifts(t: Tree) {
    (t.Group? ==> t.lift == 0 || t.lift == 1) && forall i :: 0 <= i < |t.kids| ==> Lifts(t.kids[i])
  }

  // ---------- the walk measures the expansion ----------

  /** An accepted walk has an expansion, within the limits, and has measured it. */
  lemma {:induction false} AcceptedExpands(d: Document, p: Params, s: seq<Selection>, depth: int, multiplier: int,
                                           visiting: set<string>, root: bool, m: Meter) returns (t: seq<Tree>)
    requires multiplier >= 1 && m.depth >= 0 && m.cost >= 0
    requires m.fields <= MAX_FIELDS && m.cost <= MAX_COST
    requires Walked(d, p, s, depth, multiplier, visiting, root, m).verdict == Accepted
    ensures Expands(d, s, t) && AreFields(t) && Fits(p, t, depth, multiplier, m)
    ensures Walked(d, p, s, depth, multiplier, visiting, root, m).meter == Total(p, t, depth, multiplier, root, m)
    decreases d.Keys - visiting, s, 1
  {
    t := AcceptedListExpands(d, p, s, depth, multiplier, visiting, root, m);
  }

  lemma {:induction false} AcceptedListExpands(d: Document, p: Params, s: seq<Selection>, depth: int, multiplier: int,
                                               visiting: set<string>, root: bool, m: Meter) returns (t: seq<Tree>)
    requires multiplier >= 1 && m.depth >= 0 && m.cost >= 0 && depth <= MAX_DEPTH
    requires m.fields <= MAX_FIELDS && m.cost <= MAX_COST
    requires WalkedList(d, p, s, depth, multiplier, visiting, root, m).verdict == Accepted
    ensures Expands(d, s, t) && AreFields(t) && Fits(p, t, depth, multiplier, m)
    ensures WalkedList(d, p, s, depth, multiplier, visiting, root, m).meter == Total(p, t, depth, multiplier, root, m)
    decreases d.Keys - visiting, s, 0
  {
    hide WalkedOne, Fits, Total, ExpandsOne;
    if s == [] {
      t := [];
      NothingFits(p, depth, multiplier, root, m);
    } else {
      var head := AcceptedOneExpands(d, p, s[0], depth, multiplier, visiting, root, m);
      var m' := Total(p, [head], depth, multiplier, root, m);
      FitsGrows(p, [head], depth, multiplier, root, m);
      var rest := AcceptedListExpands(d, p, s[1..], depth, multiplier, visiting, root, m');
      t := [head] + rest;
      assert t[0] == head && t[1..] == rest;
      ListMeasures(p, t, depth, multiplier, root, m);
    }
  }

  lemma {:induction false} AcceptedOneExpands(d: Document, p: Params, item: Selection, depth: int, multiplier: int,
                                              visiting: set<string>, root: bool, m: Meter) returns (t: Tree)
    requires multiplier >= 1 && m.depth >= 0 && m.cost >= 0 && depth <= MAX_DEPTH
    requires m.fields <= MAX_FIELDS && m.cost <= MAX_COST
    requires WalkedOne(d, p, item, depth, multiplier, visiting, root, m).verdict == Accepted
    ensures ExpandsOne(d, item, t) && AreFields([t]) && Fits(p, [t], depth, multiplier, m)
    ensures WalkedOne(d, p, item, depth, multiplier, visiting, root, m).meter
         == Total(p, [t], depth, multiplier, root, m)
    decreases d.Keys - visiting, item, 0
  {
    hide Walked, Fits, Total, Weight, Enter, Expands;
    match item {
      case Field(_, _, sub) =>
        var entered := Enter(p, item, depth, multiplier, root, m);
        EnteredWithin(p, item, depth, multiplier, root, m);
        var kids := AcceptedExpands(d, p, sub, depth + 1, Weight(p, item, multiplier), visiting, false, entered.meter);
        t := Node(item, kids);
        NodeMeasures(p, item, kids, depth, multiplier, root, m);
      case Inline(sub) =>
        var kids := AcceptedExpands(d, p, sub, depth, multiplier, visiting, root, m);
        t := Group(0, kids);
        GroupMeasures(p, 0, kids, depth, multiplier, root, m);
      case Spread(name) =>
        assert name in d.Keys - visiting && name !in d.Keys - (visiting + {name});
        var kids := AcceptedExpands(d, p, d[name], depth + 1, multiplier, visiting + {name}, root, m);
        t := Group(1, kids);
        GroupMeasures(p, 1, kids, depth, multiplier, root, m);
    }
  }

  lemma NothingFits(p: Params, depth: int, multiplier: int, root: bool, m: Meter)
    requires multiplier >= 1 && m.depth >= 0
    ensures Fits(p, [], depth, multiplier, m) <==> m.fields <= MAX_FIELDS && m.cost <= MAX_COST && depth <= MAX_DEPTH
    ensures Total(p, [], depth, multiplier, root, m) == m
  {
  }

  /** Counters that fit stay within the limits. */
  lemma FitsGrows(p: Params, t: seq<Tree>, depth: int, multiplier: int, root: bool, m: Meter)
    requires multiplier >= 1 && AreFields(t)
    ensures var n := Total(p, t, depth, multiplier, root, m);
            && n.fields >= m.fields && n.cost >= m.cost && n.depth >= m.depth
            && (Fits(p, t, depth, multiplier, m) ==> n.fields <= MAX_FIELDS && n.cost <= MAX_COST)
  {
  }

  /** Counting a list is counting its head and then its tail. */
  lemma ListMeasures(p: Params, t: seq<Tree>, depth: int, multiplier: int, root: bool, m: Meter)
    requires multiplier >= 1 && m.depth >= 0 && t != [] && AreFields([t[0]]) && AreFields(t[1..])
    ensures AreFields(t)
    ensures var m' := Total(p, [t[0]], depth, multiplier, root, m);
            && Total(p, t, depth, multiplier, root, m) == Total(p, t[1..], depth, multiplier, root, m')
            && (Fits(p, t, depth, multiplier, m) <==>
                  Fits(p, [t[0]], depth, multiplier, m) && Fits(p, t[1..], depth, multiplier, m'))
  {
    hide Weight, Allowed;
    var h := [t[0]];
    assert h[1..] == [];
    assert Fields(t) == Fields(h) + Fields(t[1..]);
    assert Roots(t) == Roots(h) + Roots(t[1..]);
    assert Cost(p, t, multiplier) == Cost(p, h, multiplier) + Cost(p, t[1..], multiplier);
    assert Height(t, depth) == Max(Height(h, depth), Height(t[1..], depth));
    assert Reach(t, depth) == Max(Reach(h, depth), Reach(t[1..], depth));
    assert AllAllowed(p, t) == (AllAllowed(p, h) && AllAllowed(p, t[1..]));
  }

  lemma EnteredWithin(p: Params, f: Selection, depth: int, multiplier: int, root: bool, m: Meter)
    requires f.Field? && multiplier >= 1 && m.depth >= 0
    ensures var e := Enter(p, f, depth, multiplier, root, m);
            && e.meter.depth >= 0 && (m.cost >= 0 ==> e.meter.cost >= 0)
            && (e.verdict == Accepted ==> e.meter.fields <= MAX_FIELDS && e.meter.cost <= MAX_COST)
  {
    hide Weight, Allowed;
  }

  /** Counting a field is entering it and then counting its selections. */
  lemma NodeMeasures(p: Params, f: Selection, kids: seq<Tree>, depth: int, multiplier: int, root: bool, m: Meter)
    requires f.Field? && multiplier >= 1 && m.depth >= 0 && m.cost >= 0 && AreFields(kids)
    ensures AreFields([Node(f, kids)])
    ensures var e := Enter(p, f, depth, multiplier, root, m);
            && (e.verdict == Accepted ==>
                  (Total(p, [Node(f, kids)], depth, multiplier, root, m)
                == Total(p, kids, depth + 1, Weight(p, f, multiplier), false, e.meter)))
            && (Fits(p, [Node(f, kids)], depth, multiplier, m) <==>
                  e.verdict == Accepted && Fits(p, kids, depth + 1, Weight(p, f, multiplier), e.meter))
  {
    hide Weight;
    var t := [Node(f, kids)];
    var w := Weight(p, f, multiplier);
    assert t[1..] == [] && t[0].kids == kids;
    assert Fields(t) == 1 + Fields(kids) && Roots(t) == 1;
    assert Cost(p, t, multiplier) == w + Cost(p, kids, w);
    assert Height(t, depth) == Max(Max(depth, Height(kids, depth + 1)), 0);
    assert Reach(t, depth) == Reach(kids, depth + 1);
    assert AllAllowed(p, t) == (Allowed(p, f) && AllAllowed(p, kids));
  }

  lemma GroupMeasures(p: Params, lift: int, kids: seq<Tree>, depth: int, multiplier: int, root: bool, m: Meter)
    requires multiplier >= 1 && m.depth >= 0 && AreFields(kids) && lift >= 0
    ensures AreFields([Group(lift, kids)])
    ensures Total(p, [Group(lift, kids)], depth, multiplier, root, m) == Total(p, kids, depth + lift, multiplier, root, m)
    ensures Fits(p, [Group(lift, kids)], depth, multiplier, m) <==> Fits(p, kids, depth + lift, multiplier, m)
  {
    hide Weight, Allowed;
    var t := [Group(lift, kids)];
    assert t[1..] == [] && t[0].kids == kids;
    assert Fields(t) == Fields(kids) && Roots(t) == Roots(kids);
    assert Cost(p, t, multiplier) == Cost(p, kids, multiplier);
    assert Height(t, depth) == Max(Max(0, Height(kids, depth + lift)), 0);
    assert Reach(t, depth) == Reach(kids, depth + lift);
    assert AllAllowed(p, t) == AllAllowed(p, kids);
  }

  /** Every open fragment expands to something at least as large as what is being walked. */
  ghost predicate Enclosed(d: Document, visiting: set<string>, n: int) {
    forall name, u :: name in visiting && name in d && Expands(d, d[name], u) ==> Size(u) >= n
  }

  lemma EnclosedShrinks(d: Document, visiting: set<string>, n: int, k: int)
    requires Enclosed(d, visiting, n) && k <= n
    ensures Enclosed(d, visiting, k)
  {
  }

  /** Entering a fragment that is not open keeps the open ones enclosing. */
  lemma EnclosedBySpread(d: Document, visiting: set<string>, name: string, kids: seq<Tree>, n: int)
    requires Enclosed(d, visiting, n) && name in d && Expands(d, d[name], kids) && Size(kids) < n
    ensures name !in visiting
    ensures Enclosed(d, visiting + {name}, Size(kids))
  {
    hide Expands;
    forall x, u | x in visiting + {name} && x in d && Expands(d, d[x], u) ensures Size(u) >= Size(kids) {
      if x == name { ExpansionIsUnique(d, d[name], u, kids); }
    }
  }

  /** An operation with an expansion within the limits is accepted and measured:
      in particular no fragment it uses is cyclic or unknown. */
  lemma {:induction false} FittingIsAccepted(d: Document, p: Params, s: seq<Selection>, t: seq<Tree>, depth: int,
                                             multiplier: int, visiting: set<string>, root: bool, m: Meter)
    requires multiplier >= 1 && m.depth >= 0 && m.cost >= 0
    requires Expands(d, s, t) && AreFields(t) && Fits(p, t, depth, multiplier, m) && Enclosed(d, visiting, Size(t))
    ensures Walked(d, p, s, depth, multiplier, visiting, root, m)
         == Outcome(Accepted, Total(p, t, depth, multiplier, root, m))
    decreases t, 1
  {
    hide WalkedList, Total, Expands, Enclosed, AllAllowed, Cost;
    FittingListIsAccepted(d, p, s, t, depth, multiplier, visiting, root, m);
  }

  lemma {:induction false} FittingListIsAccepted(d: Document, p: Params, s: seq<Selection>, t: seq<Tree>, depth: int,
                                                 multiplier: int, visiting: set<string>, root: bool, m: Meter)
    requires multiplier >= 1 && m.depth >= 0 && m.cost >= 0
    requires Expands(d, s, t) && AreFields(t) && Fits(p, t, depth, multiplier, m) && Enclosed(d, visiting, Size(t))
    ensures WalkedList(d, p, s, depth, multiplier, visiting, root, m)
         == Outcome(Accepted, Total(p, t, depth, multiplier, root, m))
    decreases t, 0
  {
    hide WalkedOne, Fits, Total, ExpandsOne, Enclosed;
    if s == [] {
      NothingFits(p, depth, multiplier, root, m);
    } else {
      var m' := Total(p, [t[0]], depth, multiplier, root, m);
      assert AreFields([t[0]]) by { assert [t[0]][0] == t[0] && [t[0]][1..] == []; }
      ListMeasures(p, t, depth, multiplier, root, m);
      FitsGrows(p, [t[0]], depth, multiplier, root, m);
      EnclosedShrinks(d, visiting, Size(t), 1 + Size(t[0].kids));
      EnclosedShrinks(d, visiting, Size(t), Size(t[1..]));
      FittingOneIsAccepted(d, p, s[0], t[0], depth, multiplier, visiting, root, m);
      FittingListIsAccepted(d, p, s[1..], t[1..], depth, multiplier, visiting, root, m');
    }
  }

  lemma {:induction false} FittingOneIsAccepted(d: Document, p: Params, item: Selection, t: Tree, depth: int,
                                                multiplier: int, visiting: set<string>, root: bool, m: Meter)
    requires multiplier >= 1 && m.depth >= 0 && m.cost >= 0
    requires ExpandsOne(d, item, t) && AreFields([t]) && Fits(p, [t], depth, multiplier, m)
    requires Enclosed(d, visiting, 1 + Size(t.kids))
    ensures WalkedOne(d, p, item, depth, multiplier, visiting, root, m)
         == Outcome(Accepted, Total(p, [t], depth, multiplier, root, m))
    decreases t, 0
  {
    hide Walked, Fits, Total, Weight, Enter, Expands, Enclosed, Size;
    var kids := t.kids;
    assert [t][0].kids == kids;
    EnclosedShrinks(d, visiting, 1 + Size(kids), Size(kids));
    match item {
      case Field(_, _, sub) =>
        NodeMeasures(p, item, kids, depth, multiplier, root, m);
        EnteredWithin(p, item, depth, multiplier, root, m);
        var entered := Enter(p, item, depth, multiplier, root, m);
        FittingIsAccepted(d, p, sub, kids, depth + 1, Weight(p, item, multiplier), visiting, false, entered.meter);
      case Inline(sub) =>
        GroupMeasures(p, 0, kids, depth, multiplier, root, m);
        FittingIsAccepted(d, p, sub, kids, depth, multiplier, visiting, root, m);
      case Spread(name) =>
        GroupMeasures(p, 1, kids, depth, multiplier, root, m);
        EnclosedBySpread(d, visiting, name, kids, 1 + Size(kids));
        FittingIsAccepted(d, p, d[name], kids, depth + 1, multiplier, visiting + {name}, root, m);
    }
  }

  // ---------- whole operations ----------

  datatype OperationKind = Query | Mutation | Subscription

  datatype Operation = Operation(name: string, kind: OperationKind, selections: seq<Selection>)

  datatype Metadata = Metadata(name: string, kind: OperationKind, cost: int, depth: int)

  /** What is checked of an operation before its selections are looked at. */
  predicate Admissible(op: Operation, development: bool) {
    op.kind != Subscription && (development || op.name != "") && |op.name| <= MAX_NAME
  }

  const START := Meter(0, 0, 0, 0)

  /** An expansion the preflight lets through. */
  ghost predicate Passes(d: Document, p: Params, op: Operation, t: seq<Tree>) {
    && Expands(d, op.selections, t) && AreFields(t)
    && AllAllowed(p, t) && Fields(t) <= MAX_FIELDS && Cost(p, t, 1) <= MAX_COST && Reach(t, 1) <= MAX_DEPTH
    && (op.kind == Mutation ==> Roots(t) == 1)
  }

  /** The preflight accepts exactly the admissible operations whose expansion
      exists and is within every limit, and reports that expansion's measures. */
  method Inspect(d: Document, p: Params, op: Operation) returns (result: Option<Metadata>)
    ensures result.Some? <==> Admissible(op, p.development) && exists t :: Passes(d, p, op, t)
    ensures forall t :: result.Some? && Expands(d, op.selections, t) && AreFields(t) ==>
              result == Some(Metadata(op.name, op.kind, Cost(p, t, 1), Height(t, 1)))
  {
    if op.kind == Subscription || (!p.development && op.name == "") || |op.name| > MAX_NAME { return None; }
    var inspector := new Inspector(d, p);
    var verdict := inspector.Walk(op.selections, 1, 1, true);
    ghost var walked := Walked(d, p, op.selections, 1, 1, {}, true, START);
    WalkDecides(d, p, op);
    if verdict != Accepted { return None; }
    if op.kind == Mutation && inspector.rootFields != 1 { return None; }
    result := Some(Metadata(op.name, op.kind, inspector.cost, inspector.depth));
  }

  lemma WalkDecides(d: Document, p: Params, op: Operation)
    ensures var w := Walked(d, p, op.selections, 1, 1, {}, true, START);
            && (w.verdict == Accepted && (op.kind == Mutation ==> w.meter.roots == 1) <==> exists t :: Passes(d, p, op, t))
            && (forall t :: w.verdict == Accepted && Expands(d, op.selections, t) && AreFields(t) ==>
                  w.meter == Meter(Fields(t), Roots(t), Cost(p, t, 1), Height(t, 1)))
  {
    hide Walked, Expands, Cost, Height, Reach, Fields, Roots, AllAllowed, AreFields;
    var w := Walked(d, p, op.selections, 1, 1, {}, true, START);
    if w.verdict == Accepted {
      var t := AcceptedExpands(d, p, op.selections, 1, 1, {}, true, START);
      forall u | Expands(d, op.selections, u) ensures u == t {
        ExpansionIsUnique(d, op.selections, u, t);
      }
      assert (op.kind == Mutation ==> w.meter.roots == 1) ==> Passes(d, p, op, t);
    }
    forall t | Passes(d, p, op, t) ensures w.verdict == Accepted && w.meter.roots == Roots(t) {
      FittingIsAccepted(d, p, op.selections, t, 1, 1, {}, true, START);
    }
  }

  lemma {:induction false} ExpansionLifts(d: Document, s: seq<Selection>, t: seq<Tree>)
    requires Expands(d, s, t)
    ensures forall i :: 0 <= i < |t| ==> Lifts(t[i])
    decreases t
  {
    if s != [] {
      match s[0] {
        case Field(_, _, sub) => ExpansionLifts(d, sub, t[0].kids);
        case Inline(sub) => ExpansionLifts(d, sub, t[0].kids);
        case Spread(name) => ExpansionLifts(d, d[name], t[0].kids);
      }
      ExpansionLifts(d, s[1..], t[1..]);
      assert forall i :: 0 < i < |t| ==> t[i] == t[1..][i - 1];
    }
  }

  /** The limit is checked on entering a selection set, even an empty one, so the
      reported depth of an accepted operation is at most eleven. */
  lemma AcceptedDepthIsAtMostEleven(d: Document, p: Params, op: Operation, t: seq<Tree>)
    requires Passes(d, p, op, t)
    ensures Height(t, 1) <= MAX_DEPTH - 1
  {
    hide Expands, Height, Reach, AllAllowed, AreFields, Lifts;
    ExpansionLifts(d, op.selections, t);
    HeightBelowReach(t, 1);
  }

  // ---------- the root field of a mutation ----------

  /** The first root field of an expansion. */
  ghost function FirstRoot(t: seq<Tree>): Option<Selection> {
    if t == [] then None
    else if t[0].Node? then Some(t[0].field)
    else
      var inner := FirstRoot(t[0].kids);
      if inner.Some? then inner else FirstRoot(t[1..])
  }

  /** The search the rate limiter makes: it skips open and unknown fragments. */
  function Root(d: Document, s: seq<Selection>, visited: set<string>): Option<Selection>
    decreases d.Keys - visited, s
  {
    if s == [] then None
    else
      var found :=
        match s[0]
        case Field(_, _, _) => Some(s[0])
        case Inline(sub) => Root(d, sub, visited)
        case Spread(name) =>
          if name in visited || name !in d then None
          else
            assert name in d.Keys - visited && name !in d.Keys - (visited + {name});
            Root(d, d[name], visited + {name});
      if found.Some? then found else Root(d, s[1..], visited)
  }

  class RootSearch {
    const document: Document
    var visited: set<string>

    constructor (document: Document)
      ensures this.document == document && visited == {}
    {
      this.document, visited := document, {};
    }

    method Find(selections: seq<Selection>) returns (field: Option<Selection>)
      modifies this`visited
      ensures visited == old(visited) && field == Root(document, selections, old(visited))
      decreases document.Keys - visited, selections
    {
      for i := 0 to |selections|
        invariant visited == old(visited)
        invariant Root(document, selections, visited) == Root(document, selections[i..], visited)
      {
        var item := selections[i];
        assert selections[i..][0] == item && selections[i..][1..] == selections[i + 1..];
        match item
        case Field(_, _, _) => return Some(item);
        case Inline(sub) =>
          field := Find(sub);
          if field.Some? { return; }
        case Spread(name) =>
          if name in visited || name !in document { continue; }
          assert name in document.Keys - visited && name !in document.Keys - (visited + {name});
          visited := visited + {name};
          field := Find(document[name]);
          visited := visited - {name};
          if field.Some? { return; }
      }
      field := None;
    }
  }

  lemma {:induction false} RootOfExpansion(d: Document, s: seq<Selection>, t: seq<Tree>, visited: set<string>)
    requires Expands(d, s, t) && Enclosed(d, visited, Size(t))
    ensures Root(d, s, visited) == FirstRoot(t)
    decreases t
  {
    hide Enclosed;
    if s != [] {
      var kids := t[0].kids;
      EnclosedShrinks(d, visited, Size(t), 1 + Size(kids));
      EnclosedShrinks(d, visited, Size(t), Size(kids));
      EnclosedShrinks(d, visited, Size(t), Size(t[1..]));
      match s[0] {
        case Field(_, _, _) =>
        case Inline(sub) => RootOfExpansion(d, sub, kids, visited);
        case Spread(name) =>
          EnclosedBySpread(d, visited, name, kids, 1 + Size(kids));
          RootOfExpansion(d, d[name], kids, visited + {name});
      }
      RootOfExpansion(d, s[1..], t[1..], visited);
    }
  }

  lemma {:induction false} OneRootIsFirst(t: seq<Tree>)
    ensures Roots(t) >= 1 <==> FirstRoot(t).Some?
    decreases t
  {
    if t != [] {
      OneRootIsFirst(t[0].kids);
      OneRootIsFirst(t[1..]);
    }
  }

  /** f is a root field somewhere in the expansion. */
  ghost predicate HasRoot(t: seq<Tree>, f: Selection) {
    t != [] && ((if t[0].Node? then t[0].field == f else HasRoot(t[0].kids, f)) || HasRoot(t[1..], f))
  }

  lemma {:induction false} RootsCount(t: seq<Tree>, f: Selection)
    ensures Roots(t) == 0 ==> !HasRoot(t, f)
    ensures Roots(t) == 1 ==> (HasRoot(t, f) <==> FirstRoot(t) == Some(f))
    decreases t
  {
    if t != [] {
      OneRootIsFirst(t[0].kids);
      RootsCount(t[0].kids, f);
      RootsCount(t[1..], f);
    }
  }

  /** For an accepted mutation the rate limiter finds its one root field. */
  lemma AcceptedMutationHasOneRoot(d: Document, p: Params, op: Operation, t: seq<Tree>, f: Selection)
    requires op.kind == Mutation && Passes(d, p, op, t)
    ensures Root(d, op.selections, {}).Some?
    ensures HasRoot(t, f) <==> Root(d, op.selections, {}) == Some(f)
  {
    hide Expands, AllAllowed, AreFields;
    RootOfExpansion(d, op.selections, t, {});
    OneRootIsFirst(t);
    RootsCount(t, f);
  }

  // ---------- cyclic and unknown fragments ----------

  /** The fragments spread in a selection set, however deep in fields and inline
      fragments. */
  function Spreads(s: seq<Selection>): set<string> {
    if s == [] then {} else SpreadsOne(s[0]) + Spreads(s[1..])
  }

  function SpreadsOne(item: Selection): set<string> {
    match item
    case Field(_, _, sub) => Spreads(sub)
    case Inline(sub) => Spreads(sub)
    case Spread(name) => {name}
  }

  /** A path through the fragment graph that begins with a spread in s. */
  ghost predicate Trail(d: Document, s: seq<Selection>, path: seq<string>) {
    var n := |path| - 1;
    && n >= 0
    && if n == 0 then path[0] in Spreads(s)
       else Trail(d, s, path[..n]) && path[n - 1] in d && path[n] in Spreads(d[path[n - 1]])
  }

  /** Every path from s meets known fragments only, and none of them twice. */
  ghost predicate WellFounded(d: Document, s: seq<Selection>) {
    forall path :: Trail(d, s, path) ==>
      path[|path| - 1] in d && forall i :: 0 <= i < |path| - 1 ==> path[i] != path[|path| - 1]
  }

  /** A fragment spread anywhere in an expanded set has an expansion, a smaller one. */
  lemma {:induction false} SpreadIsExpanded(d: Document, s: seq<Selection>, t: seq<Tree>, name: string) returns (u: seq<Tree>)
    requires Expands(d, s, t) && name in Spreads(s)
    ensures name in d && Expands(d, d[name], u) && Size(u) < Size(t)
    decreases t
  {
    if name in SpreadsOne(s[0]) {
      match s[0]
      case Field(_, _, sub) => u := SpreadIsExpanded(d, sub, t[0].kids, name);
      case Inline(sub) => u := SpreadIsExpanded(d, sub, t[0].kids, name);
      case Spread(_) => u := t[0].kids;
    } else {
      u := SpreadIsExpanded(d, s[1..], t[1..], name);
    }
  }

  /** Along a path from an expanded set, expansions exist and shrink. */
  lemma {:induction false} TrailIsExpanded(d: Document, s: seq<Selection>, t: seq<Tree>, path: seq<string>, i: nat)
      returns (u: seq<Tree>, v: seq<Tree>)
    requires Expands(d, s, t) && Trail(d, s, path) && i < |path|
    ensures path[i] in d && Expands(d, d[path[i]], u)
    ensures path[|path| - 1] in d && Expands(d, d[path[|path| - 1]], v)
    ensures if i < |path| - 1 then Size(v) < Size(u) else v == u
    decreases |path|
  {
    var n := |path| - 1;
    if n == 0 {
      u := SpreadIsExpanded(d, s, t, path[0]);
      v := u;
    } else {
      var short := path[..n];
      var w;
      u, w := TrailIsExpanded(d, s, t, short, if i < n then i else n - 1);
      assert short[|short| - 1] == path[n - 1];
      v := SpreadIsExpanded(d, d[path[n - 1]], w, path[n]);
      if i == n { u := v; }
    }
  }

  /** A fragment on a cycle that a set reaches, through any number of fragments and
      at any depth inside them, leaves the set without an expansion, so no operation
      that uses it is ever accepted. */
  lemma CyclicHasNoExpansion(d: Document, s: seq<Selection>, path: seq<string>, i: nat, t: seq<Tree>)
    requires Trail(d, s, path) && i < |path| - 1 && path[i] == path[|path| - 1]
    ensures !Expands(d, s, t)
  {
    if Expands(d, s, t) {
      var u, v := TrailIsExpanded(d, s, t, path, i);
      ExpansionIsUnique(d, d[path[i]], u, v);
    }
  }

  /** Spreads of s go on along the path. */
  ghost predicate Onward(d: Document, op: seq<Selection>, path: seq<string>, s: seq<Selection>) {
    forall name :: name in Spreads(s) ==> Trail(d, op, path + [name])
  }

  lemma {:induction false} WellFoundedExpands(d: Document, op: seq<Selection>, path: seq<string>, s: seq<Selection>) returns (t: seq<Tree>)
    requires WellFounded(d, op) && Onward(d, op, path, s)
    ensures Expands(d, s, t)
    decreases d.Keys - Elements(path), s, 1
  {
    if s == [] { return []; }
    var first := WellFoundedExpandsOne(d, op, path, s[0]);
    var rest := WellFoundedExpands(d, op, path, s[1..]);
    t := [first] + rest;
  }

  lemma {:induction false} WellFoundedExpandsOne(d: Document, op: seq<Selection>, path: seq<string>, item: Selection) returns (t: Tree)
    requires WellFounded(d, op) && forall name :: name in SpreadsOne(item) ==> Trail(d, op, path + [name])
    ensures ExpandsOne(d, item, t)
    decreases d.Keys - Elements(path), item, 0
  {
    match item
    case Field(_, _, sub) =>
      var kids := WellFoundedExpands(d, op, path, sub);
      t := Node(item, kids);
    case Inline(sub) =>
      var kids := WellFoundedExpands(d, op, path, sub);
      t := Group(0, kids);
    case Spread(name) =>
      var longer := path + [name];
      assert Trail(d, op, longer);
      assert name in d && name !in path by { NotMet(d, op, path, name); }
      assert Elements(longer) == Elements(path) + {name};
      assert name in d.Keys - Elements(path) && name !in d.Keys - Elements(longer);
      TrailGoesOn(d, op, longer);
      var kids := WellFoundedExpands(d, op, longer, d[name]);
      t := Group(1, kids);
  }

  lemma NotMet(d: Document, op: seq<Selection>, path: seq<string>, name: string)
    requires WellFounded(d, op) && Trail(d, op, path + [name])
    ensures name in d && name !in path
  {
    var longer := path + [name];
    assert longer[|longer| - 1] == name;
    forall i | 0 <= i < |path| ensures path[i] != name {
      assert longer[i] == path[i];
    }
  }

  lemma TrailGoesOn(d: Document, op: seq<Selection>, path: seq<string>)
    requires Trail(d, op, path) && path[|path| - 1] in d
    ensures Onward(d, op, path, d[path[|path| - 1]])
  {
    forall name | name in Spreads(d[path[|path| - 1]]) ensures Trail(d, op, path + [name]) {
      assert (path + [name])[..|path|] == path;
    }
  }

  ghost predicate Expandable(d: Document, s: seq<Selection>) { exists t :: Expands(d, s, t) }

  /** A set has an expansion if and only if no path from it meets an unknown fragment
      or comes back to one it has met. */
  lemma ExpandsExactlyWhen(d: Document, s: seq<Selection>)
    ensures Expandable(d, s) <==> WellFounded(d, s)
  {
    if Expandable(d, s) { ExpandableIsWellFounded(d, s); }
    if WellFounded(d, s) { WellFoundedIsExpandable(d, s); }
  }

  lemma WellFoundedIsExpandable(d: Document, s: seq<Selection>)
    requires WellFounded(d, s)
    ensures Expandable(d, s)
  {
    forall name | name in Spreads(s) ensures Trail(d, s, [] + [name]) { assert ([] + [name])[0] == name; }
    assert Onward(d, s, [], s);
    var t := WellFoundedExpands(d, s, [], s);
  }

  lemma ExpandableIsWellFounded(d: Document, s: seq<Selection>)
    requires Expandable(d, s)
    ensures WellFounded(d, s)
  {
    var t :| Expands(d, s, t);
    forall path | Trail(d, s, path)
      ensures path[|path| - 1] in d && forall i :: 0 <= i < |path| - 1 ==> path[i] != path[|path| - 1]
    {
      var _, _ := TrailIsExpanded(d, s, t, path, 0);
      forall i | 0 <= i < |path| - 1 ensures path[i] != path[|path| - 1] {
        if path[i] == path[|path| - 1] { CyclicHasNoExpansion(d, s, path, i, t); }
      }
    }
  }
}
