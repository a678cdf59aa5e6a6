/** What page sizes, costs and depths amount to, in terms of what a client writes. */
module GraphQLCosts {
  import opened Keyset
  import opened GraphQLInspector

  // ---------- page sizes ----------

  /** The decimal writing of a number, the last digit last. */
  function Written(n: nat): string {
    if n < 10 then ["0123456789"[n]] else Written(n / 10) + ["0123456789"[n % 10]]
  }

  function Zeros(k: nat): string { seq(k, _ => '0') }

  /** A writing with as many leading zeros as one likes and perhaps a plus sign. */
  ghost predicate Writes(text: string, n: nat) {
    exists k: nat :: text == Zeros(k) + Written(n) || text == ['+'] + (Zeros(k) + Written(n))
  }

  /** The text behind an argument: its own, that of a variable given as a string or as
      any other JSON value but null, or the default of a variable not given. */
  ghost predicate StandsFor(p: Params, v: Value, text: string) {
    match v
    case IntValue(raw) => text == raw
    case OtherValue => false
    case Variable(name) =>
      if name in p.variables then p.variables[name] == JString(text) || p.variables[name] == JOther(text)
      else name in p.defaults && p.defaults[name] == Some(IntValue(text))
  }

  lemma DigitIs(c: char)
    requires '0' <= c <= '9'
    ensures c == "0123456789"[c as int - '0' as int]
  {
  }

  lemma {:induction false} WrittenDigits(n: nat)
    ensures AllDigits(Written(n)) && Written(n) != [] && Number(Written(n)) == n
    ensures n > 0 ==> Written(n)[0] != '0'
  {
    var s := Written(n);
    if n < 10 {
      assert s[..0] == [] && Number([]) == 0;
    } else {
      WrittenDigits(n / 10);
      assert s[..|s| - 1] == Written(n / 10) && s[|s| - 1] == "0123456789"[n % 10];
      assert s[0] == Written(n / 10)[0];
    }
  }

  lemma {:induction false} LeadingZeros(k: nat, s: string)
    requires AllDigits(s)
    ensures AllDigits(Zeros(k) + s) && Number(Zeros(k) + s) == Number(s)
    decreases |s|, k
  {
    var t := Zeros(k) + s;
    if s == [] {
      if k > 0 {
        assert t[..k - 1] == Zeros(k - 1) + [];
        LeadingZeros(k - 1, s);
      } else {
        assert t == [];
      }
    } else {
      var n := |s| - 1;
      assert t[..|t| - 1] == Zeros(k) + s[..n];
      LeadingZeros(k, s[..n]);
    }
  }

  /** Digits that make the number n are its writing behind zeros. */
  lemma {:induction false} DigitsOf(s: string) returns (k: nat)
    requires AllDigits(s)
    ensures Number(s) == 0 ==> s == Zeros(|s|)
    ensures Number(s) > 0 ==> s == Zeros(k) + Written(Number(s))
  {
    k := 0;
    if s != [] {
      var n := |s| - 1;
      var head, last := s[..n], s[n];
      k := DigitsOf(head);
      DigitIs(last);
      assert s == head + [last] && AllDigits(head);
      LastDigit(s);
      hide Number;
      if Number(head) == 0 { k := n; }
    }
  }

  lemma LastDigit(s: string)
    requires s != [] && AllDigits(s)
    ensures var head, last := s[..|s| - 1], s[|s| - 1];
            && AllDigits(head) && (Number(s) == 0 <==> Number(head) == 0 && last == '0')
            && (Number(head) > 0 ==> Written(Number(s)) == Written(Number(head)) + [last])
            && (Number(head) == 0 ==> Written(Number(s)) == [last])
  {
    var head, last := s[..|s| - 1], s[|s| - 1];
    var d := last as int - '0' as int;
    DigitIs(last);
    assert Number(s) == 10 * Number(head) + d && Number(s) / 10 == Number(head) && Number(s) % 10 == d;
  }

  lemma AtoiIs(text: string, n: nat)
    requires n > 0
    ensures Atoi(text) == Some(n) <==> Writes(text, n)
  {
    hide Atoi, Writes;
    if Atoi(text) == Some(n) { ReadIsWritten(text, n); }
    if Writes(text, n) { WrittenIsRead(text, n); }
  }

  lemma ReadIsWritten(text: string, n: nat)
    requires n > 0 && Atoi(text) == Some(n)
    ensures Writes(text, n)
  {
    hide Number, Written, Zeros;
    var digits := if text != [] && (text[0] == '-' || text[0] == '+') then text[1..] else text;
    assert AllDigits(digits) && text[0] != '-';
    var k := DigitsOf(digits);
    assert text == digits || text == ['+'] + digits;
  }

  lemma WrittenIsRead(text: string, n: nat)
    requires n > 0 && Writes(text, n)
    ensures Atoi(text) == Some(n)
  {
    hide Number, Written, Zeros, Atoi;
    var k: nat :| text == Zeros(k) + Written(n) || text == ['+'] + (Zeros(k) + Written(n));
    var digits := Zeros(k) + Written(n);
    WrittenDigits(n);
    LeadingZeros(k, Written(n));
    DigitsAreRead(digits);
  }

  lemma DigitsAreRead(digits: string)
    requires AllDigits(digits) && digits != []
    ensures Atoi(digits) == Some(Number(digits)) && Atoi(['+'] + digits) == Some(Number(digits))
  {
    hide Number;
    assert '0' <= digits[0] <= '9';
    assert (['+'] + digits)[1..] == digits;
  }

  /** A page size is granted exactly for the decimal writings of 1 to 100, wherever the
      text comes from. */
  lemma PageSizeIsWhatIsWritten(p: Params, v: Value, n: int)
    ensures PageSize(p, v) == Some(n) <==> 1 <= n <= 100 && exists text :: StandsFor(p, v, text) && Writes(text, n)
  {
    hide Atoi, Writes;
    if PageSize(p, v) == Some(n) {
      AtoiIs(RawSize(p, v).value, n);
      if v.Variable? && v.name in p.variables && p.variables[v.name].JNull? {
        assert Atoi("") == None by { NothingIsNoNumber(); }
      }
      assert StandsFor(p, v, RawSize(p, v).value);
    }
    if 1 <= n <= 100 {
      forall text | StandsFor(p, v, text) && Writes(text, n) ensures PageSize(p, v) == Some(n) {
        AtoiIs(text, n);
      }
    }
  }

  lemma NothingIsNoNumber()
    ensures Atoi("") == None
  {
  }

  // ---------- costs ----------

  /** What a field multiplies: a connection by its page size, or a hundred without
      one; a snapshot by a hundred. */
  ghost predicate Factor(p: Params, f: Selection, n: int) {
    && f.Field?
    && if f.name == "subjects" || f.name == "sessions" || f.name == "providerConnections" || f.name == "customProviders" || f.name == "syncJobs"
       then (if f.first.None? then n == 100 else PageSize(p, f.first.value) == Some(n))
       else if f.name == "activitySnapshot" then n == 100
       else n == 1
  }

  lemma WeightIsFactor(p: Params, f: Selection, n: int, multiplier: int)
    requires Factor(p, f, n) && multiplier >= 1
    ensures 1 <= n <= 100 && Weight(p, f, multiplier) == multiplier * n
  {
  }

  lemma {:induction false} CostScales(p: Params, t: seq<Tree>, m: int, k: int)
    requires AreFields(t) && m >= 1 && k >= 1 && m * k >= 1
    ensures Cost(p, t, m * k) == k * Cost(p, t, m)
    decreases t
  {
    hide Weight;
    if t != [] {
      var kids := t[0].kids;
      CostScales(p, t[1..], m, k);
      if t[0].Node? {
        var w := Weight(p, t[0].field, m);
        WeightScales(p, t[0].field, m, k);
        CostScales(p, kids, w, k);
        Distributes(k, w, Cost(p, kids, w), Cost(p, t[1..], m));
      } else {
        CostScales(p, kids, m, k);
        Distributes(k, 0, Cost(p, kids, m), Cost(p, t[1..], m));
      }
    }
  }

  lemma WeightScales(p: Params, f: Selection, m: int, k: int)
    requires f.Field? && m >= 1 && k >= 1 && m * k >= 1
    ensures Weight(p, f, m) >= 1 && Weight(p, f, m) * k >= 1 && Weight(p, f, m * k) == Weight(p, f, m) * k
  {
    var a := if f.name == "activitySnapshot" then 100 else 1;
    var b := if !Connection(f.name) then 1 else if f.first.None? then 100
             else if PageSize(p, f.first.value).Some? then PageSize(p, f.first.value).value else 1;
    assert Weight(p, f, m) == m * a * b && Weight(p, f, m * k) == m * k * a * b;
    Product(m, k, a, b);
  }

  lemma Product(m: int, k: int, a: int, b: int)
    requires m >= 1 && k >= 1 && a >= 1 && b >= 1
    ensures m * k * a * b == m * a * b * k && m * a * b >= 1 && m * a * b * k >= 1
  {
    assert m * a >= 1;
    assert m * a * b >= 1;
    assert m * a * b * k >= 1;
    assert m * k * a == m * a * k;
    assert m * a * k * b == m * a * b * k;
  }

  lemma Distributes(k: int, a: int, b: int, c: int)
    ensures k * (a + b + c) == a * k + k * b + k * c
  {
  }

  /** A field costs its factor and multiplies all that is under it; a fragment, inline
      or not, costs what is in it; and siblings add up. */
  lemma CostIsProductAndSum(p: Params, f: Selection, n: int, kids: seq<Tree>, rest: seq<Tree>, lift: int)
    requires Factor(p, f, n) && AreFields(kids) && AreFields(rest)
    ensures AreFields([Node(f, kids)] + rest) && AreFields([Group(lift, kids)] + rest)
    ensures Cost(p, [], 1) == 0
    ensures Cost(p, [Node(f, kids)] + rest, 1) == n * (1 + Cost(p, kids, 1)) + Cost(p, rest, 1)
    ensures Cost(p, [Group(lift, kids)] + rest, 1) == Cost(p, kids, 1) + Cost(p, rest, 1)
  {
    WeightIsFactor(p, f, n, 1);
    CostScales(p, kids, 1, n);
    assert ([Node(f, kids)] + rest)[1..] == rest && ([Group(lift, kids)] + rest)[1..] == rest;
  }

  /** One field alone passes unless it is introspection or asks for no valid page, and
      costs its factor at level one. */
  lemma OneField(d: Document, p: Params, name: string, f: Selection, n: int)
    requires f.Field? && f.sub == []
    ensures var op, t := Operation(name, Query, [f]), [Node(f, [])];
            && Expands(d, op.selections, t) && AreFields(t) && Fields(t) == 1 && Roots(t) == 1 && Height(t, 1) == 1
            && (Factor(p, f, n) ==> Cost(p, t, 1) == n)
            && (Passes(d, p, op, t) <==>
                  (p.development || (f.name != "__schema" && f.name != "__type")) && exists k :: Factor(p, f, k))
  {
    var t := [Node(f, [])];
    assert [f][1..] == [] && t[1..] == [];
    if Factor(p, f, n) { LeafCosts(p, f, n); }
    FactorExists(p, f);
    assert AllAllowed(p, t) <==> Allowed(p, f);
    assert Reach(t, 1) == 2;
    if k :| Factor(p, f, k) { LeafCosts(p, f, k); }
  }

  lemma LeafCosts(p: Params, f: Selection, n: int)
    requires Factor(p, f, n)
    ensures AreFields([Node(f, [])]) && Cost(p, [Node(f, [])], 1) == n <= 100
  {
    CostIsProductAndSum(p, f, n, [], [], 0);
    WeightIsFactor(p, f, n, 1);
    assert [Node(f, [])] + [] == [Node(f, [])];
  }

  lemma FactorExists(p: Params, f: Selection)
    requires f.Field?
    ensures (exists k :: Factor(p, f, k)) <==> (Connection(f.name) && f.first.Some? ==> PageSize(p, f.first.value).Some?)
  {
    if Connection(f.name) && f.first.Some? {
      if PageSize(p, f.first.value).Some? { assert Factor(p, f, PageSize(p, f.first.value).value); }
    } else if Connection(f.name) || f.name == "activitySnapshot" {
      assert Factor(p, f, 100);
    } else {
      assert Factor(p, f, 1);
    }
  }

  // ---------- the limits ----------

  function Copies(f: Selection, k: nat): seq<Selection> { if k == 0 then [] else [f] + Copies(f, k - 1) }

  function Leaves(f: Selection, k: nat): seq<Tree> { if k == 0 then [] else [Node(f, [])] + Leaves(f, k - 1) }

  lemma {:induction false} LeavesMeasure(d: Document, p: Params, f: Selection, n: int, k: nat)
    requires f.Field? && f.sub == [] && Factor(p, f, n)
    ensures var t := Leaves(f, k);
            && Expands(d, Copies(f, k), t) && AreFields(t) && Fields(t) == k && Roots(t) == k && Cost(p, t, 1) == n * k
            && (k > 0 ==> (AllAllowed(p, t) <==> Allowed(p, f)) && Height(t, 1) == 1 && Reach(t, 1) == 2)
  {
    hide Weight, PageSize, Factor, Introspective;
    if k > 0 {
      var rest, more := Leaves(f, k - 1), Copies(f, k - 1);
      LeavesMeasure(d, p, f, n, k - 1);
      CostIsProductAndSum(p, f, n, [], rest, 0);
      assert Leaves(f, k)[1..] == rest && Copies(f, k)[1..] == more;
      assert n * k == n + n * (k - 1);
      if k == 1 { assert rest == [] && Reach(rest, 1) == 1; }
    }
  }

  /** A query of k equal fields passes up to two hundred fields and a cost of a
      thousand, a mutation with one field only. */
  lemma ManyFields(d: Document, p: Params, name: string, f: Selection, n: int, k: nat)
    requires f.Field? && f.sub == [] && Factor(p, f, n) && (p.development || !Introspective(f.name)) && k > 0
    ensures Passes(d, p, Operation(name, Query, Copies(f, k)), Leaves(f, k)) <==> k <= 200 && n * k <= 1000
    ensures Passes(d, p, Operation(name, Mutation, Copies(f, k)), Leaves(f, k)) <==> k == 1
  {
    LeavesMeasure(d, p, f, n, k);
    FactorExists(p, f);
    WeightIsFactor(p, f, n, 1);
  }

  /** A field inside a field, k levels of them. */
  function Nest(name: string, k: nat): seq<Selection> { if k == 0 then [] else [Field(name, None, Nest(name, k - 1))] }

  function NestTree(name: string, k: nat): seq<Tree> {
    if k == 0 then [] else [Node(Field(name, None, Nest(name, k - 1)), NestTree(name, k - 1))]
  }

  lemma {:induction false} NestMeasures(d: Document, p: Params, name: string, k: nat, depth: int)
    requires !Connection(name) && name != "activitySnapshot" && !Introspective(name) && depth >= 1
    ensures var t := NestTree(name, k);
            && Expands(d, Nest(name, k), t) && AreFields(t) && AllAllowed(p, t)
            && Fields(t) == k && Cost(p, t, 1) == k && Reach(t, depth) == depth + k && (k > 0 ==> Height(t, depth) == depth + k - 1)
  {
    hide Weight, PageSize;
    if k > 0 {
      var f := Field(name, None, Nest(name, k - 1));
      NestMeasures(d, p, name, k - 1, depth + 1);
      assert NestTree(name, k)[1..] == [] && Nest(name, k)[1..] == [];
      assert NestTree(name, k) == [Node(f, NestTree(name, k - 1))] + [];
      CostIsProductAndSum(p, f, 1, NestTree(name, k - 1), [], 0);
    }
  }

  /** Fields nested eleven deep pass, and not one level deeper. */
  lemma DeepFields(d: Document, p: Params, op: string, name: string, k: nat)
    requires !Connection(name) && name != "activitySnapshot" && !Introspective(name) && k > 0
    ensures Passes(d, p, Operation(op, Query, Nest(name, k)), NestTree(name, k)) <==> k <= 11
    ensures Height(NestTree(name, k), 1) == k
  {
    NestMeasures(d, p, name, k, 1);
  }

  /** A spread takes a level of its own; an inline fragment takes none. */
  lemma SpreadsTakeALevel(p: Params, a: string, b: string)
    requires Factor(p, Field(b, None, []), 1) && Factor(p, Field(a, None, [Spread("F")]), 1)
    ensures var leaf := Field(b, None, []);
            var d := map["F" := [leaf]];
            var spread, inline := Field(a, None, [Spread("F")]), Field(a, None, [Inline([leaf])]);
            var t, u := [Node(spread, [Group(1, [Node(leaf, [])])])], [Node(inline, [Group(0, [Node(leaf, [])])])];
            && Expands(d, [spread], t) && Height(t, 1) == 3 && Fields(t) == 2 && Roots(t) == 1
            && Expands(d, [inline], u) && Height(u, 1) == 2 && Fields(u) == 2 && Roots(u) == 1
  {
    var leaf := Field(b, None, []);
    var kids := [Node(leaf, [])];
    assert kids[1..] == [] && [leaf][1..] == [];
    assert Fields(kids) == 1 && Height(kids, 3) == 3 && Height(kids, 2) == 2;
    var t, u := [Group(1, kids)], [Group(0, kids)];
    assert t[1..] == [] && u[1..] == [];
    assert Height(t, 2) == 3 && Height(u, 2) == 2 && Fields(t) == 1 && Fields(u) == 1;
    assert [Spread("F")][1..] == [] && [Inline([leaf])][1..] == [];
    var spread, inline := Field(a, None, [Spread("F")]), Field(a, None, [Inline([leaf])]);
    assert [spread][1..] == [] && [inline][1..] == [] && [Node(spread, t)][1..] == [] && [Node(inline, u)][1..] == [];
    var d := map["F" := [leaf]];
    assert Expands(d, [leaf], kids);
    assert Expands(d, [Spread("F")], t) && Expands(d, [Inline([leaf])], u);
  }
}
