/** The AST literal inventory: constant string expressions and the stream that is hashed. */
module LiteralInventory {
  import opened Keyset

  datatype Object = Object(id: int)

  /** A literal carries its unquoted text unless it is not a string or malformed. */
  datatype Expr = Literal(text: Option<string>) | Paren(inner: Expr) | Ident(obj: Option<Object>)
                | Add(left: Expr, right: Expr) | OtherExpr

  type Constants = map<Object, Expr>

  // ---------- constants of a file ----------

  /** One line of a const group; without values it repeats the line before. */
  datatype Spec = Spec(names: seq<Option<Object>>, values: seq<Expr>)

  /** The values in force at line i. */
  function InForce(specs: seq<Spec>, i: int): seq<Expr>
    requires 0 <= i < |specs|
  {
    if specs[i].values != [] then specs[i].values
    else if i == 0 then []
    else InForce(specs, i - 1)
  }

  /** Line i gives its j-th name, object o, a value. */
  predicate Declares(specs: seq<Spec>, i: int, j: int, o: Object) {
    && 0 <= i < |specs| && 0 <= j < |specs[i].names| && |InForce(specs, i)| == |specs[i].names|
    && specs[i].names[j] == Some(o)
  }

  /** Every name of a group is its own object. */
  ghost predicate OwnObjects(specs: seq<Spec>) {
    forall i, j, k, l, o :: Declares(specs, i, j, o) && Declares(specs, k, l, o) ==> i == k && j == l
  }

  method GroupConstants(specs: seq<Spec>) returns (constants: Constants)
    requires OwnObjects(specs)
    ensures forall o :: o in constants <==> exists i, j :: Declares(specs, i, j, o)
    ensures forall i, j, o :: Declares(specs, i, j, o) ==> o in constants && constants[o] == InForce(specs, i)[j]
  {
    constants := map[];
    var previous: seq<Expr> := [];
    for i := 0 to |specs|
      invariant previous == if i == 0 then [] else InForce(specs, i - 1)
      invariant forall o :: o in constants ==> exists k, j :: k < i && Declares(specs, k, j, o)
      invariant forall k, j, o :: k < i && Declares(specs, k, j, o) ==> o in constants && constants[o] == InForce(specs, k)[j]
    {
      var spec := specs[i];
      if spec.values != [] { previous := spec.values; }
      assert previous == InForce(specs, i);
      if |previous| != |spec.names| { continue; }
      for n := 0 to |spec.names|
        invariant forall o :: o in constants ==>
                    exists k, j :: (k < i || (k == i && j < n)) && Declares(specs, k, j, o)
        invariant forall k, j, o :: (k < i || (k == i && j < n)) && Declares(specs, k, j, o) ==>
                    o in constants && constants[o] == InForce(specs, k)[j]
      {
        if spec.names[n].Some? {
          assert Declares(specs, i, n, spec.names[n].value);
          constants := constants[spec.names[n].value := previous[n]];
        }
      }
    }
  }

  // ---------- static strings ----------

  /** The resolver as a function; resolving holds the constants being unfolded. */
  function Static(c: Constants, e: Expr, resolving: set<Object>): Option<string>
    decreases c.Keys - resolving, e
  {
    match e
    case Literal(text) => text
    case Paren(inner) => Static(c, inner, resolving)
    case Ident(obj) =>
      if obj.None? || obj.value in resolving || obj.value !in c then None
      else
        assert obj.value in c.Keys - resolving && obj.value !in c.Keys - (resolving + {obj.value});
        Static(c, c[obj.value], resolving + {obj.value})
    case Add(left, right) =>
      var l, r := Static(c, left, resolving), Static(c, right, resolving);
      if l.Some? && r.Some? then Some(l.value + r.value) else None
    case OtherExpr => None
  }

  class Resolver {
    const constants: Constants
    var resolving: set<Object>

    constructor (constants: Constants)
      ensures this.constants == constants && resolving == {}
    {
      this.constants, resolving := constants, {};
    }

    method StaticString(e: Expr) returns (text: string, ok: bool)
      modifies this`resolving
      ensures resolving == old(resolving)
      ensures ok == Static(constants, e, old(resolving)).Some?
      ensures ok ==> Some(text) == Static(constants, e, old(resolving))
      decreases constants.Keys - resolving, e
    {
      match e
      case Literal(t) =>
        if t.None? { return "", false; }
        return t.value, true;
      case Paren(inner) => text, ok := StaticString(inner);
      case Ident(obj) =>
        if obj.None? || obj.value in resolving { return "", false; }
        if obj.value !in constants { return "", false; }
        assert obj.value in constants.Keys - resolving && obj.value !in constants.Keys - (resolving + {obj.value});
        resolving := resolving + {obj.value};
        text, ok := StaticString(constants[obj.value]);
        resolving := resolving - {obj.value};
      case Add(left, right) =>
        var l, lok := StaticString(left);
        var r, rok := StaticString(right);
        text, ok := l + r, lok && rok;
      case OtherExpr => return "", false;
    }
  }

  // ---------- full unfolding ----------

  /** An expression with every name replaced by its constant's expression. */
  datatype Tree = Leaf(text: string) | Named(t: Tree) | Both(l: Tree, r: Tree)

  function Text(t: Tree): string {
    match t
    case Leaf(text) => text
    case Named(inner) => Text(inner)
    case Both(l, r) => Text(l) + Text(r)
  }

  ghost predicate Unfolds(c: Constants, e: Expr, t: Tree)
    decreases t, e
  {
    match e
    case Literal(text) => text.Some? && t == Leaf(text.value)
    case Paren(inner) => Unfolds(c, inner, t)
    case Ident(obj) => obj.Some? && obj.value in c && t.Named? && Unfolds(c, c[obj.value], t.t)
    case Add(left, right) => t.Both? && Unfolds(c, left, t.l) && Unfolds(c, right, t.r)
    case OtherExpr => false
  }

  function Size(t: Tree): (n: int)
    ensures n >= 1
  {
    match t
    case Leaf(_) => 1
    case Named(inner) => 1 + Size(inner)
    case Both(l, r) => 1 + Size(l) + Size(r)
  }

  lemma {:induction false} UnfoldingIsUnique(c: Constants, e: Expr, t: Tree, u: Tree)
    requires Unfolds(c, e, t) && Unfolds(c, e, u)
    ensures t == u
    decreases t, e
  {
    match e
    case Literal(_) =>
    case Paren(inner) => UnfoldingIsUnique(c, inner, t, u);
    case Ident(obj) => UnfoldingIsUnique(c, c[obj.value], t.t, u.t);
    case Add(left, right) =>
      UnfoldingIsUnique(c, left, t.l, u.l);
      UnfoldingIsUnique(c, right, t.r, u.r);
    case OtherExpr =>
  }

  /** A success has a finite unfolding, and is its text. */
  lemma {:induction false} SuccessUnfolds(c: Constants, e: Expr, resolving: set<Object>) returns (t: Tree)
    requires Static(c, e, resolving).Some?
    ensures Unfolds(c, e, t) && Static(c, e, resolving) == Some(Text(t))
    decreases c.Keys - resolving, e
  {
    match e
    case Literal(text) => t := Leaf(text.value);
    case Paren(inner) => t := SuccessUnfolds(c, inner, resolving);
    case Ident(obj) =>
      assert obj.value in c.Keys - resolving && obj.value !in c.Keys - (resolving + {obj.value});
      var inner := SuccessUnfolds(c, c[obj.value], resolving + {obj.value});
      t := Named(inner);
    case Add(left, right) =>
      var l := SuccessUnfolds(c, left, resolving);
      var r := SuccessUnfolds(c, right, resolving);
      t := Both(l, r);
    case OtherExpr => t := Leaf("");
  }

  /** Every constant being unfolded is at least as large as what is being resolved. */
  ghost predicate Enclosed(c: Constants, resolving: set<Object>, n: int) {
    forall o, u :: o in resolving && o in c && Unfolds(c, c[o], u) ==> Size(u) >= n
  }

  lemma {:induction false} UnfoldingSucceeds(c: Constants, e: Expr, t: Tree, resolving: set<Object>)
    requires Unfolds(c, e, t) && Enclosed(c, resolving, Size(t))
    ensures Static(c, e, resolving) == Some(Text(t))
    decreases t, e
  {
    match e
    case Literal(_) =>
    case Paren(inner) => UnfoldingSucceeds(c, inner, t, resolving);
    case Ident(obj) =>
      var o := obj.value;
      assert Unfolds(c, c[o], t.t) && Size(t.t) < Size(t);
      assert o !in resolving;
      forall x, u | x in resolving + {o} && x in c && Unfolds(c, c[x], u) ensures Size(u) >= Size(t.t) {
        if x == o { UnfoldingIsUnique(c, c[o], u, t.t); }
      }
      UnfoldingSucceeds(c, c[o], t.t, resolving + {o});
    case Add(left, right) =>
      UnfoldingSucceeds(c, left, t.l, resolving);
      UnfoldingSucceeds(c, right, t.r, resolving);
    case OtherExpr =>
  }

  /** For cyclic constants too: the resolver succeeds exactly when the expression
      can be unfolded completely, and then yields the concatenated text. */
  lemma StaticIsFullUnfolding(c: Constants, e: Expr, v: string)
    ensures Static(c, e, {}) == Some(v) <==> exists t :: Unfolds(c, e, t) && Text(t) == v
  {
    if Static(c, e, {}).Some? {
      var t := SuccessUnfolds(c, e, {});
    }
    forall t | Unfolds(c, e, t) ensures Static(c, e, {}) == Some(Text(t)) {
      UnfoldingSucceeds(c, e, t, {});
    }
  }

  // ---------- the hashed stream ----------

  function DigitChar(d: int): char
    requires 0 <= d < 10
  {
    "0123456789"[d]
  }

  function Decimal(n: nat): (s: string)
    ensures s != [] && ':' !in s
  {
    if n < 10 then [DigitChar(n)] else Decimal(n / 10) + [DigitChar(n % 10)]
  }

  lemma {:induction false} DecimalIsInjective(n: nat, m: nat)
    requires Decimal(n) == Decimal(m)
    ensures n == m
  {
    var s, t := Decimal(n), Decimal(m);
    assert s[|s| - 1] == DigitChar(n % 10) && t[|t| - 1] == DigitChar(m % 10);
    assert n % 10 == m % 10;
    assert (n >= 10 <==> |s| > 1) && (m >= 10 <==> |t| > 1);
    if n >= 10 {
      assert s[..|s| - 1] == Decimal(n / 10) && t[..|t| - 1] == Decimal(m / 10);
      DecimalIsInjective(n / 10, m / 10);
    }
  }

  /** Reading digits from left to right, on top of what was read before. */
  function ReadOn(s: string, sofar: int): int {
    if s == [] then sofar else ReadOn(s[1..], 10 * sofar + (s[0] as int - '0' as int))
  }

  lemma {:induction false} ReadOnLast(s: string, c: char, sofar: int)
    ensures ReadOn(s + [c], sofar) == 10 * ReadOn(s, sofar) + (c as int - '0' as int)
  {
    if s != [] {
      assert (s + [c])[1..] == s[1..] + [c];
      ReadOnLast(s[1..], c, 10 * sofar + (s[0] as int - '0' as int));
    } else {
      assert (s + [c])[1..] == [];
    }
  }

  /** A length is written in decimal digits, the first one counting most and no zero
      unless it stands alone. */
  lemma {:induction false} DecimalSaysTheNumber(n: nat)
    ensures ReadOn(Decimal(n), 0) == n && (forall i :: 0 <= i < |Decimal(n)| ==> '0' <= Decimal(n)[i] <= '9')
    ensures n > 0 ==> Decimal(n)[0] != '0'
    ensures n == 0 ==> Decimal(n) == "0"
  {
    if n >= 10 {
      DecimalSaysTheNumber(n / 10);
      ReadOnLast(Decimal(n / 10), DigitChar(n % 10), 0);
    } else {
      ReadOnLast("", DigitChar(n), 0);
      assert "" + [DigitChar(n)] == [DigitChar(n)];
    }
  }

  /** The stream of two values, one of them empty. */
  lemma StreamOfTwo(a: string)
    requires |a| == 12
    ensures Stream([a, ""]) == "12:" + a + "0:"
  {
    assert [a, ""][1..] == [""] && [""][1..] == [];
    assert Decimal(12) == Decimal(1) + [DigitChar(2)] == "12" && Decimal(0) == "0";
    assert Stream([""]) == "0:" by { assert Stream([""]) == "0" + ":" + "" + ""; }
    assert Stream([a, ""]) == "12" + ":" + a + "0:";
    assert "12" + ":" + a + "0:" == "12:" + a + "0:";
  }

  /** Each value preceded by its length and a colon. */
  function Stream(values: seq<string>): string {
    if values == [] then "" else Decimal(|values[0]|) + ":" + values[0] + Stream(values[1..])
  }

  method Hashed(values: seq<string>) returns (written: string)
    ensures written == Stream(values)
  {
    written := "";
    for i := 0 to |values|
      invariant written + Stream(values[i..]) == Stream(values)
    {
      StreamFrom(values, i, written);
      written := written + Decimal(|values[i]|) + ":" + values[i];
    }
  }

  lemma StreamFrom(values: seq<string>, i: int, written: string)
    requires 0 <= i < |values|
    ensures written + Stream(values[i..])
         == written + Decimal(|values[i]|) + ":" + values[i] + Stream(values[i + 1..])
  {
    var rest := values[i..];
    assert rest[0] == values[i] && rest[1..] == values[i + 1..];
    var d, v, more := Decimal(|values[i]|), values[i], Stream(values[i + 1..]);
    assert Stream(rest) == d + ":" + v + more;
    assert written + (d + ":" + v + more) == written + d + ":" + v + more;
  }

  lemma ColonSplits(a: string, x: string, b: string, y: string)
    requires ':' !in a && ':' !in b && a + ":" + x == b + ":" + y
    ensures a == b && x == y
  {
    var s, t := a + ":" + x, b + ":" + y;
    assert s[|a|] == ':' && t[|b|] == ':';
    ColonComesAfter(a, x, |b|);
    ColonComesAfter(b, y, |a|);
    assert s[..|a|] == a && t[..|b|] == b && s[|a| + 1..] == x && t[|b| + 1..] == y;
  }

  lemma ColonComesAfter(a: string, x: string, n: int)
    requires ':' !in a && 0 <= n < |a + ":" + x| && (a + ":" + x)[n] == ':'
    ensures n >= |a|
  {
    assert forall i :: 0 <= i < |a| ==> (a + ":" + x)[i] == a[i] && a[i] in a;
  }

  /** No two different lists of literals feed the same stream to the hash. */
  lemma {:induction false} StreamIsInjective(xs: seq<string>, ys: seq<string>)
    requires Stream(xs) == Stream(ys)
    ensures xs == ys
    decreases |xs|
  {
    if xs != [] && ys != [] {
      var x, y := xs[0] + Stream(xs[1..]), ys[0] + Stream(ys[1..]);
      assert Stream(xs) == Decimal(|xs[0]|) + ":" + x && Stream(ys) == Decimal(|ys[0]|) + ":" + y;
      ColonSplits(Decimal(|xs[0]|), x, Decimal(|ys[0]|), y);
      DecimalIsInjective(|xs[0]|, |ys[0]|);
      assert x[..|xs[0]|] == xs[0] && y[..|ys[0]|] == ys[0];
      assert x[|xs[0]|..] == Stream(xs[1..]) && y[|ys[0]|..] == Stream(ys[1..]);
      StreamIsInjective(xs[1..], ys[1..]);
      assert xs == [xs[0]] + xs[1..] && ys == [ys[0]] + ys[1..];
    }
  }
}
