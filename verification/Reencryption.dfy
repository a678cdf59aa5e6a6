/** Cursor-driven re-encryption of stored credentials: accounting, compare-and-swap
    safety, and equality of an interrupted and an uninterrupted run. */
module Reencryption {
  import opened Keyset
  import opened Envelope
  import opened Keyring

  // ---------- text helpers ----------

  predicate IsSpace(c: char) {
    '\t' <= c <= '\r' || c == ' ' || c == 0x85 as char || c == 0xA0 as char
  }

  function TrimSpace(s: string): string {
    if s != [] && IsSpace(s[0]) then TrimSpace(s[1..])
    else if s != [] && IsSpace(s[|s| - 1]) then TrimSpace(s[..|s| - 1])
    else s
  }

  function TrimBytes(s: Bytes): Bytes {
    if s != [] && (9 <= s[0] <= 13 || s[0] == 32) then TrimBytes(s[1..])
    else if s != [] && (9 <= s[|s| - 1] <= 13 || s[|s| - 1] == 32) then TrimBytes(s[..|s| - 1])
    else s
  }

  // ---------- locators ----------

  datatype Locator = Locator(kind: string, id: string)

  const NOWHERE := Locator("", "")

  predicate ValidKind(kind: string) {
    kind in ["connection_access_token", "connection_refresh_token", "oauth_revocation_token"]
  }

  function CompareLocators(l: Locator, r: Locator): int {
    if Compare(l.kind, r.kind) != 0 then Compare(l.kind, r.kind) else Compare(l.id, r.id)
  }

  predicate Before(l: Locator, r: Locator) { CompareLocators(l, r) < 0 }

  lemma LocatorsAreOrdered()
    ensures StrictTotal(Before)
  {
    forall x, y | x != y ensures Before(x, y) || Before(y, x) {
      CompareFlips(x.kind, y.kind);
      CompareFlips(x.id, y.id);
    }
    forall x, y, z | Before(x, y) && Before(y, z) ensures Before(x, z) {
      if Compare(x.kind, y.kind) < 0 && Compare(y.kind, z.kind) < 0 {
        CompareTransitive(x.kind, y.kind, z.kind);
      }
      if x.kind == y.kind == z.kind {
        CompareTransitive(x.id, y.id, z.id);
      }
    }
  }

  /** Records go by kind, and within a kind by ID, both in the order of their bytes. */
  lemma BeforeExactlyWhen(l: Locator, r: Locator)
    ensures Before(l, r) <==> ComesFirst(l.kind, r.kind) || (l.kind == r.kind && ComesFirst(l.id, r.id))
  {
    CompareExactlyWhen(l.kind, r.kind);
    CompareExactlyWhen(l.id, r.id);
  }

  // ---------- records and counts ----------

  datatype Row = Row(keyID: Bytes, ciphertext: Bytes)
  datatype Record = Record(locator: Locator, row: Row)

  /** The key name a record is counted under. */
  datatype Label = Label(id: Bytes)

  datatype Fate = Rotated | Pending | Skipped | Failed

  datatype Counts = Counts(scanned: int, rotated: int, pending: int, skipped: int, failed: int) {
    predicate Balanced() { scanned == rotated + pending + skipped + failed }

    function Plus(o: Counts): Counts {
      Counts(scanned + o.scanned, rotated + o.rotated, pending + o.pending, skipped + o.skipped, failed + o.failed)
    }

    function Bump(f: Fate): Counts { Plus(One(f)) }
  }

  function One(f: Fate): Counts {
    match f
    case Rotated => Counts(1, 1, 0, 0, 0)
    case Pending => Counts(1, 0, 1, 0, 0)
    case Skipped => Counts(1, 0, 0, 1, 0)
    case Failed => Counts(1, 0, 0, 0, 1)
  }

  const ZERO := Counts(0, 0, 0, 0, 0)

  datatype Result = Result(total: Counts, lastSeen: Locator, byKey: map<Label, Counts>, dryRun: bool, resumed: bool) {
    /** Counting one visited record under its source key. */
    function Add(at: Locator, key: Label, f: Fate): Result {
      Result(total.Bump(f), at, byKey[key := At(byKey, key).Bump(f)], dryRun, resumed)
    }

    ghost predicate Accounted() {
      && total.Balanced()
      && total == SumCounts(byKey)
      && AllBalanced(byKey)
    }
  }

  function Empty(dryRun: bool): Result { Result(ZERO, NOWHERE, map[], dryRun, false) }

  function Combine(left: Result, right: Result): Result {
    Result(left.total.Plus(right.total),
           if right.lastSeen == NOWHERE then left.lastSeen else right.lastSeen,
           CombinedKeys(left.byKey, right.byKey),
           left.dryRun || right.dryRun,
           left.resumed || right.resumed)
  }

  function At<K(==)>(m: map<K, Counts>, k: K): Counts { if k in m then m[k] else ZERO }

  function CombinedKeys<K(==)>(l: map<K, Counts>, r: map<K, Counts>): map<K, Counts> {
    map k | k in l.Keys + r.Keys :: At(l, k).Plus(At(r, k))
  }

  ghost function SumCounts<K>(m: map<K, Counts>): Counts { SumOver(m, m.Keys) }

  ghost function SumOver<K>(m: map<K, Counts>, keys: set<K>): Counts
    decreases |keys|
  {
    if keys == {} then ZERO
    else
      var k :| k in keys;
      At(m, k).Plus(SumOver(m, keys - {k}))
  }

  lemma PlusSwaps(a: Counts, b: Counts, c: Counts)
    ensures a.Plus(b.Plus(c)) == b.Plus(a.Plus(c))
    ensures a.Plus(b).Plus(c) == a.Plus(b.Plus(c))
    ensures a.Plus(b) == b.Plus(a)
  {
  }

  lemma FourWay(a: Counts, b: Counts, c: Counts, d: Counts)
    ensures a.Plus(b).Plus(c.Plus(d)) == a.Plus(c).Plus(b.Plus(d))
  {
  }

  lemma {:induction false} SumWithout<K>(m: map<K, Counts>, keys: set<K>, k: K)
    requires k in keys
    ensures SumOver(m, keys) == At(m, k).Plus(SumOver(m, keys - {k}))
    decreases |keys|
  {
    hide At, Counts.Plus;
    var j :| j in keys && SumOver(m, keys) == At(m, j).Plus(SumOver(m, keys - {j}));
    if j != k {
      SumWithout(m, keys - {j}, k);
      SumWithout(m, keys - {k}, j);
      assert keys - {j} - {k} == keys - {k} - {j};
      PlusSwaps(At(m, j), At(m, k), SumOver(m, keys - {j} - {k}));
    }
  }

  lemma {:induction false} SumAgrees<K>(m: map<K, Counts>, n: map<K, Counts>, keys: set<K>)
    requires forall k :: k in keys ==> At(m, k) == At(n, k)
    ensures SumOver(m, keys) == SumOver(n, keys)
    decreases |keys|
  {
    hide At, Counts.Plus;
    if keys != {} {
      var k :| k in keys;
      SumWithout(m, keys, k);
      SumWithout(n, keys, k);
      SumAgrees(m, n, keys - {k});
    }
  }

  /** Keys without an entry add nothing. */
  lemma {:induction false} SumIgnoresAbsent<K>(m: map<K, Counts>, keys: set<K>)
    requires m.Keys <= keys
    ensures SumOver(m, keys) == SumCounts(m)
    decreases |keys - m.Keys|
  {
    hide SumOver;
    var extra := keys - m.Keys;
    if extra == {} {
      assert keys == m.Keys;
    } else {
      var k :| k in extra;
      SumWithout(m, keys, k);
      assert (keys - {k}) - m.Keys == (keys - m.Keys) - {k};
      SumIgnoresAbsent(m, keys - {k});
    }
  }

  lemma SumCountsUpdate<K>(m: map<K, Counts>, k: K, extra: Counts)
    ensures SumCounts(m[k := At(m, k).Plus(extra)]) == SumCounts(m).Plus(extra)
  {
    hide SumOver;
    var m' := m[k := At(m, k).Plus(extra)];
    var keys := m.Keys + {k};
    assert m'.Keys == keys;
    SumWithout(m', keys, k);
    SumWithout(m, keys, k);
    SumAgrees(m, m', keys - {k});
    SumIgnoresAbsent(m, keys);
    PlusSwaps(At(m, k), extra, SumOver(m, keys - {k}));
    PlusSwaps(extra, SumOver(m, keys), ZERO);
  }

  lemma CombinedAt<K>(l: map<K, Counts>, r: map<K, Counts>, k: K)
    ensures At(CombinedKeys(l, r), k) == At(l, k).Plus(At(r, k))
  {
  }

  lemma {:induction false} SumOverCombined<K>(l: map<K, Counts>, r: map<K, Counts>, keys: set<K>)
    ensures SumOver(CombinedKeys(l, r), keys) == SumOver(l, keys).Plus(SumOver(r, keys))
    decreases |keys|
  {
    hide CombinedKeys, At;
    if keys != {} {
      var k :| k in keys;
      SumOverCombined(l, r, keys - {k});
      SumWithout(CombinedKeys(l, r), keys, k);
      SumWithout(l, keys, k);
      SumWithout(r, keys, k);
      CombinedAt(l, r, k);
      FourWay(At(l, k), At(r, k), SumOver(l, keys - {k}), SumOver(r, keys - {k}));
    }
  }

  lemma SumCountsCombined<K>(l: map<K, Counts>, r: map<K, Counts>)
    ensures SumCounts(CombinedKeys(l, r)) == SumCounts(l).Plus(SumCounts(r))
  {
    hide SumOver;
    var keys := l.Keys + r.Keys;
    assert CombinedKeys(l, r).Keys == keys;
    SumOverCombined(l, r, keys);
    SumIgnoresAbsent(l, keys);
    SumIgnoresAbsent(r, keys);
  }

  ghost predicate AllBalanced<K>(m: map<K, Counts>) {
    forall k :: k in m ==> m[k].Balanced()
  }

  lemma BumpBalanced(c: Counts, f: Fate)
    requires c.Balanced()
    ensures c.Bump(f).Balanced()
  {
  }

  lemma BalanceKept<K>(m: map<K, Counts>, k: K, f: Fate)
    requires AllBalanced(m)
    ensures AllBalanced(m[k := At(m, k).Bump(f)])
  {
  }

  lemma BalanceCombined<K>(l: map<K, Counts>, r: map<K, Counts>)
    requires AllBalanced(l) && AllBalanced(r)
    ensures AllBalanced(CombinedKeys(l, r))
  {
    assert forall k :: At(l, k).Balanced() && At(r, k).Balanced();
  }

  lemma AddKeepsAccounts(r: Result, at: Locator, key: Label, f: Fate)
    requires r.Accounted()
    ensures r.Add(at, key, f).Accounted()
  {
    hide SumCounts, AllBalanced, At, One, Counts.Plus, Counts.Balanced;
    SumCountsUpdate(r.byKey, key, One(f));
    BalanceKept(r.byKey, key, f);
    BumpBalanced(r.total, f);
  }

  lemma CombineKeepsAccounts(left: Result, right: Result)
    requires left.Accounted() && right.Accounted()
    ensures Combine(left, right).Accounted()
    ensures Combine(left, right).dryRun == (left.dryRun || right.dryRun)
  {
    hide SumCounts, AllBalanced;
    BalanceCombined(left.byKey, right.byKey);
    SumCountsCombined(left.byKey, right.byKey);
  }

  // ---------- the rotating cipher port ----------

  /** needs is None when the value cannot be parsed; read is None when it cannot be opened. */
  datatype CipherPort = CipherPort(
    active: Bytes,
    needs: (Bytes, Bytes) -> Option<bool>,
    reencrypt: (Bytes, Coins) -> Option<Bytes>,
    read: Bytes -> Option<Bytes>)
  {
    ghost predicate Lawful() {
      && (forall v, x :: reencrypt(v, x).Some? ==>
            && read(v).Some?
            && read(reencrypt(v, x).value) == read(v)
            && needs(reencrypt(v, x).value, active) == Some(false)
            && reencrypt(v, x).value != [])
      && (forall v, x, y :: reencrypt(v, x).Some? == reencrypt(v, y).Some?)
    }
  }

  ghost function InertPort(): (p: CipherPort)
    ensures p.Lawful()
  {
    CipherPort([], (v, k) => None, (v, x) => None, v => None)
  }

  type Cipher = p: CipherPort | p.Lawful() ghost witness InertPort()

  /** Both envelope ciphers meet the port's laws. */
  ghost function PortOf(c: Crypto, r: Rotator): (p: CipherPort)
    requires r.Valid(c) && CanRead(r, r)
    ensures p.Lawful() && p.active == r.Active()
    ensures forall v, k :: p.needs(v, k) == r.NeedsReencryption(v, k)
    ensures forall v, x :: p.reencrypt(v, x) == r.Reencrypt(c, x, v)
    ensures forall v :: p.read(v) == match r.Decrypt(c, v) case Opened(text, _) => Some(text) case Refused(_, _) => None
  {
    var p := CipherPort(r.Active(),
                        (v, k) => r.NeedsReencryption(v, k),
                        (v, x) => r.Reencrypt(c, x, v),
                        v => match r.Decrypt(c, v) case Opened(text, _) => Some(text) case Refused(_, _) => None);
    RotatorIsLawful(c, r, p);
    p
  }

  lemma RotatorIsLawful(c: Crypto, r: Rotator, p: CipherPort)
    requires r.Valid(c) && CanRead(r, r)
    requires p.active == r.Active()
    requires forall v, k :: p.needs(v, k) == r.NeedsReencryption(v, k)
    requires forall v, x :: p.reencrypt(v, x) == r.Reencrypt(c, x, v)
    requires forall v :: p.read(v) == match r.Decrypt(c, v) case Opened(text, _) => Some(text) case Refused(_, _) => None
    ensures p.Lawful()
  {
    forall v, x | p.reencrypt(v, x).Some?
      ensures && p.read(v).Some?
              && p.read(p.reencrypt(v, x).value) == p.read(v)
              && p.needs(p.reencrypt(v, x).value, p.active) == Some(false)
              && p.reencrypt(v, x).value != []
    {
      ReencryptKeepsPlaintext(c, r, x, v);
    }
    forall v, x, y ensures p.reencrypt(v, x).Some? == p.reencrypt(v, y).Some? {
      ReencryptIgnoresCoins(c, r, x, y, v);
    }
  }
}
