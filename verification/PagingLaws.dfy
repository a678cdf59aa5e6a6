/** Which rows the pages hold and in which order, in terms of the rows themselves. */
module PagingLaws {
  import opened Keyset
  import opened Paging
  import SessionPaging
  import AuthStore
  import IngestLaws
  import Ingest

  // ---------- order ----------

  /** Oldest first; of rows of the same age the one whose ID comes first. */
  lemma LessExactlyWhen(a: Position, b: Position)
    ensures Less(a, b) <==> a.at < b.at || (a.at == b.at && ComesFirst(a.id, b.id))
  {
    CompareExactlyWhen(a.id, b.id);
  }

  /** Newest first; of sessions of the same age the one whose ID comes first. */
  lemma NewestFirstExactlyWhen(a: Position, b: Position)
    ensures SessionPaging.NewestFirst(a, b) <==> a.at > b.at || (a.at == b.at && ComesFirst(a.id, b.id))
  {
    CompareExactlyWhen(a.id, b.id);
  }

  /** A page of connections holds rows of the subject that are not revoked and come
      after the cursor, oldest first, and passes over no such row before its last. */
  lemma PageHoldsTheOldest(rows: Rows, subject: string, after: Option<Position>, limit: nat, i: nat, j: nat, k: string)
    requires StrictTotal(Less)
    requires i < j < |Page(Visible(rows, subject), Less, after, limit)|
    ensures var p := Page(Visible(rows, subject), Less, after, limit);
            && (p[i].at < p[j].at || (p[i].at == p[j].at && ComesFirst(p[i].id, p[j].id)))
            && (exists x :: x in rows && rows[x].subject == subject && !rows[x].revoked
                            && rows[x].createdAt == p[i].at && rows[x].id == p[i].id)
            && (after.Some? ==> after.value.at < p[i].at || (after.value.at == p[i].at && ComesFirst(after.value.id, p[i].id)))
    ensures var p := Page(Visible(rows, subject), Less, after, limit);
            k in rows && rows[k].subject == subject && !rows[k].revoked
            && (after.Some? ==> after.value.at < rows[k].createdAt
                                || (after.value.at == rows[k].createdAt && ComesFirst(after.value.id, rows[k].id)))
            && (rows[k].createdAt < p[j].at || (rows[k].createdAt == p[j].at && ComesFirst(rows[k].id, p[j].id))) ==>
              Position(rows[k].createdAt, rows[k].id) in p
  {
    hide Less, StrictTotal, Listing, Page, ComesFirst;
    var s := Visible(rows, subject);
    var p := Page(s, Less, after, limit);
    forall x: Position, y: Position ensures Less(x, y) <==> x.at < y.at || (x.at == y.at && ComesFirst(x.id, y.id)) {
      LessExactlyWhen(x, y);
    }
    PageIsFront(s, after, limit, j);
    assert Less(p[i], p[j]);
    assert p[i] in p;
    if k in rows && rows[k].subject == subject && !rows[k].revoked {
      assert Position(rows[k].createdAt, rows[k].id) == At(rows[k]);
      assert At(rows[k]) in s;
    }
  }

  lemma PageIsFront(s: set<Position>, after: Option<Position>, limit: nat, j: nat)
    requires StrictTotal(Less) && j < |Page(s, Less, after, limit)|
    ensures var p := Page(s, Less, after, limit);
            && Ascending(Less, p)
            && (forall x :: x in p ==> x in s && (after.None? || Less(after.value, x)))
            && (forall x :: x in s && (after.None? || Less(after.value, x)) && Less(x, p[j]) ==> x in p)
  {
    hide Less;
    var all := Listing(After(s, Less, after), Less);
    var p := Page(s, Less, after, limit);
    assert p == all[..|p|];
    forall x | x in p ensures x in s && (after.None? || Less(after.value, x)) {
      assert x in all;
      assert x in Elements(all);
    }
    forall x | x in s && (after.None? || Less(after.value, x)) && Less(x, p[j]) ensures x in p {
      assert x in Elements(all);
      var n :| 0 <= n < |all| && all[n] == x;
      assert n < j by { if j <= n { NotDescending(Less, all, j, n); } }
    }
  }

  // ---------- cursors ----------

  predicate Hex(s: string) { forall i :: 0 <= i < |s| ==> s[i] in "0123456789abcdef" }

  /** A canonical ID is five groups of small hexadecimal digits. */
  ghost predicate Grouped(s: string) {
    exists a, b, c, d, e :: Hex(a) && Hex(b) && Hex(c) && Hex(d) && Hex(e)
      && |a| == 8 && |b| == 4 && |c| == 4 && |d| == 4 && |e| == 12
      && s == Joined(a, b, c, d, e)
  }

  function Joined(a: string, b: string, c: string, d: string, e: string): string {
    a + "-" + b + "-" + c + "-" + d + "-" + e
  }

  lemma HexIs(c: char)
    ensures LowerHex(c) <==> c in "0123456789abcdef"
  {
    if '0' <= c <= '9' { assert "0123456789abcdef"[c as int - '0' as int] == c; }
    if 'a' <= c <= 'f' { assert "0123456789abcdef"[10 + c as int - 'a' as int] == c; }
  }

  lemma CanonicalExactlyWhen(s: string)
    ensures CanonicalUUID(s) <==> Grouped(s)
  {
    hide CanonicalUUID, Grouped;
    if CanonicalUUID(s) { CanonicalIsGrouped(s); }
    if Grouped(s) { GroupedIsCanonical(s); }
  }

  lemma CanonicalIsGrouped(s: string)
    requires CanonicalUUID(s)
    ensures Grouped(s)
  {
    hide LowerHex;
    forall c ensures LowerHex(c) <==> c in "0123456789abcdef" { HexIs(c); }
    var a, b, c, d, e := s[..8], s[9..13], s[14..18], s[19..23], s[24..];
    assert s == Joined(a, b, c, d, e);
    assert Hex(a) && Hex(b) && Hex(c) && Hex(d) && Hex(e);
  }

  lemma GroupedIsCanonical(s: string)
    requires Grouped(s)
    ensures CanonicalUUID(s)
  {
    hide LowerHex, Joined, Hex;
    forall c ensures LowerHex(c) <==> c in "0123456789abcdef" { HexIs(c); }
    var a, b, c, d, e :| Hex(a) && Hex(b) && Hex(c) && Hex(d) && Hex(e)
      && |a| == 8 && |b| == 4 && |c| == 4 && |d| == 4 && |e| == 12 && s == Joined(a, b, c, d, e);
    GroupedChars(a, b, c, d, e);
  }

  lemma GroupedChars(a: string, b: string, c: string, d: string, e: string)
    requires |a| == 8 && |b| == 4 && |c| == 4 && |d| == 4 && |e| == 12
    requires Hex(a) && Hex(b) && Hex(c) && Hex(d) && Hex(e)
    ensures var s := Joined(a, b, c, d, e);
            |s| == 36 && forall i :: 0 <= i < 36 ==> if i in {8, 13, 18, 23} then s[i] == '-' else s[i] in "0123456789abcdef"
  {
    var s := Joined(a, b, c, d, e);
    forall i | 0 <= i < 36 ensures if i in {8, 13, 18, 23} then s[i] == '-' else s[i] in "0123456789abcdef" {
      if i < 8 { assert s[i] == a[i]; }
      else if 8 < i < 13 { assert s[i] == b[i - 9]; }
      else if 13 < i < 18 { assert s[i] == c[i - 14]; }
      else if 18 < i < 23 { assert s[i] == d[i - 19]; }
      else if 23 < i { assert s[i] == e[i - 24]; }
    }
  }

  /** A cursor can carry the times from the first instant of year 1, which itself
      counts as missing, to the last of year 9999. */
  lemma EncodableYears(p: Position)
    ensures Encodable(p) ==> 0 < p.at < (IngestLaws.DayNumber(Ingest.Day(10000, 1, 1)) - 1) * 24 * 3600 * 1_000_000_000
    ensures 0 < p.at < (IngestLaws.DayNumber(Ingest.Day(10000, 1, 1)) - 1) * 24 * 3600 * 1_000_000_000 && Grouped(p.id) ==> Encodable(p)
  {
    hide Grouped, CanonicalUUID;
    CanonicalExactlyWhen(p.id);
    assert IngestLaws.DayNumber(Ingest.Day(10000, 1, 1)) == 3_652_060;
  }
}
