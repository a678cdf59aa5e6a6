/** What the figures of a re-encryption report stand for. */
module RotationReport {
  import opened Keyset
  import opened Envelope
  import opened Keyring
  import opened Reencryption
  import opened ReencryptionWorker

  // ---------- which key a record is counted under ----------

  predicate Blank(b: byte) { b in {9, 10, 11, 12, 13, 32} }

  predicate AllBlank(s: Bytes) { forall i :: 0 <= i < |s| ==> Blank(s[i]) }

  /** Neither end is blank. */
  predicate Bare(s: Bytes) { s == [] || (!Blank(s[0]) && !Blank(s[|s| - 1])) }

  /** Trimming takes the blanks off both ends and nothing else. */
  lemma {:induction false} TrimmedIs(pre: Bytes, core: Bytes, post: Bytes)
    requires AllBlank(pre) && AllBlank(post) && Bare(core)
    ensures TrimBytes(pre + core + post) == core
    decreases |pre| + |post|
  {
    var s := pre + core + post;
    if pre != [] {
      assert s[1..] == pre[1..] + core + post;
      TrimmedIs(pre[1..], core, post);
    } else if post != [] {
      var n := |post| - 1;
      if core == [] {
        assert s == post && s[1..] == [] + core + post[1..];
        TrimmedIs([], core, post[1..]);
      } else {
        assert s[..|s| - 1] == pre + core + post[..n];
        TrimmedIs(pre, core, post[..n]);
      }
    } else {
      assert s == core;
    }
  }

  /** An envelope counts under the key it names. */
  lemma EnvelopeCountsUnderItsKey(column: Bytes, id: Bytes, ciphertext: Bytes, version: byte, wrapped: Bytes, nonce: Bytes, sealed: Bytes)
    requires 0 < |id| <= MAX_UINT16 && !AllBlank(id)
    ensures ciphertext != [] ==> SourceKey(Row(column, EncodeV1(id, ciphertext))) == Label(id)
    ensures (version == 2 || version == 3) && 0 < |wrapped| <= MAX_UINT32 && |nonce| == NONCE_SIZE && |sealed| >= TAG_SIZE ==>
              SourceKey(Row(column, EncodeWrapped(version, id, wrapped, nonce, sealed))) == Label(id)
  {
    NotTrimmedAway(id);
    if ciphertext != [] { ParseInvertsV1(id, ciphertext); }
    if (version == 2 || version == 3) && 0 < |wrapped| <= MAX_UINT32 && |nonce| == NONCE_SIZE && |sealed| >= TAG_SIZE {
      ParseInvertsWrapped(version, id, wrapped, nonce, sealed);
    }
  }

  lemma {:induction false} NotTrimmedAway(s: Bytes)
    requires !AllBlank(s)
    ensures TrimBytes(s) != []
    decreases |s|
  {
    if s != [] && Blank(s[0]) {
      NotTrimmedAway(s[1..]);
    } else if s != [] && Blank(s[|s| - 1]) {
      NotTrimmedAway(s[..|s| - 1]);
    }
  }

  /** Whatever is no envelope counts under its key column without the blanks around
      it, or, if there is nothing else in it, under a fixed label. */
  lemma OthersCountUnderTheirColumn(pre: Bytes, core: Bytes, post: Bytes, value: Bytes)
    requires AllBlank(pre) && AllBlank(post) && Bare(core)
    requires !(Parse(value).Valid? && Parse(value).env.enveloped)
    ensures SourceKey(Row(pre + core + post, value)) == Label(if core == [] then Ascii("legacy-or-unknown") else core)
  {
    TrimmedIs(pre, core, post);
    assert UNKNOWN_LABEL == Ascii("legacy-or-unknown");
  }

  /** The white space that is trimmed off text. */
  lemma SpacesAre(c: char)
    ensures IsSpace(c) <==> c as int in {9, 10, 11, 12, 13, 32, 0x85, 0xA0}
  {
  }

  /** Trimming text takes the white space off both ends and nothing else. */
  lemma {:induction false} TrimmedTextIs(pre: string, core: string, post: string)
    requires AllSpace(pre) && AllSpace(post) && (core == [] || (!IsSpace(core[0]) && !IsSpace(core[|core| - 1])))
    ensures TrimSpace(pre + core + post) == core
    decreases |pre| + |post|
  {
    var s := pre + core + post;
    if pre != [] {
      assert s[1..] == pre[1..] + core + post;
      TrimmedTextIs(pre[1..], core, post);
    } else if post != [] {
      var n := |post| - 1;
      if core == [] {
        assert s == post && s[1..] == [] + core + post[1..];
        TrimmedTextIs([], core, post[1..]);
      } else {
        assert s[..|s| - 1] == pre + core + post[..n];
        TrimmedTextIs(pre, core, post[..n]);
      }
    } else {
      assert s == core;
    }
  }

  predicate AllSpace(s: string) { forall i :: 0 <= i < |s| ==> IsSpace(s[i]) }

  lemma {:induction false} TrimsToNothing(s: string)
    ensures TrimSpace(s) == [] <==> AllSpace(s)
    decreases |s|
  {
    if s != [] && IsSpace(s[0]) {
      TrimsToNothing(s[1..]);
      assert AllSpace(s) <==> AllSpace(s[1..]) by { assert s == [s[0]] + s[1..]; }
    } else if s != [] && IsSpace(s[|s| - 1]) {
      TrimsToNothing(s[..|s| - 1]);
    }
  }

  /** A record of a kind the service stores, with an ID in sight and something in it. */
  lemma MalformedExactlyWhen(r: Record)
    ensures !Malformed(r) <==>
              && (r.locator.kind == "connection_access_token" || r.locator.kind == "connection_refresh_token"
                  || r.locator.kind == "oauth_revocation_token")
              && (exists i :: 0 <= i < |r.locator.id| && !IsSpace(r.locator.id[i])) && |r.row.ciphertext| > 0
  {
    TrimsToNothing(r.locator.id);
  }

  // ---------- what becomes of a record ----------

  /** Under either cipher a record is skipped exactly when it is already in order,
      and fails exactly when it is not and cannot be read or would not fit. */
  lemma FateExactlyWhen(k: Crypto, r: Rotator, row: Row, dryRun: bool)
    requires r.Valid(k) && CanRead(r, r)
    ensures var current := row.keyID == r.Active() && OwnEncoding(r, row.ciphertext);
            var readable := r.Decrypt(k, row.ciphertext).Opened? && Fits(k, r, |r.Decrypt(k, row.ciphertext).text|);
            FateOf(PortOf(k, r), row, dryRun) ==
              if current then Skipped else if !readable then Failed else if dryRun then Pending else Rotated
  {
    hide OwnEncoding, Fits, Rotator.Encrypt;
    CurrentExactlyWhen(k, r, row.ciphertext, row.keyID);
    var got := r.Decrypt(k, row.ciphertext);
    if got.Opened? { EncryptsExactlyWhen(k, r, NO_COINS, got.text); }
    UnparsedIsUnread(k, r, row.ciphertext);
  }

  lemma UnparsedIsUnread(k: Crypto, r: Rotator, value: Bytes)
    requires r.Valid(k)
    ensures Parse(value).Invalid? ==> r.Decrypt(k, value).Refused?
  {
  }

  // ---------- the figures ----------

  /** The places at which a list meets a test. */
  ghost function Places<T(!new)>(xs: seq<T>, test: T -> bool): set<int> { set i | 0 <= i < |xs| && test(xs[i]) }

  lemma PlacesGrow<T(!new)>(xs: seq<T>, x: T, test: T -> bool)
    ensures |Places(xs + [x], test)| == |Places(xs, test)| + if test(x) then 1 else 0
  {
    var more := xs + [x];
    assert forall i :: 0 <= i < |xs| ==> more[i] == xs[i];
    assert Places(more, test) == Places(xs, test) + if test(x) then {|xs|} else {};
  }

  /** The record met this fate, under this key if one is given. */
  predicate Met(c: Cipher, rows: Rows, dryRun: bool, fate: Fate, key: Option<Label>, l: Locator) {
    l in rows && FateOf(c, rows[l], dryRun) == fate && (key.None? || SourceKey(rows[l]) == key.value)
  }

  ghost function Having(c: Cipher, rows: Rows, at: seq<Locator>, dryRun: bool, fate: Fate, key: Option<Label>): set<int> {
    Places(at, (l: Locator) => Met(c, rows, dryRun, fate, key, l))
  }

  /** The figure that a fate is reported in. */
  function Figure(got: Counts, fate: Fate): int {
    match fate
    case Rotated => got.rotated
    case Pending => got.pending
    case Skipped => got.skipped
    case Failed => got.failed
  }

  lemma FigureGrows(got: Counts, fate: Fate, other: Fate)
    ensures Figure(got.Bump(fate), other) == Figure(got, other) + if other == fate then 1 else 0
    ensures got.Bump(fate).scanned == got.scanned + 1
  {
  }

  /** A scan reports, in all and for every key, how many records met each fate, how
      many it visited, and the last of them. */
  lemma {:induction false} ScanReportsWhatHappened(c: Cipher, rows: Rows, at: seq<Locator>, dryRun: bool, fate: Fate, key: Label)
    requires forall l :: l in at ==> l in rows
    ensures var got := Tally(c, rows, at, Empty(dryRun));
            && got.total.scanned == |at| && got.lastSeen == (if at == [] then NOWHERE else at[|at| - 1])
            && Figure(got.total, fate) == |Having(c, rows, at, dryRun, fate, None)|
            && Figure(At(got.byKey, key), fate) == |Having(c, rows, at, dryRun, fate, Some(key))|
  {
    hide FateOf, SourceKey, Places, Figure, Counts.Bump;
    if at == [] {
      NothingReported(c, rows, dryRun, fate, key);
    } else {
      var n := |at| - 1;
      var l := at[n];
      assert at == at[..n] + [l];
      ScanReportsWhatHappened(c, rows, at[..n], dryRun, fate, key);
      TallyKeepsMode(c, rows, at[..n], Empty(dryRun));
      var before := Tally(c, rows, at[..n], Empty(dryRun));
      var met := FateOf(c, rows[l], dryRun);
      FigureGrows(before.total, met, fate);
      FigureGrows(At(before.byKey, SourceKey(rows[l])), met, fate);
      PlacesGrow(at[..n], l, (l: Locator) => Met(c, rows, dryRun, fate, None, l));
      PlacesGrow(at[..n], l, (l: Locator) => Met(c, rows, dryRun, fate, Some(key), l));
    }
  }

  lemma NothingReported(c: Cipher, rows: Rows, dryRun: bool, fate: Fate, key: Label)
    ensures Figure(ZERO, fate) == 0
    ensures |Having(c, rows, [], dryRun, fate, None)| == 0 && |Having(c, rows, [], dryRun, fate, Some(key))| == 0
  {
    assert Having(c, rows, [], dryRun, fate, None) == {} && Having(c, rows, [], dryRun, fate, Some(key)) == {};
  }
}
