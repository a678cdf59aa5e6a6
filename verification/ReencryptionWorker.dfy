/** The re-encryption worker against a store that others may change meanwhile. */
module ReencryptionWorker {
  import opened Keyset
  import opened Envelope
  import opened Keyring
  import opened Reencryption

  // ---------- what happens to one record ----------

  const UNKNOWN_LABEL: Bytes := [0x6C, 0x65, 0x67, 0x61, 0x63, 0x79, 0x2D, 0x6F, 0x72, 0x2D, 0x75, 0x6E, 0x6B, 0x6E, 0x6F, 0x77, 0x6E]

  /** The key a record is counted under: the envelope's own key ID, else the
      persisted column, else "legacy-or-unknown". */
  function SourceKey(row: Row): Label {
    var parsed := Parse(row.ciphertext);
    if parsed.Valid? && parsed.env.enveloped && TrimBytes(parsed.env.keyID) != [] then Label(parsed.env.keyID)
    else if TrimBytes(row.keyID) != [] then Label(TrimBytes(row.keyID))
    else Label(UNKNOWN_LABEL)
  }

  /** A record the store may not contain: unknown kind, blank ID, no ciphertext. */
  predicate Malformed(r: Record) {
    !ValidKind(r.locator.kind) || TrimSpace(r.locator.id) == [] || r.row.ciphertext == []
  }

  const NO_COINS: Coins := Draw(seq(DEK_SIZE, _ => 0), seq(NONCE_SIZE, _ => 0), [], seq(NONCE_SIZE, _ => 0))

  /** The fate of a record whose replacement nobody contests. */
  function FateOf(c: Cipher, row: Row, dryRun: bool): Fate {
    match c.needs(row.ciphertext, row.keyID)
    case None => Failed
    case Some(false) => Skipped
    case Some(true) =>
      if c.reencrypt(row.ciphertext, NO_COINS).None? then Failed
      else if dryRun then Pending else Rotated
  }

  /** now is what an uncontested visit may leave where before was. */
  ghost predicate Visited(c: Cipher, before: Row, now: Row) {
    if FateOf(c, before, false).Rotated? then
      && now.keyID == c.active
      && c.needs(now.ciphertext, now.keyID) == Some(false)
      && c.read(before.ciphertext).Some?
      && c.read(now.ciphertext) == c.read(before.ciphertext)
    else now == before
  }

  // ---------- the specification of an undisturbed scan ----------

  type Rows = map<Locator, Row>

  /** The locators of all rows beyond a cursor, in order. */
  ghost function Ahead(rows: Rows, after: Locator): (all: seq<Locator>)
    ensures StrictTotal(Before) && Ascending(Before, all)
    ensures forall l :: l in all <==> l in rows && Before(after, l)
  {
    LocatorsAreOrdered();
    var all := Listing(After(rows.Keys, Before, Some(after)), Before);
    assert forall l :: l in all <==> l in Elements(all);
    all
  }

  /** Counting, on top of base, the records at the given locators in order. */
  ghost function Tally(c: Cipher, rows: Rows, at: seq<Locator>, base: Result): Result
    requires forall l :: l in at ==> l in rows
  {
    if at == [] then base
    else
      var l := at[|at| - 1];
      Tally(c, rows, at[..|at| - 1], base).Add(l, SourceKey(rows[l]), FateOf(c, rows[l], base.dryRun))
  }

  /** rows differs from before only by visits to the given locators. */
  ghost predicate Advanced(c: Cipher, before: Rows, rows: Rows, at: seq<Locator>) {
    && rows.Keys == before.Keys
    && (forall l :: l in rows && l in at ==> Visited(c, before[l], rows[l]))
    && (forall l :: l in rows && l !in at ==> rows[l] == before[l])
  }

  // ---------- the shared world ----------

  datatype Checkpoint = Checkpoint(version: int, active: Bytes, after: Locator, result: Result)

  /** What the outside does at one call of the worker into it: nothing; the
      process is told to stop; the call fails, perhaps after taking effect; the
      store returns a page that breaks its contract; another writer replaces the
      rows first; the process dies right after a checkpoint is saved. */
  datatype Tick = Calm | Cancel | Fail(committed: bool) | BadPage(page: seq<Record>) | Write(rows: Rows) | DieAfterSave

  predicate Undisturbed(script: seq<Tick>) {
    forall i :: 0 <= i < |script| ==> script[i].Calm? || script[i].DieAfterSave?
  }

  ghost function Plaintexts(c: Cipher, rows: Rows): map<Locator, Option<Bytes>> {
    map l | l in rows :: c.read(rows[l].ciphertext)
  }

  datatype Status = Done | DoneWithFailures | Cancelled | ListFailed | TooMany | BadRecord | SaveFailed
                  | Died | LoadFailed | Mismatch | BadConfig | DeleteFailed

  /** What the outside does at the next call. */
  function Head(script: seq<Tick>): Tick { if script == [] then Calm else script[0] }

  /** The rows a call finds: another writer comes first. */
  function Found(rows: Rows, t: Tick): Rows { if t.Write? then t.rows else rows }

  /** The record is still stored as it was read. */
  predicate Unchanged(rows: Rows, t: Tick, r: Record) {
    r.locator in Found(rows, t) && Found(rows, t)[r.locator] == r.row
  }

  /** The compare-and-swap takes place. */
  predicate Swaps(rows: Rows, t: Tick, r: Record) { t != Fail(false) && Unchanged(rows, t, r) }

  /** The fate of a visited record under any interference: a replacement that fails
      counts as failed even if it took effect, and one that lost its race as skipped. */
  function FateUnder(c: Cipher, rows: Rows, t: Tick, r: Record, dryRun: bool): Fate {
    var fate := FateOf(c, r.row, dryRun);
    if !fate.Rotated? then fate
    else if t.Fail? then Failed
    else if Unchanged(rows, t, r) then Rotated
    else Skipped
  }

  /** The rows after a visit under any interference. */
  ghost predicate LeftBy(c: Cipher, before: Rows, t: Tick, r: Record, dryRun: bool, now: Rows) {
    if !FateOf(c, r.row, dryRun).Rotated? then now == before
    else if !Swaps(before, t, r) then now == Found(before, t)
    else
      && r.locator in now && Visited(c, r.row, now[r.locator])
      && now == Found(before, t)[r.locator := now[r.locator]]
  }

  type BatchSize = n: int | n > 0 witness 1

  ghost predicate Balanced(saved: Option<Checkpoint>) {
    saved.Some? ==> saved.value.result.Accounted() && !saved.value.result.dryRun
  }

  class World {
    const c: Cipher
    const batch: BatchSize
    var rows: Rows
    var checkpoint: Option<Checkpoint>
    var script: seq<Tick>
    /** What every other writer last stored, decrypted. */
    ghost var truth: map<Locator, Option<Bytes>>

    constructor (c: Cipher, batch: BatchSize, rows: Rows, checkpoint: Option<Checkpoint>, script: seq<Tick>)
      requires Balanced(checkpoint)
      ensures Faithful()
      ensures this.c == c && this.batch == batch && this.rows == rows
      ensures this.checkpoint == checkpoint && this.script == script
    {
      hide Plaintexts, Balanced;
      this.c, this.batch, this.rows, this.checkpoint, this.script := c, batch, rows, checkpoint, script;
      this.truth := Plaintexts(c, rows);
    }

    /** The worker has never changed a plaintext, and a saved checkpoint carries
        balanced counts of an executing run. */
    ghost predicate Faithful() reads this {
      truth == Plaintexts(c, rows) && Balanced(checkpoint)
    }

    /** The store, the truth and the checkpoint are as they were. */
    twostate predicate Untouched() reads this {
      rows == old(rows) && truth == old(truth) && checkpoint == old(checkpoint)
    }

    /** One call into the outside; a concurrent write happens before the call. */
    method Step() returns (t: Tick)
      requires Faithful()
      modifies this
      ensures Faithful() && checkpoint == old(checkpoint)
      ensures old(script) == [] ==> t == Calm && script == []
      ensures old(script) != [] ==> t == old(script)[0] && script == old(script)[1..]
      ensures !t.Write? ==> Untouched()
      ensures rows == Found(old(rows), t)
    {
      if script == [] { return Calm; }
      t := script[0];
      script := script[1..];
      if t.Write? {
        rows := t.rows;
        truth := Plaintexts(c, rows);
      }
    }

    method List(after: Locator) returns (page: Option<seq<Record>>)
      requires Faithful()
      modifies this
      ensures Faithful() && checkpoint == old(checkpoint)
      ensures |script| <= |old(script)| && (old(script) != [] ==> |script| < |old(script)|)
      ensures Undisturbed(old(script)) ==>
                && Undisturbed(script) && rows == old(rows)
                && page == Some(RecordsAt(rows, PageOf(rows, after, batch)))
    {
      hide Ahead, Plaintexts, PageOf, RecordsAt;
      var t := Step();
      if t.Fail? { return None; }
      if t.BadPage? { return Some(t.page); }
      var sorted := SortedPage(after);
      page := Some(sorted);
    }

    /** The store's page query: the next batch of rows in locator order. */
    method SortedPage(after: Locator) returns (page: seq<Record>)
      ensures page == RecordsAt(rows, PageOf(rows, after, batch))
    {
      hide Ahead;
      ghost var all := Ahead(rows, after);
      var left := set l | l in rows && Before(after, l);
      assert left == Elements(all[0..]);
      var at: seq<Locator> := [];
      LocatorsAreOrdered();
      while left != {} && |at| < batch
        invariant |at| <= batch && |at| <= |all| && at == all[..|at|]
        invariant left == Elements(all[|at|..])
        decreases |left|
      {
        var l := PickLeast(left);
        NextLeast(all, |at|, l);
        at := at + [l];
        left := left - {l};
      }
      if |at| < |all| { assert all[|at|] in Elements(all[|at|..]); }
      assert at == PageOf(rows, after, batch);
      page := RecordsAt(rows, at);
    }

    method Replace(expected: Record, newKey: Bytes, ciphertext: Bytes) returns (ok: bool, err: bool)
      requires Faithful()
      requires c.read(ciphertext) == c.read(expected.row.ciphertext)
      modifies this
      ensures Faithful() && checkpoint == old(checkpoint)
      ensures |script| <= |old(script)|
      ensures Undisturbed(old(script)) ==>
                && Undisturbed(script) && !err
                && ok == (expected.locator in old(rows) && old(rows)[expected.locator] == expected.row)
                && rows == if ok then old(rows)[expected.locator := Row(newKey, ciphertext)] else old(rows)
      ensures var t := Head(old(script));
              && err == t.Fail? && ok == (!t.Fail? && Unchanged(old(rows), t, expected))
              && rows == if Swaps(old(rows), t, expected) then Found(old(rows), t)[expected.locator := Row(newKey, ciphertext)]
                         else Found(old(rows), t)
    {
      var t := Step();
      ok, err := false, t.Fail?;
      if t.Fail? && !t.committed { return; }
      // compare-and-swap on both the old key ID and the old ciphertext
      if expected.locator in rows && rows[expected.locator] == expected.row {
        rows := rows[expected.locator := Row(newKey, ciphertext)];
        ok := !err;
        assert Plaintexts(c, rows) == truth;
      }
    }

    method SaveCheckpoint(p: Checkpoint) returns (died: bool, err: bool)
      requires Faithful()
      requires p.result.Accounted() && !p.result.dryRun
      modifies this
      ensures Faithful()
      ensures |script| <= |old(script)|
      ensures Undisturbed(old(script)) ==>
                && Undisturbed(script) && !err
                && rows == old(rows) && checkpoint == Some(p)
    {
      hide Plaintexts, Result.Accounted;
      var t := Step();
      died, err := t.DieAfterSave?, t.Fail?;
      if !err || t.committed { checkpoint := Some(p); }
    }

    /** Visiting one validated record. */
    method Visit(r: Record, dryRun: bool, result: Result, coins: Locator -> Coins) returns (next: Result)
      requires Faithful() && result.Accounted()
      modifies this
      ensures Faithful() && next.Accounted() && checkpoint == old(checkpoint)
      ensures |script| <= |old(script)|
      ensures next.dryRun == result.dryRun && next.resumed == result.resumed && next.lastSeen == r.locator
      ensures next.total.failed >= result.total.failed
      ensures Undisturbed(old(script)) && r.locator in old(rows) && old(rows)[r.locator] == r.row ==>
                && Undisturbed(script)
                && next == result.Add(r.locator, SourceKey(r.row), FateOf(c, r.row, dryRun))
                && if dryRun then rows == old(rows) else Advanced(c, old(rows), rows, [r.locator])
      ensures var t := Head(old(script));
              && next == result.Add(r.locator, SourceKey(r.row), FateUnder(c, old(rows), t, r, dryRun))
              && LeftBy(c, old(rows), t, r, dryRun, rows)
    {
      hide Advanced, SourceKey, Result.Accounted, Plaintexts, LeftBy, FateUnder;
      var fate := Settle(r, dryRun, coins);
      AddKeepsAccounts(result, r.locator, SourceKey(r.row), fate);
      next := result.Add(r.locator, SourceKey(r.row), fate);
    }

    /** The records of one page, in order, stopping at the first cancelled
        context or invalid record. k counts the records visited; calm says that
        nothing interferes and that at lists the page's locators. */
    method ScanPage(page: seq<Record>, start: Locator, dryRun: bool, base: Result, coins: Locator -> Coins,
                    ghost calm: bool, ghost at: seq<Locator>)
      returns (result: Result, after: Locator, status: Status, ghost k: nat)
      requires Faithful() && base.Accounted() && base.dryRun == dryRun
      requires calm ==> Undisturbed(script) && IsPage(rows, start, at) && page == RecordsAt(rows, at)
      modifies this
      ensures Faithful() && result.Accounted() && checkpoint == old(checkpoint)
      ensures |script| <= |old(script)|
      ensures result.dryRun == dryRun && result.resumed == base.resumed
      ensures status in {Done, Cancelled, BadRecord}
      ensures k <= |page| && (status == Done ==> k == |page|)
      ensures after == if k == 0 then start else page[k - 1].locator
      ensures calm ==>
                && Undisturbed(script) && status != Cancelled
                && Covered(c, old(rows), rows, at, k, base, result, dryRun)
                && (status == BadRecord ==> k < |page| && Malformed(page[k]))
                && WellFormed(page, k)
    {
      hide *;
      WellFormedStart(page);
      result, after, status, k := base, start, Done, 0;
      if calm { NothingCovered(c, rows, start, at, base); }
      for i := 0 to |page|
        invariant Faithful() && result.Accounted() && checkpoint == old(checkpoint)
        invariant |script| <= |old(script)|
        invariant result.dryRun == dryRun && result.resumed == base.resumed
        invariant status == Done && k == i
        invariant after == if i == 0 then start else page[i - 1].locator
        invariant calm ==>
                    && Undisturbed(script)
                    && Covered(c, old(rows), rows, at, i, base, result, dryRun)
                    && WellFormed(page, i)
      {
        var stop := Stopped();
        if stop { status := Cancelled; return; }
        var r := page[i];
        if calm { NextIs(c, old(rows), rows, start, at, i, base, result, dryRun); }
        if Malformed(r) || !Before(after, r.locator) { status := BadRecord; return; }
        WellFormedNext(page, i);
        ghost var was, soFar := rows, result;
        result := Visit(r, dryRun, result, coins);
        after := r.locator;
        k := i + 1;
        if calm { OneMore(c, old(rows), was, rows, start, at, i, base, soFar, dryRun); }
      }
    }

    /** Whether the caller's context has been cancelled. */
    method Stopped() returns (stop: bool)
      requires Faithful()
      modifies this
      ensures Faithful() && checkpoint == old(checkpoint)
      ensures |script| <= |old(script)| && (old(script) != [] ==> |script| < |old(script)|)
      ensures Undisturbed(old(script)) ==> Undisturbed(script) && rows == old(rows) && !stop
    {
      var t := Step();
      stop := t.Cancel?;
    }

    /** The part of a visit that may touch the store. */
    method Settle(r: Record, dryRun: bool, coins: Locator -> Coins) returns (fate: Fate)
      requires Faithful()
      modifies this
      ensures Faithful() && checkpoint == old(checkpoint)
      ensures |script| <= |old(script)|
      ensures dryRun ==> Untouched() && script == old(script)
      ensures Undisturbed(old(script)) && r.locator in old(rows) && old(rows)[r.locator] == r.row ==>
                && Undisturbed(script)
                && fate == FateOf(c, r.row, dryRun)
                && (!dryRun ==> Advanced(c, old(rows), rows, [r.locator]))
      ensures var t := Head(old(script));
              fate == FateUnder(c, old(rows), t, r, dryRun) && LeftBy(c, old(rows), t, r, dryRun, rows)
    {
      hide Advanced, Plaintexts;
      var needs := c.needs(r.row.ciphertext, r.row.keyID);
      if needs.None? {
        VisitLeaves(c, rows, r);
        return Failed;
      }
      if !needs.value {
        VisitLeaves(c, rows, r);
        return Skipped;
      }
      var rotated := c.reencrypt(r.row.ciphertext, coins(r.locator));
      assert rotated.Some? == c.reencrypt(r.row.ciphertext, NO_COINS).Some?;
      if rotated.None? {
        VisitLeaves(c, rows, r);
        return Failed;
      }
      if dryRun { return Pending; }
      VisitRotates(c, rows, r, coins(r.locator));
      var ok, err := Replace(r, c.active, rotated.value);
      if err { return Failed; }
      if !ok { return Skipped; }
      return Rotated;
    }

    /** The cursor loop. save carries the checkpointed prefix of an operator run;
        without it no checkpoint is written. n counts the records visited. */
    method RunFrom(start: Locator, dryRun: bool, save: Option<Result>, coins: Locator -> Coins)
      returns (result: Result, status: Status, ghost n: nat)
      requires Faithful() && (save.Some? ==> save.value.Accounted() && !save.value.dryRun && !dryRun)
      modifies this
      ensures Faithful() && result.Accounted()
      ensures result.dryRun == dryRun && !result.resumed && status !in {Mismatch, BadConfig, LoadFailed}
      ensures save.None? ==> checkpoint == old(checkpoint)
      ensures Undisturbed(old(script)) ==>
                && Undisturbed(script)
                && Covered(c, old(rows), rows, Ahead(old(rows), start), n, Empty(dryRun), result, dryRun)
                && Ended(old(rows), start, n, result, status)
                && (status == Died ==> save.Some? && DiedAt(c, old(rows), start, n, Combine(save.value, result), checkpoint))
    {
      hide *;
      EmptyIsAccounted(dryRun);
      result, n := Empty(dryRun), 0;
      var after := start;
      ghost var first, quiet := rows, Undisturbed(script);
      ghost var all := Ahead(first, start);
      FreshScan(c, first, start, dryRun);
      while true
        invariant Faithful() && result.Accounted()
        invariant result.dryRun == dryRun && !result.resumed
        invariant save.None? ==> checkpoint == old(checkpoint)
        invariant quiet ==> Undisturbed(script)
        invariant quiet ==> AtPageStart(c, first, rows, start, n, result, dryRun, after)
        decreases |script|, |Ahead(rows, after)|
      {
        EmptyScriptIsCalm(script);
        var stop := Stopped();
        if stop { return result, Cancelled, n; }
        var listed := List(after);
        if listed.None? { return result, ListFailed, n; }
        var page := listed.value;
        if |page| > batch { return result, TooMany, n; }
        ghost var mid, soFar, began, at := rows, result, after, PageOf(rows, after, batch);
        ghost var calm := Undisturbed(script) && page == RecordsAt(mid, at);
        PageIsPage(mid, after, batch);
        ghost var k: nat;
        var outcome: Status;
        result, after, outcome, k := ScanPage(page, after, dryRun, result, coins, calm, at);
        if calm { Shrinks(c, mid, rows, began, at, batch, k, soFar, result, dryRun, after); }
        if quiet { PageDone(c, first, mid, rows, start, at, batch, n, k, soFar, result, dryRun, began, after); }
        n := n + k;
        if outcome != Done { return result, outcome, n; }
        if save.Some? && |page| != 0 {
          CombineKeepsAccounts(save.value, result);
          var saved := Checkpoint(1, c.active, result.lastSeen, Combine(save.value, result));
          var died, err := SaveCheckpoint(saved);
          if died {
            if quiet { SavedHere(c, first, rows, start, n, result, dryRun, after, Combine(save.value, result)); }
            return result, Died, n;
          }
          if err { return result, SaveFailed, n; }
        }
        if |page| < batch {
          return result, (if result.total.failed != 0 then DoneWithFailures else Done), n;
        }
      }
    }

    /** An operator's run: a dry-run inventory, or an executing run that resumes
        from a checkpoint of the same active key. */
    method RunOperator(dryRun: bool, resume: bool, scope: string, coins: Locator -> Coins)
      returns (result: Result, status: Status, ghost n: nat)
      requires Faithful()
      modifies this
      ensures Faithful() && result.Accounted()
      ensures dryRun ==> result.dryRun && checkpoint == old(checkpoint)
      ensures dryRun && Undisturbed(old(script)) ==>
                && rows == old(rows)
                && Covered(c, rows, rows, Ahead(rows, NOWHERE), n, Empty(true), result, true)
                && Ended(rows, NOWHERE, n, result, status)
      ensures !dryRun && (TrimSpace(scope) == [] || |TrimSpace(scope)| > 255) ==>
                status == BadConfig && rows == old(rows) && checkpoint == old(checkpoint) && script == old(script)
      ensures !dryRun && 0 < |TrimSpace(scope)| <= 255 && Undisturbed(old(script)) ==>
                && Undisturbed(script)
                && OperatorCall(c, Snap(old(rows), old(checkpoint)), Snap(rows, checkpoint), resume, n, result, status)
                && (status == Mismatch <==> Foreign(c, resume, old(checkpoint)))
                && (status == Mismatch ==> rows == old(rows) && checkpoint == old(checkpoint))
    {
      hide *;
      ForeignExactlyWhen(c, resume, checkpoint);
      EmptyIsAccounted(dryRun);
      n := 0;
      if dryRun {
        result, status, n := RunFrom(NOWHERE, true, None, coins);
        if Undisturbed(old(script)) { DryRunLeavesRows(c, old(rows), rows, n, result); }
        return;
      }
      if TrimSpace(scope) == [] || |TrimSpace(scope)| > 255 { return Empty(false), BadConfig, 0; }
      var after, prefix := NOWHERE, Empty(false);
      if resume {
        var t := Load();
        if t.Fail? { return prefix, LoadFailed, 0; }
        if checkpoint.Some? {
          var p := checkpoint.value;
          if !Usable(c, p) {
            MismatchCall(c, Snap(old(rows), old(checkpoint)), Snap(rows, checkpoint));
            return prefix, Mismatch, 0;
          }
          BalancedPrefix(p);
          after, prefix := p.after, p.result.(resumed := true);
        }
      }
      ghost var start := rows;
      OriginIs(c, Snap(start, checkpoint), resume, after, prefix);
      var tail;
      tail, status, n := RunFrom(after, false, Some(prefix), coins);
      CombineKeepsAccounts(prefix, tail);
      result := Combine(prefix, tail).(resumed := prefix.resumed);
      SameAccounts(Combine(prefix, tail), prefix.resumed);
      ghost var saved := checkpoint;
      if status == Done {
        var t := Delete();
        if t.Fail? { status := DeleteFailed; }
      }
      if Undisturbed(old(script)) {
        CallIs(c, Snap(start, old(checkpoint)), rows, saved, checkpoint, resume, after, prefix, n, tail, status);
      }
    }

    method Load() returns (t: Tick)
      requires Faithful()
      modifies this
      ensures Faithful() && checkpoint == old(checkpoint)
      ensures Undisturbed(old(script)) ==> Undisturbed(script) && rows == old(rows) && !t.Fail?
    {
      t := Step();
    }

    method Delete() returns (t: Tick)
      requires Faithful()
      modifies this
      ensures Faithful()
      ensures Undisturbed(old(script)) ==> Undisturbed(script) && rows == old(rows) && !t.Fail? && checkpoint == None
    {
      t := Step();
      if !t.Fail? || t.committed { checkpoint := None; }
    }
  }

  // ---------- composing scans ----------

  /** at is a run of locators of rows, in order, all beyond start. */
  ghost predicate IsPage(rows: Rows, start: Locator, at: seq<Locator>) {
    && (forall l :: l in at ==> l in rows)
    && Ascending(Before, [start] + at)
    && StrictTotal(Before)
  }

  ghost predicate WellFormed(page: seq<Record>, n: int) {
    n <= |page| && forall i :: 0 <= i < n ==> !Malformed(page[i])
  }

  lemma WellFormedStart(page: seq<Record>)
    ensures WellFormed(page, 0)
  {
  }

  lemma WellFormedNext(page: seq<Record>, n: int)
    requires 0 <= n < |page| && !Malformed(page[n])
    ensures WellFormed(page, n) ==> WellFormed(page, n + 1)
  {
  }

  /** The first i records at the given locators have been counted into result
      and, unless this is a dry run, visited. */
  ghost predicate Covered(c: Cipher, before: Rows, rows: Rows, at: seq<Locator>, i: int,
                          base: Result, result: Result, dryRun: bool) {
    && (forall l :: l in at ==> l in before)
    && 0 <= i <= |at|
    && base.dryRun == dryRun
    && result == Tally(c, before, at[..i], base)
    && (if dryRun then rows == before else Advanced(c, before, rows, at[..i]))
  }

  lemma NothingCovered(c: Cipher, rows: Rows, start: Locator, at: seq<Locator>, base: Result)
    requires IsPage(rows, start, at)
    ensures Covered(c, rows, rows, at, 0, base, base, base.dryRun)
  {
  }

  /** The next record of a page is still as it was when the page was read. */
  lemma NextIs(c: Cipher, before: Rows, rows: Rows, start: Locator, at: seq<Locator>, i: int,
               base: Result, result: Result, dryRun: bool)
    requires IsPage(before, start, at) && 0 <= i < |at|
    requires Covered(c, before, rows, at, i, base, result, dryRun)
    ensures RecordsAt(before, at)[i] == Record(at[i], before[at[i]])
    ensures i > 0 ==> RecordsAt(before, at)[i - 1].locator == at[i - 1]
    ensures Before(if i == 0 then start else at[i - 1], at[i])
    ensures at[i] in rows && rows[at[i]] == before[at[i]] && at[i] !in at[..i]
  {
    hide Visited, Tally;
    var all := [start] + at;
    assert at[i] in at && at[i] == all[i + 1];
    assert Before(all[i], all[i + 1]);
    forall j | 0 <= j < i ensures at[j] != at[i] {
      assert Before(all[j + 1], all[i + 1]);
    }
  }

  lemma OneMore(c: Cipher, before: Rows, was: Rows, rows: Rows, start: Locator, at: seq<Locator>, i: int,
                base: Result, soFar: Result, dryRun: bool)
    requires IsPage(before, start, at) && 0 <= i < |at|
    requires Covered(c, before, was, at, i, base, soFar, dryRun)
    requires if dryRun then rows == was else Advanced(c, was, rows, [at[i]])
    requires at[i] in before
    ensures Covered(c, before, rows, at, i + 1, base,
                    soFar.Add(at[i], SourceKey(before[at[i]]), FateOf(c, before[at[i]], dryRun)), dryRun)
  {
    hide Visited, FateOf, SourceKey, Tally, Advanced, IsPage, Before, Result.Add;
    assert at[..i + 1] == at[..i] + [at[i]];
    assert at[..i + 1][..i] == at[..i];
    NextIs(c, before, was, start, at, i, base, soFar, dryRun);
    TallyLast(c, before, at[..i + 1], base);
    if !dryRun {
      AdvancedTwice(c, before, was, rows, at[..i], [at[i]]);
    }
  }

  lemma NothingScanned(c: Cipher, rows: Rows, base: Result)
    ensures Tally(c, rows, [], base) == base && Advanced(c, rows, rows, [])
  {
  }

  lemma {:induction false} TallyKeepsMode(c: Cipher, rows: Rows, at: seq<Locator>, base: Result)
    requires forall l :: l in at ==> l in rows
    ensures Tally(c, rows, at, base).dryRun == base.dryRun && Tally(c, rows, at, base).resumed == base.resumed
  {
    if at != [] {
      TallyKeepsMode(c, rows, at[..|at| - 1], base);
    }
  }

  lemma TallyLast(c: Cipher, rows: Rows, at: seq<Locator>, base: Result)
    requires at != [] && forall l :: l in at ==> l in rows
    ensures Tally(c, rows, at, base)
         == Tally(c, rows, at[..|at| - 1], base)
            .Add(at[|at| - 1], SourceKey(rows[at[|at| - 1]]), FateOf(c, rows[at[|at| - 1]], base.dryRun))
  {
  }

  lemma {:induction false} TallyAppends(c: Cipher, rows: Rows, xs: seq<Locator>, ys: seq<Locator>, base: Result)
    requires forall l :: l in xs || l in ys ==> l in rows
    ensures Tally(c, rows, xs + ys, base) == Tally(c, rows, ys, Tally(c, rows, xs, base))
  {
    hide Tally, SourceKey, FateOf, Result.Add;
    TallyKeepsMode(c, rows, xs, base);
    var mid := Tally(c, rows, xs, base);
    if ys == [] {
      assert xs + ys == xs;
      NothingScanned(c, rows, mid);
    } else {
      var n := |ys| - 1;
      TallyAppends(c, rows, xs, ys[..n], base);
      var both := xs + ys;
      assert both[..|both| - 1] == xs + ys[..n] && both[|both| - 1] == ys[n];
      TallyLast(c, rows, both, base);
      TallyLast(c, rows, ys, mid);
    }
  }

  lemma {:induction false} TallyAgrees(c: Cipher, rows: Rows, other: Rows, at: seq<Locator>, base: Result)
    requires forall l :: l in at ==> l in rows && l in other && rows[l] == other[l]
    ensures Tally(c, rows, at, base) == Tally(c, other, at, base)
  {
    hide SourceKey, FateOf;
    if at != [] {
      TallyAgrees(c, rows, other, at[..|at| - 1], base);
    }
  }

  /** Counting on top of a checkpointed prefix is combining with it. */
  lemma {:induction false} TallyCombines(c: Cipher, rows: Rows, at: seq<Locator>, prefix: Result)
    requires forall l :: l in at ==> l in rows && l != NOWHERE
    requires !prefix.dryRun
    ensures Combine(prefix, Tally(c, rows, at, Empty(false))) == Tally(c, rows, at, prefix)
  {
    hide SourceKey, FateOf;
    if at == [] {
      CombineWithEmpty(prefix);
    } else {
      var l := at[|at| - 1];
      var init := at[..|at| - 1];
      assert l in at && forall x :: x in init ==> x in at;
      TallyCombines(c, rows, init, prefix);
      CombineAdds(prefix, Tally(c, rows, init, Empty(false)), l, SourceKey(rows[l]), FateOf(c, rows[l], false));
    }
  }

  lemma CombineWithEmpty(prefix: Result)
    requires !prefix.dryRun
    ensures Combine(prefix, Empty(false)) == prefix
  {
    assert CombinedKeys(prefix.byKey, map[]) == prefix.byKey;
  }

  lemma CombinedUpdate<K>(l: map<K, Counts>, r: map<K, Counts>, k: K, f: Fate)
    ensures CombinedKeys(l, r[k := At(r, k).Bump(f)])
         == CombinedKeys(l, r)[k := At(CombinedKeys(l, r), k).Bump(f)]
  {
    hide Counts.Plus;
    PlusSwaps(At(l, k), At(r, k), One(f));
    var a := CombinedKeys(l, r[k := At(r, k).Bump(f)]);
    var b := CombinedKeys(l, r)[k := At(CombinedKeys(l, r), k).Bump(f)];
    CombinedAt(l, r, k);
    assert a.Keys == b.Keys;
  }

  lemma CombineAdds(left: Result, right: Result, at: Locator, key: Label, f: Fate)
    requires at != NOWHERE
    ensures Combine(left, right.Add(at, key, f)) == Combine(left, right).Add(at, key, f)
  {
    hide Counts.Plus, CombinedKeys, At;
    PlusSwaps(left.total, right.total, One(f));
    CombinedUpdate(left.byKey, right.byKey, key, f);
  }

  lemma AdvancedTwice(c: Cipher, first: Rows, second: Rows, third: Rows, xs: seq<Locator>, ys: seq<Locator>)
    requires Advanced(c, first, second, xs) && Advanced(c, second, third, ys)
    requires forall l :: l in xs ==> l !in ys
    ensures Advanced(c, first, third, xs + ys)
  {
    hide Visited;
  }

  lemma AheadContinues(rows: Rows, other: Rows, start: Locator, n: nat)
    requires rows.Keys == other.Keys && n <= |Ahead(rows, start)|
    ensures var all := Ahead(rows, start);
            Ahead(other, if n == 0 then start else all[n - 1]) == all[n..]
  {
    LocatorsAreOrdered();
    if n > 0 {
      ListingSplit(rows.Keys, Before, Some(start), n);
    }
  }

  lemma VisitRotates(c: Cipher, rows: Rows, r: Record, x: Coins)
    requires FateOf(c, r.row, false).Rotated?
    ensures c.reencrypt(r.row.ciphertext, x).Some?
    ensures r.locator in rows && rows[r.locator] == r.row ==>
      Advanced(c, rows, rows[r.locator := Row(c.active, c.reencrypt(r.row.ciphertext, x).value)], [r.locator])
  {
    assert c.reencrypt(r.row.ciphertext, x).Some? == c.reencrypt(r.row.ciphertext, NO_COINS).Some?;
  }

  lemma VisitLeaves(c: Cipher, rows: Rows, r: Record)
    requires !FateOf(c, r.row, false).Rotated?
    ensures r.locator in rows && rows[r.locator] == r.row ==> Advanced(c, rows, rows, [r.locator])
  {
  }

  ghost function PageOf(rows: Rows, after: Locator, batch: int): (at: seq<Locator>)
    ensures forall l :: l in at ==> l in rows
    ensures 0 < batch ==> |at| <= batch
  {
    var all := Ahead(rows, after);
    if 0 <= batch < |all| then all[..batch] else all
  }

  function RecordsAt(rows: Rows, at: seq<Locator>): (records: seq<Record>)
    requires forall l :: l in at ==> l in rows
    ensures |records| == |at|
  {
    seq(|at|, i requires 0 <= i < |at| => Record(at[i], rows[at[i]]))
  }

  lemma NextLeast(all: seq<Locator>, n: nat, l: Locator)
    requires StrictTotal(Before) && Ascending(Before, all) && n <= |all|
    requires IsLeast(l, Elements(all[n..]), Before)
    ensures n < |all| && l == all[n] && Elements(all[n..]) - {l} == Elements(all[n + 1..])
  {
    var i :| 0 <= i < |all[n..]| && all[n..][i] == l;
    assert all[n] in Elements(all[n..]) by { assert all[n..][0] == all[n]; }
    NotDescending(Before, all, n, n + i);
    assert all[n..] == [all[n]] + all[n + 1..];
    forall j | n < j < |all| ensures all[j] != all[n] {
      assert Before(all[n], all[j]);
    }
  }

  method PickLeast(s: set<Locator>) returns (m: Locator)
    requires s != {} && StrictTotal(Before)
    ensures IsLeast(m, s, Before)
  {
    m :| m in s;
    var left := s - {m};
    while left != {}
      invariant m in s && left <= s && m !in left
      invariant forall x :: x in s && x !in left && x != m ==> Before(m, x)
      decreases |left|
    {
      var x :| x in left;
      left := left - {x};
      if Before(x, m) { m := x; }
    }
  }

  // ---------- the cursor loop, one page at a time ----------

  /** How an undisturbed scan can end after n records. */
  ghost predicate Ended(before: Rows, start: Locator, n: int, result: Result, status: Status) {
    var records := RecordsAt(before, Ahead(before, start));
    && 0 <= n <= |records| && WellFormed(records, n)
    && (match status
        case Done => n == |records| && result.total.failed == 0
        case DoneWithFailures => n == |records| && result.total.failed != 0
        case BadRecord => n < |records| && Malformed(records[n])
        case Died => true
        case _ => false)
  }

  /** The checkpoint left by a run that died after saving at record n. */
  ghost predicate DiedAt(c: Cipher, before: Rows, start: Locator, n: int, result: Result, saved: Option<Checkpoint>) {
    && 0 < n <= |Ahead(before, start)|
    && saved == Some(Checkpoint(1, c.active, Ahead(before, start)[n - 1], result))
  }

  /** The loop's state between pages: n records done, the cursor on the last. */
  ghost predicate AtPageStart(c: Cipher, first: Rows, rows: Rows, start: Locator, n: int,
                              result: Result, dryRun: bool, after: Locator) {
    var all := Ahead(first, start);
    && Covered(c, first, rows, all, n, Empty(dryRun), result, dryRun)
    && WellFormed(RecordsAt(first, all), n)
    && after == (if n == 0 then start else all[n - 1])
  }

  lemma FreshScan(c: Cipher, rows: Rows, start: Locator, dryRun: bool)
    ensures AtPageStart(c, rows, rows, start, 0, Empty(dryRun), dryRun, start)
  {
    hide Ahead, Advanced, Tally, RecordsAt, Malformed;
    NothingScanned(c, rows, Empty(dryRun));
    WellFormedStart(RecordsAt(rows, Ahead(rows, start)));
    assert Ahead(rows, start)[..0] == [];
  }

  lemma EmptyIsAccounted(dryRun: bool)
    ensures Empty(dryRun).Accounted() && Empty(dryRun).dryRun == dryRun && !Empty(dryRun).resumed
  {
  }

  lemma PageIsPage(rows: Rows, after: Locator, batch: int)
    requires batch > 0
    ensures IsPage(rows, after, PageOf(rows, after, batch))
  {
    hide CompareLocators;
    var at := PageOf(rows, after, batch);
    assert forall i :: 0 <= i < |at| ==> at[i] in Ahead(rows, after);
  }

  lemma EmptyScriptIsCalm(script: seq<Tick>)
    ensures script == [] ==> Undisturbed(script)
  {
  }

  /** The page read n records into a scan is the matching stretch of the listing. */
  lemma PageIsStretch(first: Rows, mid: Rows, start: Locator, at: seq<Locator>, batch: int, n: int)
    requires mid.Keys == first.Keys && 0 <= n <= |Ahead(first, start)| && batch > 0
    requires at == PageOf(mid, if n == 0 then start else Ahead(first, start)[n - 1], batch)
    ensures n + |at| <= |Ahead(first, start)| && at == Ahead(first, start)[n..n + |at|]
    ensures |at| < batch ==> n + |at| == |Ahead(first, start)|
  {
    hide Ahead;
    var all := Ahead(first, start);
    AheadContinues(first, mid, start, n);
    assert all[n..][..|at|] == all[n..n + |at|];
  }

  lemma SameKeys(c: Cipher, before: Rows, rows: Rows, at: seq<Locator>, i: int, base: Result, result: Result, dryRun: bool)
    requires Covered(c, before, rows, at, i, base, result, dryRun)
    ensures rows.Keys == before.Keys
  {
  }

  lemma DistinctHalves(all: seq<Locator>, n: int, m: int)
    requires StrictTotal(Before) && Ascending(Before, all) && 0 <= n <= m <= |all|
    ensures forall l :: l in all[..n] ==> l !in all[n..m]
  {
    forall i, j | 0 <= i < n <= j < m ensures all[i] != all[j] {
      assert Before(all[i], all[j]);
    }
  }

  /** Records ahead of the scan are still as they were at its start. */
  lemma StretchUnvisited(c: Cipher, first: Rows, mid: Rows, all: seq<Locator>, at: seq<Locator>,
                         n: int, base: Result, soFar: Result, dryRun: bool)
    requires StrictTotal(Before) && Ascending(Before, all)
    requires Covered(c, first, mid, all, n, base, soFar, dryRun)
    requires n + |at| <= |all| && at == all[n..n + |at|]
    ensures forall l :: l in at ==> l in mid && l in first && mid[l] == first[l] && l !in all[..n]
  {
    hide Tally, Visited, StrictTotal, Ascending;
    DistinctHalves(all, n, n + |at|);
    assert forall l :: l in at ==> l in all;
    assert forall l :: l in at ==> l !in all[..n];
  }

  lemma Extend(c: Cipher, first: Rows, mid: Rows, rows: Rows, all: seq<Locator>, at: seq<Locator>,
               n: int, k: int, base: Result, soFar: Result, result: Result, dryRun: bool)
    requires StrictTotal(Before) && Ascending(Before, all)
    requires Covered(c, first, mid, all, n, base, soFar, dryRun)
    requires n + |at| <= |all| && at == all[n..n + |at|]
    requires Covered(c, mid, rows, at, k, soFar, result, dryRun)
    ensures Covered(c, first, rows, all, n + k, base, result, dryRun)
    ensures k > 0 ==> at[k - 1] == all[n + k - 1]
  {
    hide Tally, Advanced, Ascending, StrictTotal;
    StretchUnvisited(c, first, mid, all, at, n, base, soFar, dryRun);
    var xs, ys := all[..n], at[..k];
    assert all[..n + k] == xs + ys;
    assert forall l :: l in ys ==> l in at;
    assert forall l :: l in xs ==> l in all;
    TallyAgrees(c, mid, first, ys, soFar);
    TallyAppends(c, first, xs, ys, base);
    if !dryRun { AdvancedTwice(c, first, mid, rows, xs, ys); }
  }

  lemma ExtendWellFormed(first: Rows, mid: Rows, all: seq<Locator>, at: seq<Locator>, n: int, k: int)
    requires forall l :: l in all ==> l in first
    requires 0 <= n && 0 <= k && n + |at| <= |all| && at == all[n..n + |at|]
    requires forall l :: l in at ==> l in mid && mid[l] == first[l]
    requires WellFormed(RecordsAt(first, all), n) && WellFormed(RecordsAt(mid, at), k)
    ensures WellFormed(RecordsAt(first, all), n + k)
    ensures 0 <= k < |at| && Malformed(RecordsAt(mid, at)[k]) ==> Malformed(RecordsAt(first, all)[n + k])
  {
    hide Malformed;
    var r, q := RecordsAt(first, all), RecordsAt(mid, at);
    assert forall i :: 0 <= i < |at| ==> at[i] == all[n + i] && at[i] in at;
    assert forall i :: 0 <= i < |at| ==> q[i] == r[n + i];
    forall i | n <= i < n + k ensures !Malformed(r[i]) {
      assert r[i] == q[i - n];
    }
  }

  lemma LengthOfRecords(rows: Rows, at: seq<Locator>)
    requires forall l :: l in at ==> l in rows
    ensures forall i :: 0 <= i < |at| ==> RecordsAt(rows, at)[i] == Record(at[i], rows[at[i]])
  {
    assert forall i :: 0 <= i < |at| ==> at[i] in at;
  }

  /** What a page adds to an undisturbed scan. */
  lemma PageDone(c: Cipher, first: Rows, mid: Rows, rows: Rows, start: Locator, at: seq<Locator>, batch: int,
                 n: int, k: int, soFar: Result, result: Result, dryRun: bool, began: Locator, after: Locator)
    requires AtPageStart(c, first, mid, start, n, soFar, dryRun, began) && batch > 0
    requires at == PageOf(mid, began, batch)
    requires Covered(c, mid, rows, at, k, soFar, result, dryRun)
    requires WellFormed(RecordsAt(mid, at), k)
    requires after == if k == 0 then began else RecordsAt(mid, at)[k - 1].locator
    ensures AtPageStart(c, first, rows, start, n + k, result, dryRun, after)
    ensures Covered(c, first, rows, Ahead(first, start), n + k, Empty(dryRun), result, dryRun)
    ensures k < |at| && Malformed(RecordsAt(mid, at)[k]) ==> Ended(first, start, n + k, result, BadRecord)
    ensures k == |at| && |at| < batch ==>
              Ended(first, start, n + k, result, if result.total.failed != 0 then DoneWithFailures else Done)
    ensures Ended(first, start, n + k, result, Died)
  {
    hide Ahead, Tally, Advanced, RecordsAt, Malformed, WellFormed, PageOf, Ascending, StrictTotal;
    var all := Ahead(first, start);
    SameKeys(c, first, mid, all, n, Empty(dryRun), soFar, dryRun);
    PageIsStretch(first, mid, start, at, batch, n);
    StretchUnvisited(c, first, mid, all, at, n, Empty(dryRun), soFar, dryRun);
    Extend(c, first, mid, rows, all, at, n, k, Empty(dryRun), soFar, result, dryRun);
    ExtendWellFormed(first, mid, all, at, n, k);
    LengthOfRecords(mid, at);
  }

  /** Reading on from the end of a page leaves fewer records ahead. */
  lemma Shrinks(c: Cipher, mid: Rows, rows: Rows, began: Locator, at: seq<Locator>, batch: int,
                k: int, soFar: Result, result: Result, dryRun: bool, after: Locator)
    requires batch > 0 && at == PageOf(mid, began, batch)
    requires Covered(c, mid, rows, at, k, soFar, result, dryRun)
    requires after == if k == 0 then began else RecordsAt(mid, at)[k - 1].locator
    ensures k > 0 ==> |Ahead(rows, after)| < |Ahead(mid, began)|
  {
    hide Ahead, Tally, Advanced;
    SameKeys(c, mid, rows, at, k, soFar, result, dryRun);
    LengthOfRecords(mid, at);
    if k > 0 {
      assert at[k - 1] == Ahead(mid, began)[k - 1];
      AheadContinues(mid, rows, began, k);
    }
  }

  lemma SavedHere(c: Cipher, first: Rows, rows: Rows, start: Locator, n: int, result: Result, dryRun: bool,
                  after: Locator, saved: Result)
    requires AtPageStart(c, first, rows, start, n, result, dryRun, after) && n > 0
    ensures DiedAt(c, first, start, n, saved, Some(Checkpoint(1, c.active, result.lastSeen, saved)))
  {
    hide Ahead, Advanced, SourceKey, FateOf;
    var all := Ahead(first, start);
    TallyLast(c, first, all[..n], Empty(dryRun));
  }

  // ---------- operator calls ----------

  datatype Snap = Snap(rows: Rows, saved: Option<Checkpoint>)

  /** A saved cursor is either the origin or a well-formed locator. */
  predicate Usable(c: Cipher, p: Checkpoint) {
    && p.version == 1 && p.active == c.active
    && (p.after == NOWHERE || (ValidKind(p.after.kind) && TrimSpace(p.after.id) != []))
  }

  /** A checkpoint of another format or another active key, or one that points at no
      possible record, belongs to no run of this worker. */
  predicate Foreign(c: Cipher, resume: bool, saved: Option<Checkpoint>) {
    && resume && saved.Some?
    && (saved.value.version != 1 || saved.value.active != c.active
        || (saved.value.after != NOWHERE
            && (saved.value.after.kind !in {"connection_access_token", "connection_refresh_token", "oauth_revocation_token"}
                || TrimSpace(saved.value.after.id) == [])))
  }

  lemma ForeignExactlyWhen(c: Cipher, resume: bool, saved: Option<Checkpoint>)
    ensures Foreign(c, resume, saved) <==> resume && saved.Some? && !Usable(c, saved.value)
  {
  }

  /** Where a call starts, and the counts it adds to. */
  ghost function Start(c: Cipher, pre: Snap, resume: bool): Locator {
    if resume && pre.saved.Some? then pre.saved.value.after else NOWHERE
  }

  ghost function Prefix(c: Cipher, pre: Snap, resume: bool): Result {
    if resume && pre.saved.Some? then pre.saved.value.result.(resumed := true) else Empty(false)
  }

  /** What one undisturbed executing call does: n records beyond its start are
      counted and visited, and the checkpoint is gone when it finished cleanly
      and names the last record when it died. */
  ghost predicate OperatorCall(c: Cipher, pre: Snap, post: Snap, resume: bool, n: int, result: Result, status: Status) {
    if resume && pre.saved.Some? && !Usable(c, pre.saved.value) then
      status == Mismatch && post == pre
    else
      exists tail: Result ::
        && Covered(c, pre.rows, post.rows, Ahead(pre.rows, Start(c, pre, resume)), n, Empty(false), tail, false)
        && Ended(pre.rows, Start(c, pre, resume), n, tail, status)
        && result == Combine(Prefix(c, pre, resume), tail)
        && (status == Done ==> post.saved == None)
        && (status == Died ==> DiedAt(c, pre.rows, Start(c, pre, resume), n, result, post.saved))
  }

  lemma DryRunLeavesRows(c: Cipher, before: Rows, rows: Rows, n: int, result: Result)
    requires Covered(c, before, rows, Ahead(before, NOWHERE), n, Empty(true), result, true)
    ensures rows == before
  {
  }

  lemma MismatchCall(c: Cipher, pre: Snap, post: Snap)
    requires pre.saved.Some? && !Usable(c, pre.saved.value) && pre.saved == post.saved
    ensures post == pre ==> OperatorCall(c, pre, post, true, 0, Empty(false), Mismatch)
  {
  }

  lemma BalancedPrefix(p: Checkpoint)
    ensures Balanced(Some(p)) ==>
              p.result.(resumed := true).Accounted() && !p.result.(resumed := true).dryRun
  {
  }

  lemma SameAccounts(r: Result, resumed: bool)
    ensures r.Accounted() ==> r.(resumed := resumed).Accounted()
  {
  }

  lemma OriginIs(c: Cipher, pre: Snap, resume: bool, after: Locator, prefix: Result)
    requires if resume && pre.saved.Some?
             then after == pre.saved.value.after && prefix == pre.saved.value.result.(resumed := true)
             else after == NOWHERE && prefix == Empty(false)
    ensures after == Start(c, pre, resume) && prefix == Prefix(c, pre, resume)
  {
  }

  lemma CallIs(c: Cipher, pre: Snap, rows: Rows, saved: Option<Checkpoint>, checkpoint: Option<Checkpoint>, resume: bool,
               after: Locator, prefix: Result, n: int, tail: Result, status: Status)
    requires after == Start(c, pre, resume) && prefix == Prefix(c, pre, resume)
    requires resume && pre.saved.Some? ==> Usable(c, pre.saved.value)
    requires Covered(c, pre.rows, rows, Ahead(pre.rows, after), n, Empty(false), tail, false)
    requires Ended(pre.rows, after, n, tail, status)
    requires status == Died ==> DiedAt(c, pre.rows, after, n, Combine(prefix, tail), saved)
    requires !tail.resumed
    requires checkpoint == if status == Done then None else saved
    ensures OperatorCall(c, pre, Snap(rows, checkpoint), resume, n, Combine(prefix, tail).(resumed := prefix.resumed), status)
  {
    hide Covered, Ended, Ahead, CombinedKeys;
    assert Combine(prefix, tail).(resumed := prefix.resumed) == Combine(prefix, tail);
  }

  // ---------- interrupted runs equal one run ----------

  datatype Call = Call(pre: Snap, post: Snap, resume: bool, n: int, result: Result, status: Status)

  /** A run that died at saved checkpoints and was resumed each time. */
  ghost predicate CutRun(c: Cipher, calls: seq<Call>)
    decreases |calls|
  {
    && calls != []
    && OperatorCall(c, calls[0].pre, calls[0].post, calls[0].resume, calls[0].n, calls[0].result, calls[0].status)
    && if |calls| == 1 then calls[0].status in {Done, DoneWithFailures}
       else
         && calls[0].status == Died && calls[1].pre == calls[0].post && calls[1].resume
         && CutRun(c, calls[1..])
  }

  /** A call about to be made at record n of a run over rows0. */
  ghost predicate Resumable(c: Cipher, rows0: Rows, pre: Snap, resume: bool, n: int) {
    var all := Ahead(rows0, NOWHERE);
    && Covered(c, rows0, pre.rows, all, n, Empty(false), Prefix(c, pre, resume).(resumed := false), false)
    && Start(c, pre, resume) == (if n == 0 then NOWHERE else all[n - 1])
    && (resume && pre.saved.Some? ==> Usable(c, pre.saved.value))
  }

  lemma CallAdvances(c: Cipher, rows0: Rows, pre: Snap, post: Snap, resume: bool, m: int, n: int, result: Result, status: Status)
    requires Resumable(c, rows0, pre, resume, m)
    requires OperatorCall(c, pre, post, resume, n, result, status)
    ensures Covered(c, rows0, post.rows, Ahead(rows0, NOWHERE), m + n, Empty(false), result.(resumed := false), false)
    ensures status == Died ==> Resumable(c, rows0, post, true, m + n)
    ensures status in {Done, DoneWithFailures} ==> m + n == |Ahead(rows0, NOWHERE)|
  {
    hide Ahead, Tally, Advanced, Malformed, CompareLocators, CombinedKeys, RecordsAt, Counts.Plus, StrictTotal, Ascending, Listing, After, Elements;
    var all := Ahead(rows0, NOWHERE);
    var p := Prefix(c, pre, resume).(resumed := false);
    var from := Start(c, pre, resume);
    var tail: Result :|
      && Covered(c, pre.rows, post.rows, Ahead(pre.rows, from), n, Empty(false), tail, false)
      && Ended(pre.rows, from, n, tail, status)
      && result == Combine(Prefix(c, pre, resume), tail)
      && (status == Died ==> DiedAt(c, pre.rows, from, n, result, post.saved));
    SameKeys(c, rows0, pre.rows, all, m, Empty(false), p, false);
    AheadContinues(rows0, pre.rows, NOWHERE, m);
    var at := all[m..];
    assert Ahead(pre.rows, from) == at;
    NotBeforeItself(NOWHERE);
    TailJoins(c, rows0, pre.rows, post.rows, all, m, n, p, tail);
    if status == Died {
      SavedIsUsable(pre.rows, at, n);
    }
  }

  lemma NotBeforeItself(l: Locator)
    ensures !Before(l, l)
  {
    LocatorsAreOrdered();
  }

  /** Counting a saved prefix and then the rest is counting all. */
  lemma TailJoins(c: Cipher, rows0: Rows, now: Rows, post: Rows, all: seq<Locator>, m: int, n: int, p: Result, tail: Result)
    requires Covered(c, rows0, now, all, m, Empty(false), p, false) && now.Keys == rows0.Keys
    requires Covered(c, now, post, all[m..], n, Empty(false), tail, false)
    requires StrictTotal(Before) && Ascending(Before, all) && NOWHERE !in all
    ensures Covered(c, rows0, post, all, m + n, Empty(false), Combine(p, tail), false)
    ensures !p.dryRun && !tail.dryRun && tail.resumed == false
  {
    hide Tally, Advanced, CombinedKeys, Counts.Plus, StrictTotal, Ascending, Before;
    var at := all[m..];
    assert at == all[m..m + |at|];
    assert forall l :: l in at[..n] ==> l in at && l in now;
    TallyKeepsMode(c, rows0, all[..m], Empty(false));
    TallyCombines(c, now, at[..n], p);
    TallyKeepsMode(c, now, at[..n], Empty(false));
    Extend(c, rows0, now, post, all, at, m, n, Empty(false), p, Combine(p, tail), false);
  }

  lemma SavedIsUsable(rows: Rows, at: seq<Locator>, n: int)
    requires forall l :: l in at ==> l in rows
    requires 0 < n <= |at| && WellFormed(RecordsAt(rows, at), n)
    ensures ValidKind(at[n - 1].kind) && TrimSpace(at[n - 1].id) != []
  {
    LengthOfRecords(rows, at);
    assert !Malformed(RecordsAt(rows, at)[n - 1]);
  }

  lemma {:induction false} CutRunAdvances(c: Cipher, rows0: Rows, calls: seq<Call>, m: int)
    requires CutRun(c, calls) && Resumable(c, rows0, calls[0].pre, calls[0].resume, m)
    ensures var last := calls[|calls| - 1];
            Covered(c, rows0, last.post.rows, Ahead(rows0, NOWHERE), |Ahead(rows0, NOWHERE)|, Empty(false),
                    last.result.(resumed := false), false)
    decreases |calls|
  {
    hide Covered, Ahead, OperatorCall, Resumable;
    var k := calls[0];
    CallAdvances(c, rows0, k.pre, k.post, k.resume, m, k.n, k.result, k.status);
    if |calls| > 1 {
      CutRunAdvances(c, rows0, calls[1..], m + k.n);
    }
  }

  /** A run cut at any saved checkpoints and resumed, starting afresh, visits
      every record once and reports what one uninterrupted pass would. */
  lemma CutRunIsOnePass(c: Cipher, calls: seq<Call>)
    requires CutRun(c, calls) && (calls[0].resume ==> calls[0].pre.saved == None)
    ensures var first, last := calls[0], calls[|calls| - 1];
            var all := Ahead(first.pre.rows, NOWHERE);
            && last.result.(resumed := false) == Tally(c, first.pre.rows, all, Empty(false))
            && Advanced(c, first.pre.rows, last.post.rows, all)
  {
    hide OperatorCall, Tally, Advanced, Ahead;
    var rows0 := calls[0].pre.rows;
    NothingScanned(c, rows0, Empty(false));
    assert Ahead(rows0, NOWHERE)[..0] == [];
    assert Resumable(c, rows0, calls[0].pre, calls[0].resume, 0);
    CutRunAdvances(c, rows0, calls, 0);
    var all := Ahead(rows0, NOWHERE);
    assert all[..|all|] == all;
  }

  /** Two runs over the same rows report the same counts, per-key counts and last
      record, however often either was cut and resumed. */
  lemma ResumeEqualsUninterrupted(c: Cipher, cut: seq<Call>, other: seq<Call>)
    requires CutRun(c, cut) && CutRun(c, other) && cut[0].pre.rows == other[0].pre.rows
    requires (cut[0].resume ==> cut[0].pre.saved == None) && (other[0].resume ==> other[0].pre.saved == None)
    ensures var x, y := cut[|cut| - 1].result, other[|other| - 1].result;
            x.total == y.total && x.byKey == y.byKey && x.lastSeen == y.lastSeen
  {
    hide *;
    CutRunIsOnePass(c, cut);
    CutRunIsOnePass(c, other);
  }

  // ---------- what a clean pass achieves ----------

  ghost predicate NoneFails(c: Cipher, rows: Rows, at: seq<Locator>) {
    forall l :: l in at && l in rows ==> !FateOf(c, rows[l], false).Failed?
  }

  ghost predicate AllSettled(c: Cipher, rows: Rows, at: seq<Locator>) {
    forall l :: l in at && l in rows ==> FateOf(c, rows[l], false).Skipped?
  }

  lemma Bumped(t: Counts, f: Fate)
    ensures t.Bump(f).scanned == t.scanned + 1
    ensures t.Bump(f).failed == t.failed + (if f.Failed? then 1 else 0)
    ensures f.Skipped? ==> t.Bump(f) == Counts(t.scanned + 1, t.rotated, t.pending, t.skipped + 1, t.failed)
  {
  }

  lemma {:induction false} CleanTally(c: Cipher, rows: Rows, at: seq<Locator>)
    requires forall l :: l in at ==> l in rows
    ensures Tally(c, rows, at, Empty(false)).total.scanned == |at|
    ensures Tally(c, rows, at, Empty(false)).total.failed >= 0
    ensures Tally(c, rows, at, Empty(false)).total.failed == 0 ==> NoneFails(c, rows, at)
    ensures AllSettled(c, rows, at) ==> Tally(c, rows, at, Empty(false)).total == Counts(|at|, 0, 0, |at|, 0)
  {
    hide Tally, SourceKey, FateOf, Counts.Plus, Counts.Bump;
    if at == [] {
      NothingScanned(c, rows, Empty(false));
    } else {
      var n := |at| - 1;
      CleanTally(c, rows, at[..n]);
      TallyLast(c, rows, at, Empty(false));
      assert at == at[..n] + [at[n]] && at[n] in at;
      Bumped(Tally(c, rows, at[..n], Empty(false)).total, FateOf(c, rows[at[n]], false));
    }
  }

  /** A record visited without failure reads as before and is settled. */
  lemma VisitedSettles(c: Cipher, before: Row, now: Row)
    requires Visited(c, before, now) && !FateOf(c, before, false).Failed?
    ensures c.read(now.ciphertext) == c.read(before.ciphertext)
    ensures c.needs(now.ciphertext, now.keyID) == Some(false)
    ensures FateOf(c, now, false).Skipped?
  {
  }

  ghost predicate ReadsAndSettled(c: Cipher, before: Rows, rows: Rows) {
    forall l :: l in rows && l in before && Before(NOWHERE, l) ==>
      && c.read(rows[l].ciphertext) == c.read(before[l].ciphertext)
      && c.needs(rows[l].ciphertext, rows[l].keyID) == Some(false)
  }

  /** After a pass with no failure every record reads as before and needs no
      further migration, each was counted once, and a second pass rotates none. */
  lemma CleanPassSettlesEverything(c: Cipher, before: Rows, rows: Rows)
    requires Advanced(c, before, rows, Ahead(before, NOWHERE))
    requires Tally(c, before, Ahead(before, NOWHERE), Empty(false)).total.failed == 0
    ensures Tally(c, before, Ahead(before, NOWHERE), Empty(false)).total.scanned == |Ahead(before, NOWHERE)|
    ensures rows.Keys == before.Keys && ReadsAndSettled(c, before, rows)
    ensures Tally(c, rows, Ahead(rows, NOWHERE), Empty(false)).total
         == Counts(|Ahead(rows, NOWHERE)|, 0, 0, |Ahead(rows, NOWHERE)|, 0)
    ensures Ahead(rows, NOWHERE) == Ahead(before, NOWHERE)
  {
    hide Tally, SourceKey, FateOf, Visited, CompareLocators, Before, Ahead;
    var all := Ahead(before, NOWHERE);
    CleanTally(c, before, all);
    AheadContinues(before, rows, NOWHERE, 0);
    assert all[0..] == all;
    forall l | l in rows && l in all
      ensures c.read(rows[l].ciphertext) == c.read(before[l].ciphertext)
      ensures c.needs(rows[l].ciphertext, rows[l].keyID) == Some(false)
      ensures FateOf(c, rows[l], false).Skipped?
    {
      VisitedSettles(c, before[l], rows[l]);
    }
    CleanTally(c, rows, all);
  }

  /** What an operator runs the worker for: after a clean pass with either envelope
      cipher every secret that could be read still reads the same, and every record holds
      the cipher's own kind of envelope under the active key and names that key. */
  lemma CleanPassMovesEverySecret(k: Crypto, r: Rotator, before: Rows, rows: Rows)
    requires r.Valid(k) && CanRead(r, r)
    requires Advanced(PortOf(k, r), before, rows, Ahead(before, NOWHERE))
    requires Tally(PortOf(k, r), before, Ahead(before, NOWHERE), Empty(false)).total.failed == 0
    ensures forall l :: l in before && Before(NOWHERE, l) ==>
              && l in rows
              && var was, now := r.Decrypt(k, before[l].ciphertext), r.Decrypt(k, rows[l].ciphertext);
                 && (was.Opened? <==> now.Opened?)
                 && (was.Opened? ==> now == Opened(was.text, r.Active()))
                 && OwnEncoding(r, rows[l].ciphertext) && rows[l].keyID == r.Active()
  {
    hide Advanced, Tally, Ahead, Before, Rotator.Valid, Rotator.Decrypt, Rotator.NeedsReencryption, CanRead, OwnEncoding;
    CleanPassSettlesEverything(PortOf(k, r), before, rows);
    forall l | l in rows && Before(NOWHERE, l)
      ensures r.Decrypt(k, rows[l].ciphertext).Opened? ==> r.Decrypt(k, rows[l].ciphertext).keyID == r.Active()
      ensures rows[l].keyID == r.Active() && OwnEncoding(r, rows[l].ciphertext)
    {
      CurrentExactlyWhen(k, r, rows[l].ciphertext, rows[l].keyID);
      CurrentNamesActive(k, r, rows[l].ciphertext, rows[l].keyID);
    }
  }

  /** A value that needs no migration names the active key, as does its record. */
  lemma CurrentNamesActive(k: Crypto, r: Rotator, value: Bytes, keyID: Bytes)
    requires r.Valid(k) && r.NeedsReencryption(value, keyID) == Some(false)
    ensures keyID == r.Active()
    ensures r.Decrypt(k, value).Opened? ==> r.Decrypt(k, value).keyID == r.Active()
  {
  }
}
