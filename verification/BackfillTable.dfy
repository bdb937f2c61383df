/** The upgrade loop over one table
    (alembic/versions/8149a781ac1b_backfill_encrypted_columns_for_.py:67-154, 177-250, 277-344). */
module BackfillTable {
  import opened Wrappers
  import opened Backfill
  import opened BackfillLaws

  predicate IsUpdate(encrypt: Encrypt, batch: nat, rows: seq<Row>, u: (nat, Row)) {
    u.0 < |rows| && u.1 == EncryptRow(encrypt, batch, u.0, rows[u.0])
  }

  predicate HasUpdate(updates: seq<(nat, Row)>, id: nat) {
    exists j :: 0 <= j < |updates| && updates[j].0 == id
  }

  lemma HasUpdateGrows(updates: seq<(nat, Row)>, u: (nat, Row))
    ensures forall i :: HasUpdate(updates + [u], i) <==> HasUpdate(updates, i) || i == u.0
  {
    var more := updates + [u];
    assert more[|updates|] == u;
    forall i | HasUpdate(updates, i) ensures HasUpdate(more, i) {
      var j :| 0 <= j < |updates| && updates[j].0 == i;
      assert more[j].0 == i;
    }
  }

  class Table {
    var rows: seq<Row>

    constructor (rows: seq<Row>)
      ensures this.rows == rows
    {
      this.rows := rows;
    }

    /** One fetched row: its updated pairs, and whether there is anything to update. */
    method EncryptFields(encrypt: Encrypt, batch: nat, id: nat, row: Row) returns (updated: Row, hasUpdates: bool)
      ensures updated == EncryptRow(encrypt, batch, id, row)
      ensures hasUpdates == Updates(encrypt, batch, id, row)
      ensures !hasUpdates ==> updated == row
    {
      updated, hasUpdates := row, false;
      for c := 0 to |row|
        invariant |updated| == |row|
        invariant forall k :: 0 <= k < c ==> updated[k] == EncryptPair(encrypt, batch, id, row, k)
        invariant forall k :: c <= k < |row| ==> updated[k] == row[k]
        invariant hasUpdates <==> exists k :: 0 <= k < c && Truthy(row[k].plain) && !Truthy(row[k].enc) && encrypt(batch, id, row, k).Some?
        invariant !hasUpdates ==> updated == row
      {
        if Truthy(row[c].plain) && !Truthy(row[c].enc) {
          var cipher := encrypt(batch, id, row, c);
          if cipher.Some? {
            updated := updated[c := row[c].(enc := cipher)];
            hasUpdates := true;
          }
        }
      }
    }

    /** The first half of a batch: the updates, by id, and how many rows have any. */
    method PrepareUpdates(encrypt: Encrypt, batch: nat, selected: seq<nat>) returns (batchUpdates: seq<(nat, Row)>, count: nat)
      requires forall k :: 0 <= k < |selected| ==> selected[k] < |rows|
      ensures forall u <- batchUpdates :: u.0 in selected && IsUpdate(encrypt, batch, rows, u)
      ensures forall i <- selected :: rows[i] == EncryptRow(encrypt, batch, i, rows[i]) || HasUpdate(batchUpdates, i)
      ensures count == CountUpdates(encrypt, rows, selected, batch)
    {
      batchUpdates, count := [], 0;
      for k := 0 to |selected|
        invariant forall u <- batchUpdates :: u.0 in selected && IsUpdate(encrypt, batch, rows, u)
        invariant forall i <- selected[..k] :: rows[i] == EncryptRow(encrypt, batch, i, rows[i]) || HasUpdate(batchUpdates, i)
        invariant count == CountUpdates(encrypt, rows, selected[..k], batch)
      {
        var updated, hasUpdates := EncryptFields(encrypt, batch, selected[k], rows[selected[k]]);
        assert selected[..k + 1][..k] == selected[..k];
        if hasUpdates {
          ghost var was := batchUpdates;
          batchUpdates := batchUpdates + [(selected[k], updated)];
          assert batchUpdates[|was|].0 == selected[k];
          assert forall i :: HasUpdate(was, i) ==> HasUpdate(batchUpdates, i) by { HasUpdateGrows(was, (selected[k], updated)); }
          count := count + 1;
        }
      }
      assert selected[..|selected|] == selected;
    }

    /** The second half: UPDATE .. WHERE id == row_id, one by one. */
    method WriteUpdates(encrypt: Encrypt, batch: nat, batchUpdates: seq<(nat, Row)>)
      requires forall u <- batchUpdates :: IsUpdate(encrypt, batch, rows, u)
      modifies this
      ensures |rows| == |old(rows)|
      ensures forall i :: 0 <= i < |rows| ==>
        rows[i] == if HasUpdate(batchUpdates, i) then EncryptRow(encrypt, batch, i, old(rows[i])) else old(rows[i])
    {
      ghost var before := rows;
      for k := 0 to |batchUpdates|
        invariant |rows| == |before|
        invariant forall i :: 0 <= i < |rows| ==>
          rows[i] == if HasUpdate(batchUpdates[..k], i) then EncryptRow(encrypt, batch, i, before[i]) else before[i]
      {
        var (id, fields) := batchUpdates[k];
        assert IsUpdate(encrypt, batch, before, batchUpdates[k]);
        assert batchUpdates[..k + 1] == batchUpdates[..k] + [batchUpdates[k]];
        HasUpdateGrows(batchUpdates[..k], batchUpdates[k]);
        rows := rows[id := fields];
      }
      assert batchUpdates[..|batchUpdates|] == batchUpdates;
    }

    /** One batch: encrypt the selected rows, then write the updates back by id. */
    method UpdateBatch(encrypt: Encrypt, offset: nat, size: nat, batch: nat, selected: seq<nat>) returns (count: nat)
      requires selected == Select(rows, offset, size, |rows|)
      modifies this
      ensures rows == AfterBatch(encrypt, old(rows), offset, size, batch)
      ensures count == CountUpdates(encrypt, old(rows), selected, batch)
    {
      ghost var after := AfterBatch(encrypt, rows, offset, size, batch);
      var batchUpdates, n := PrepareUpdates(encrypt, batch, selected);
      count := n;
      WriteUpdates(encrypt, batch, batchUpdates);
      forall i: nat | i < |rows| ensures rows[i] == after[i] {
        if Chosen(old(rows), offset, size, i) { assert i in selected; }
      }
    }

    /** One turn of the loop: query, stop on an empty answer, otherwise encrypt and write back. */
    method ProcessBatch(encrypt: Encrypt, size: nat, batch: nat, offset: nat) returns (more: bool, count: nat)
      modifies this
      ensures more == (Select(old(rows), offset, size, |old(rows)|) != [])
      ensures rows == if more then AfterBatch(encrypt, old(rows), offset, size, batch) else old(rows)
      ensures count == CountUpdates(encrypt, old(rows), Select(old(rows), offset, size, |old(rows)|), batch)
      ensures more ==> offset < |rows|
    {
      var selected := Select(rows, offset, size, |rows|);
      more, count := selected != [], 0;
      if more {
        RankBound(rows, selected[0]);
        count := UpdateBatch(encrypt, offset, size, batch, selected);
      }
    }

    /** The upgrade of one table.  It ends when a query comes back empty; whatever encrypt does, nothing
        is lost; and when every encryption succeeds and no plaintext is empty, every second batch
        of the rows that need it is encrypted, and no other row. */
    method Upgrade(encrypt: Encrypt, size: nat) returns (encryptedCount: nat, ghost run: seq<LoopPoint>)
      requires size > 0
      modifies this
      ensures IsRun(encrypt, size, run) && run[0].rows == old(rows)
      ensures var last := run[|run| - 1];
              last.rows == rows && last.count == encryptedCount && Select(rows, last.offset, size, |rows|) == []
      ensures AllKept(encrypt, old(rows), rows)
      ensures Fair(encrypt, old(rows)) ==>
        && EverySecondBatch(encrypt, size, old(rows), rows)
        && encryptedCount == Hits(size, Rank(old(rows), |old(rows)|))
    {
      encryptedCount := 0;
      run := [LoopPoint(rows, 0, 0)];
      if Rank(rows, |rows|) == 0 {
        SelectSize(rows, 0, size, |rows|);
        RunEnds(encrypt, size, run);
        return;
      }
      var offset, batch, more := 0, 0, true;
      while more
        invariant IsRun(encrypt, size, run) && run[0].rows == old(rows) && |rows| == |old(rows)|
        invariant |run| == batch + 1 && run[batch] == LoopPoint(rows, offset, encryptedCount)
        invariant !more ==> Select(rows, offset, size, |rows|) == []
        decreases more, |rows| - offset
      {
        var n;
        more, n := ProcessBatch(encrypt, size, batch, offset);
        if more {
          encryptedCount := encryptedCount + n;
          offset := offset + size;
          batch := batch + 1;
          RunGrows(encrypt, size, run, LoopPoint(rows, offset, encryptedCount));
          run := run + [LoopPoint(rows, offset, encryptedCount)];
        }
      }
      RunEnds(encrypt, size, run);
    }
  }

  /** The upgrade of a table with one row more than a batch leaves one row as it was. */
  method UpgradeLeavesOneRow(size: nat) returns (table: Table)
    requires size > 0
    ensures |table.rows| == size + 1 && Rank(table.rows, size + 1) == 1
  {
    table := new Table(Secrets(size + 1));
    var _, _ := table.Upgrade(AlwaysEncrypts, size);
    OneRowTooMany(size, table.rows);
  }

  /** Where the loop stands between two batches. */
  datatype LoopPoint = LoopPoint(rows: seq<Row>, offset: nat, count: nat)

  /** One batch, whatever encrypt does: the query found rows, they are encrypted, and the offset goes
      on by a batch. */
  ghost predicate Goes(encrypt: Encrypt, size: nat, batch: nat, here: LoopPoint, next: LoopPoint) {
    var selected := Select(here.rows, here.offset, size, |here.rows|);
    && selected != []
    && next == LoopPoint(AfterBatch(encrypt, here.rows, here.offset, size, batch), here.offset + size,
                         here.count + CountUpdates(encrypt, here.rows, selected, batch))
  }

  ghost predicate IsRun(encrypt: Encrypt, size: nat, run: seq<LoopPoint>) {
    && run != [] && run[0].offset == 0 && run[0].count == 0
    && forall k: nat :: k < |run| - 1 ==> GoesFrom(encrypt, size, run, k)
  }

  ghost predicate GoesFrom(encrypt: Encrypt, size: nat, run: seq<LoopPoint>, k: nat)
    requires k < |run| - 1
  {
    Goes(encrypt, size, k, run[k], run[k + 1])
  }

  lemma RunGrows(encrypt: Encrypt, size: nat, run: seq<LoopPoint>, next: LoopPoint)
    requires IsRun(encrypt, size, run) && Goes(encrypt, size, |run| - 1, run[|run| - 1], next)
    ensures IsRun(encrypt, size, run + [next])
  {
    var more := run + [next];
    forall k: nat | k < |more| - 1 ensures GoesFrom(encrypt, size, more, k) {
      if k < |run| - 1 { assert GoesFrom(encrypt, size, run, k) && more[k] == run[k] && more[k + 1] == run[k + 1]; }
    }
  }

  ghost predicate AllDone(encrypt: Encrypt, start: seq<Row>, offset: nat) {
    Fair(encrypt, start) ==> Rank(start, |start|) <= 2 * offset
  }

  /** What holds between batches. */
  ghost predicate LoopState(encrypt: Encrypt, size: nat, start: seq<Row>, batch: nat, offset: nat, rows: seq<Row>, count: nat)
    requires size > 0
  {
    && AllKept(encrypt, start, rows)
    && BlockStarts(size, batch, offset)
    && (Fair(encrypt, start) ==>
          Passed(encrypt, size, start, 2 * offset, rows) && count == Hits(size, Min(Rank(start, |start|), 2 * offset)))
  }

  lemma LoopStarts(encrypt: Encrypt, size: nat, rows: seq<Row>)
    requires size > 0
    ensures LoopState(encrypt, size, rows, 0, 0, rows, 0)
  {
    AtStart(encrypt, size, rows);
  }

  lemma LoopTurns(encrypt: Encrypt, size: nat, start: seq<Row>, batch: nat, offset: nat, rows: seq<Row>, count: nat,
                  now: seq<Row>, newCount: nat)
    requires size > 0 && LoopState(encrypt, size, start, batch, offset, rows, count)
    requires now == AfterBatch(encrypt, rows, offset, size, batch)
    requires newCount == count + CountUpdates(encrypt, rows, Select(rows, offset, size, |rows|), batch)
    ensures LoopState(encrypt, size, start, batch + 1, offset + size, now, newCount)
  {
    NothingIsLost(encrypt, start, rows, offset, size, batch);
    NextBlockStarts(size, batch, offset);
    if Fair(encrypt, start) {
      BatchPasses(encrypt, size, start, batch, offset, rows);
      BatchCount(encrypt, size, start, batch, offset, rows);
      PickedIsHits(size, batch, Rank(start, |start|), offset);
    }
  }

  lemma LoopStops(encrypt: Encrypt, size: nat, start: seq<Row>, batch: nat, offset: nat, rows: seq<Row>, count: nat)
    requires size > 0 && LoopState(encrypt, size, start, batch, offset, rows, count)
    requires Select(rows, offset, size, |rows|) == []
    ensures AllDone(encrypt, start, offset)
  {
    if Fair(encrypt, start) {
      EmptyMeansPassed(encrypt, size, start, batch, offset, rows);
    }
  }

  lemma LoopEnds(encrypt: Encrypt, size: nat, start: seq<Row>, batch: nat, offset: nat, rows: seq<Row>, count: nat)
    requires size > 0 && LoopState(encrypt, size, start, batch, offset, rows, count)
    requires AllDone(encrypt, start, offset)
    ensures Fair(encrypt, start) ==>
      EverySecondBatch(encrypt, size, start, rows) && count == Hits(size, Rank(start, |start|))
  {
    if Fair(encrypt, start) {
      PassedIsEverySecondBatch(encrypt, size, start, 2 * offset, rows);
    }
  }

  lemma GoesAt(encrypt: Encrypt, size: nat, run: seq<LoopPoint>, k: nat, offset: nat, rows: seq<Row>, count: nat)
    requires IsRun(encrypt, size, run) && k + 1 < |run| && run[k] == LoopPoint(rows, offset, count)
    ensures run[k + 1] == LoopPoint(AfterBatch(encrypt, rows, offset, size, k), offset + size,
                                    count + CountUpdates(encrypt, rows, Select(rows, offset, size, |rows|), k))
  {
    assert GoesFrom(encrypt, size, run, k);
  }

  ghost predicate Done(encrypt: Encrypt, size: nat, start: seq<Row>, last: LoopPoint)
    requires size > 0
  {
    && AllKept(encrypt, start, last.rows)
    && (Fair(encrypt, start) ==> EverySecondBatch(encrypt, size, start, last.rows) && last.count == Hits(size, Rank(start, |start|)))
  }

  lemma NextPoint(encrypt: Encrypt, size: nat, start: seq<Row>, run: seq<LoopPoint>, k: nat, offset: nat, rows: seq<Row>, count: nat)
      returns (now: seq<Row>, newCount: nat)
    requires size > 0 && LoopState(encrypt, size, start, k, offset, rows, count)
    requires IsRun(encrypt, size, run) && k + 1 < |run| && run[k] == LoopPoint(rows, offset, count)
    ensures LoopState(encrypt, size, start, k + 1, offset + size, now, newCount)
    ensures run[k + 1] == LoopPoint(now, offset + size, newCount)
  {
    now := AfterBatch(encrypt, rows, offset, size, k);
    newCount := count + CountUpdates(encrypt, rows, Select(rows, offset, size, |rows|), k);
    GoesAt(encrypt, size, run, k, offset, rows, count);
    LoopTurns(encrypt, size, start, k, offset, rows, count, now, newCount);
  }

  /** What a run that is over has done, point by point. */
  lemma RunEnds(encrypt: Encrypt, size: nat, run: seq<LoopPoint>)
    requires size > 0 && IsRun(encrypt, size, run)
    requires var last := run[|run| - 1]; Select(last.rows, last.offset, size, |last.rows|) == []
    ensures Done(encrypt, size, run[0].rows, run[|run| - 1])
  {
    var start, n := run[0].rows, |run| - 1;
    var k: nat, offset: nat, rows, count: nat := 0, 0, start, 0;
    LoopStarts(encrypt, size, start);
    while k < n
      invariant k <= n && run[k] == LoopPoint(rows, offset, count)
      invariant LoopState(encrypt, size, start, k, offset, rows, count)
    {
      rows, count := NextPoint(encrypt, size, start, run, k, offset, rows, count);
      offset := offset + size;
      k := k + 1;
    }
    LoopStops(encrypt, size, start, n, offset, rows, count);
    LoopEnds(encrypt, size, start, n, offset, rows, count);
  }
}
