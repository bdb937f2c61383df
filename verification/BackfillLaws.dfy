/** What the offset-stepped backfill does and does not encrypt
    (alembic/versions/8149a781ac1b_backfill_encrypted_columns_for_.py:67-154). */
module BackfillLaws {
  import opened Wrappers
  import opened Backfill

  // --------------------------------------------------------- whatever encrypt does

  /** No plaintext changes, no real ciphertext is replaced, and a ciphertext that is new came
      from encrypting this row's plaintext, which had none. */
  ghost predicate Kept(encrypt: Encrypt, id: nat, before: Row, after: Row) {
    && |after| == |before|
    && forall c :: 0 <= c < |before| ==>
      && after[c].plain == before[c].plain
      && (after[c].enc != before[c].enc ==>
            Truthy(before[c].plain) && !Truthy(before[c].enc) && FromEncrypt(encrypt, id, c, after[c]))
  }

  ghost predicate FromEncrypt(encrypt: Encrypt, id: nat, c: nat, pair: Pair) {
    pair.enc.Some? && exists batch: nat, row: Row :: encrypt(batch, id, row, c) == pair.enc && c < |row| && row[c].plain == pair.plain
  }

  lemma EncryptRowKeeps(encrypt: Encrypt, batch: nat, id: nat, row: Row)
    ensures Kept(encrypt, id, row, EncryptRow(encrypt, batch, id, row))
  {
  }

  lemma KeptTwice(encrypt: Encrypt, id: nat, a: Row, b: Row, c: Row)
    requires Kept(encrypt, id, a, b) && Kept(encrypt, id, b, c)
    ensures Kept(encrypt, id, a, c)
  {
  }

  ghost predicate AllKept(encrypt: Encrypt, before: seq<Row>, after: seq<Row>) {
    |after| == |before| && forall i :: 0 <= i < |before| ==> Kept(encrypt, i, before[i], after[i])
  }

  /** For any table and any behaviour of encrypt. */
  lemma NothingIsLost(encrypt: Encrypt, start: seq<Row>, rows: seq<Row>, offset: nat, limit: nat, batch: nat)
    requires AllKept(encrypt, start, rows)
    ensures AllKept(encrypt, start, AfterBatch(encrypt, rows, offset, limit, batch))
  {
    var after := AfterBatch(encrypt, rows, offset, limit, batch);
    forall i | 0 <= i < |rows| ensures Kept(encrypt, i, start[i], after[i]) {
      EncryptRowKeeps(encrypt, batch, i, rows[i]);
      KeptTwice(encrypt, i, start[i], rows[i], after[i]);
    }
  }

  // --------------------------------------------------------- when encrypt succeeds

  ghost predicate Succeeds(encrypt: Encrypt) {
    forall batch: nat, id: nat, row: Row, c: nat :: encrypt(batch, id, row, c).Some?
  }

  predicate NoEmptyPlaintexts(rows: seq<Row>) {
    forall i, c :: 0 <= i < |rows| && 0 <= c < |rows[i]| ==> rows[i][c].plain != Some("")
  }

  lemma EncryptedIsDone(encrypt: Encrypt, batch: nat, rows: seq<Row>, i: nat)
    requires Succeeds(encrypt) && NoEmptyPlaintexts(rows) && i < |rows|
    ensures !Needs(EncryptRow(encrypt, batch, i, rows[i]))
    ensures Needs(rows[i]) ==> Updates(encrypt, batch, i, rows[i])
  {
    var row := rows[i];
    if Needs(row) {
      var c :| 0 <= c < |row| && row[c].plain.Some? && row[c].enc == None;
      assert Truthy(row[c].plain);
    }
  }

  // -------------------------------------------------------------- counting in blocks

  /** Ranks come in blocks of 2 * size; a rank is hit when it lies in the first half of one. */
  predicate Hit(size: nat, rank: nat)
    requires size > 0
    decreases rank
  {
    if rank < 2 * size then rank < size else Hit(size, rank - 2 * size)
  }

  function BlockOf(size: nat, rank: nat): nat
    requires size > 0
    decreases rank
  {
    if rank < 2 * size then 0 else 1 + BlockOf(size, rank - 2 * size)
  }

  /** The hits among the first m ranks. */
  function Hits(size: nat, m: nat): (h: nat)
    requires size > 0
    ensures h <= m
  {
    if m == 0 then 0 else Hits(size, m - 1) + if Hit(size, m - 1) then 1 else 0
  }

  /** Block n starts at rank 2 * offset, and half of the ranks before it are hit. */
  ghost predicate BlockStarts(size: nat, n: nat, offset: nat)
    requires size > 0
  {
    && Hits(size, 2 * offset) == offset
    && forall rank: nat :: 2 * offset <= rank < 2 * offset + 2 * size ==>
      (Hit(size, rank) <==> rank < 2 * offset + size) && BlockOf(size, rank) == n
  }

  lemma {:induction false} HitsInBlock(size: nat, n: nat, offset: nat, k: nat)
    requires size > 0 && BlockStarts(size, n, offset) && k <= 2 * size
    ensures Hits(size, 2 * offset + k) == offset + if k < size then k else size
    decreases k
  {
    if k > 0 {
      HitsInBlock(size, n, offset, k - 1);
      var rank := 2 * offset + k - 1;
      assert Hit(size, rank) <==> k - 1 < size;
    }
  }

  lemma NextBlockStarts(size: nat, n: nat, offset: nat)
    requires size > 0 && BlockStarts(size, n, offset)
    ensures BlockStarts(size, n + 1, offset + size)
  {
    HitsInBlock(size, n, offset, 2 * size);
    var next := 2 * (offset + size);
    forall rank: nat | next <= rank < next + 2 * size
      ensures (Hit(size, rank) <==> rank < next + size) && BlockOf(size, rank) == n + 1
    {
      assert Hit(size, rank - 2 * size) <==> rank - 2 * size < 2 * offset + size;
    }
  }

  lemma {:induction false} BlocksStart(size: nat, n: nat)
    requires size > 0
    ensures BlockStarts(size, n, n * size)
  {
    if n > 0 {
      BlocksStart(size, n - 1);
      NextBlockStarts(size, n - 1, (n - 1) * size);
      assert n * size == (n - 1) * size + size;
    }
  }

  lemma {:induction false} MissesGrow(size: nat, rank: nat, m: nat)
    requires size > 0 && rank < m && !Hit(size, rank)
    ensures rank - Hits(size, rank) < m - Hits(size, m)
    decreases m
  {
    if rank < m - 1 { MissesGrow(size, rank, m - 1); }
  }

  // ---------------------------------------------------------------- after n batches

  function Min(a: nat, b: nat): nat { if a < b then a else b }

  /** Row i once the batches have passed the first `limit` ranks. */
  function RowThen(encrypt: Encrypt, size: nat, rows: seq<Row>, limit: nat, i: nat): Row
    requires size > 0 && i < |rows|
  {
    if Needs(rows[i]) && Rank(rows, i) < limit && Hit(size, Rank(rows, i))
    then EncryptRow(encrypt, BlockOf(size, Rank(rows, i)), i, rows[i]) else rows[i]
  }

  ghost predicate Passed(encrypt: Encrypt, size: nat, rows: seq<Row>, limit: nat, now: seq<Row>)
    requires size > 0
  {
    |now| == |rows| && forall i: nat :: i < |rows| ==> now[i] == RowThen(encrypt, size, rows, limit, i)
  }

  ghost predicate Fair(encrypt: Encrypt, rows: seq<Row>) { Succeeds(encrypt) && NoEmptyPlaintexts(rows) }

  lemma NeedsNow(encrypt: Encrypt, size: nat, rows: seq<Row>, limit: nat, i: nat)
    requires size > 0 && Fair(encrypt, rows) && i < |rows|
    ensures Needs(RowThen(encrypt, size, rows, limit, i))
       <==> Needs(rows[i]) && !(Rank(rows, i) < limit && Hit(size, Rank(rows, i)))
  {
    EncryptedIsDone(encrypt, BlockOf(size, Rank(rows, i)), rows, i);
  }

  /** Rank in the present table from rank in the original one. */
  lemma {:induction false} RankNow(encrypt: Encrypt, size: nat, rows: seq<Row>, limit: nat, now: seq<Row>, i: nat)
    requires size > 0 && Fair(encrypt, rows) && i <= |rows| && Passed(encrypt, size, rows, limit, now)
    ensures Rank(now, i) == Rank(rows, i) - Hits(size, Min(Rank(rows, i), limit))
  {
    if i > 0 {
      RankNow(encrypt, size, rows, limit, now, i - 1);
      NeedsNow(encrypt, size, rows, limit, i - 1);
      assert now[i - 1] == RowThen(encrypt, size, rows, limit, i - 1);
    }
  }

  /** The batch at this offset picks the first half of the block that starts at twice the offset. */
  lemma ChosenNow(encrypt: Encrypt, size: nat, rows: seq<Row>, n: nat, offset: nat, now: seq<Row>, i: nat)
    requires size > 0 && Fair(encrypt, rows) && i < |rows|
    requires BlockStarts(size, n, offset) && Passed(encrypt, size, rows, 2 * offset, now)
    ensures Chosen(now, offset, size, i) <==> Needs(rows[i]) && 2 * offset <= Rank(rows, i) < 2 * offset + size
  {
    var rank := Rank(rows, i);
    RankNow(encrypt, size, rows, 2 * offset, now, i);
    NeedsNow(encrypt, size, rows, 2 * offset, i);
    assert now[i] == RowThen(encrypt, size, rows, 2 * offset, i);
    if rank < 2 * offset && !Hit(size, rank) { MissesGrow(size, rank, 2 * offset); }
  }

  lemma BatchMovesOn(encrypt: Encrypt, size: nat, rows: seq<Row>, n: nat, offset: nat, now: seq<Row>, i: nat)
    requires size > 0 && Fair(encrypt, rows) && i < |rows|
    requires BlockStarts(size, n, offset) && Passed(encrypt, size, rows, 2 * offset, now)
    ensures AfterBatch(encrypt, now, offset, size, n)[i] == RowThen(encrypt, size, rows, 2 * (offset + size), i)
  {
    var rank := Rank(rows, i);
    ChosenNow(encrypt, size, rows, n, offset, now, i);
    assert now[i] == RowThen(encrypt, size, rows, 2 * offset, i);
    if 2 * offset <= rank < 2 * offset + 2 * size {
      assert Hit(size, rank) <==> rank < 2 * offset + size;
    }
  }

  lemma BatchPasses(encrypt: Encrypt, size: nat, rows: seq<Row>, n: nat, offset: nat, now: seq<Row>)
    requires size > 0 && Fair(encrypt, rows)
    requires BlockStarts(size, n, offset) && Passed(encrypt, size, rows, 2 * offset, now)
    ensures Passed(encrypt, size, rows, 2 * (offset + size), AfterBatch(encrypt, now, offset, size, n))
  {
    var after := AfterBatch(encrypt, now, offset, size, n);
    forall i: nat | i < |rows| ensures after[i] == RowThen(encrypt, size, rows, 2 * (offset + size), i) {
      BatchMovesOn(encrypt, size, rows, n, offset, now, i);
    }
  }

  lemma AtStart(encrypt: Encrypt, size: nat, rows: seq<Row>)
    requires size > 0
    ensures BlockStarts(size, 0, 0) && Passed(encrypt, size, rows, 0, rows)
  {
  }

  lemma {:induction false} RankTaken(rows: seq<Row>, rank: nat, m: nat) returns (i: nat)
    requires m <= |rows| && rank < Rank(rows, m)
    ensures i < m && Needs(rows[i]) && Rank(rows, i) == rank
    decreases m
  {
    if Needs(rows[m - 1]) && Rank(rows, m - 1) == rank { i := m - 1; } else { i := RankTaken(rows, rank, m - 1); }
  }

  /** The query is empty only when all ranks were passed. */
  lemma EmptyMeansPassed(encrypt: Encrypt, size: nat, rows: seq<Row>, n: nat, offset: nat, now: seq<Row>)
    requires size > 0 && Fair(encrypt, rows)
    requires BlockStarts(size, n, offset) && Passed(encrypt, size, rows, 2 * offset, now)
    ensures Select(now, offset, size, |now|) == [] ==> Rank(rows, |rows|) <= 2 * offset
  {
    if 2 * offset < Rank(rows, |rows|) {
      var i := RankTaken(rows, 2 * offset, |rows|);
      ChosenNow(encrypt, size, rows, n, offset, now, i);
      assert i in Select(now, offset, size, |now|);
    }
  }

  /** Which rows the whole loop encrypts: of the rows that need it, in id order, the first
      half of every block of 2 * size.  All others stay as they were. */
  ghost predicate EverySecondBatch(encrypt: Encrypt, size: nat, rows: seq<Row>, end: seq<Row>)
    requires size > 0
  {
    && |end| == |rows|
    && forall i: nat :: i < |rows| ==>
      end[i] == if Needs(rows[i]) && Hit(size, Rank(rows, i))
                then EncryptRow(encrypt, BlockOf(size, Rank(rows, i)), i, rows[i]) else rows[i]
  }

  lemma PassedIsEverySecondBatch(encrypt: Encrypt, size: nat, rows: seq<Row>, limit: nat, end: seq<Row>)
    requires size > 0 && Passed(encrypt, size, rows, limit, end) && Rank(rows, |rows|) <= limit
    ensures EverySecondBatch(encrypt, size, rows, end)
  {
    forall i: nat | i < |rows|
      ensures end[i] == if Needs(rows[i]) && Hit(size, Rank(rows, i))
                        then EncryptRow(encrypt, BlockOf(size, Rank(rows, i)), i, rows[i]) else rows[i]
    {
      assert end[i] == RowThen(encrypt, size, rows, limit, i);
      RankMonotone(rows, i, |rows|);
    }
  }

  // --------------------------------------------------------------------- the numbers

  lemma {:induction false} SelectSize(rows: seq<Row>, offset: nat, limit: nat, m: nat)
    requires m <= |rows|
    ensures |Select(rows, offset, limit, m)| == if Rank(rows, m) <= offset then 0 else Min(Rank(rows, m) - offset, limit)
  {
    if m > 0 { SelectSize(rows, offset, limit, m - 1); }
  }

  lemma {:induction false} AllUpdate(encrypt: Encrypt, rows: seq<Row>, ids: seq<nat>, batch: nat)
    requires forall k :: 0 <= k < |ids| ==> ids[k] < |rows| && Updates(encrypt, batch, ids[k], rows[ids[k]])
    ensures CountUpdates(encrypt, rows, ids, batch) == |ids|
  {
    if ids != [] { AllUpdate(encrypt, rows, ids[..|ids| - 1], batch); }
  }

  lemma BatchUpdatesAll(encrypt: Encrypt, size: nat, rows: seq<Row>, n: nat, offset: nat, now: seq<Row>)
    requires size > 0 && Fair(encrypt, rows)
    requires BlockStarts(size, n, offset) && Passed(encrypt, size, rows, 2 * offset, now)
    ensures var ids := Select(now, offset, size, |now|);
            CountUpdates(encrypt, now, ids, n) == |ids|
  {
    var ids := Select(now, offset, size, |now|);
    forall k | 0 <= k < |ids| ensures Updates(encrypt, n, ids[k], now[ids[k]]) {
      ChosenNow(encrypt, size, rows, n, offset, now, ids[k]);
      assert now[ids[k]] == RowThen(encrypt, size, rows, 2 * offset, ids[k]);
      EncryptedIsDone(encrypt, n, rows, ids[k]);
    }
    AllUpdate(encrypt, now, ids, n);
  }

  /** How many rows the batch at this offset picks, if there were `total` to begin with. */
  function Picked(size: nat, total: nat, offset: nat): nat
    requires size > 0
  {
    var left := total - Hits(size, Min(total, 2 * offset));
    if left <= offset then 0 else Min(left - offset, size)
  }

  lemma PickedIsHits(size: nat, n: nat, total: nat, offset: nat)
    requires size > 0 && BlockStarts(size, n, offset)
    ensures Hits(size, Min(total, 2 * offset)) + Picked(size, total, offset) == Hits(size, Min(total, 2 * (offset + size)))
  {
    if total <= 2 * offset {
      MissesAtMost(size, total, 2 * offset);
    } else {
      HitsInBlock(size, n, offset, Min(total - 2 * offset, 2 * size));
    }
  }

  lemma SelectedNow(encrypt: Encrypt, size: nat, rows: seq<Row>, offset: nat, now: seq<Row>)
    requires size > 0 && Fair(encrypt, rows) && Passed(encrypt, size, rows, 2 * offset, now)
    ensures |Select(now, offset, size, |now|)| == Picked(size, Rank(rows, |rows|), offset)
  {
    LeftNow(encrypt, size, rows, 2 * offset, now);
    SelectSize(now, offset, size, |now|);
  }

  lemma LeftNow(encrypt: Encrypt, size: nat, rows: seq<Row>, limit: nat, now: seq<Row>)
    requires size > 0 && Fair(encrypt, rows) && Passed(encrypt, size, rows, limit, now)
    ensures Rank(now, |now|) == Rank(rows, |rows|) - Hits(size, Min(Rank(rows, |rows|), limit))
  {
    RankNow(encrypt, size, rows, limit, now, |now|);
  }

  lemma BatchCount(encrypt: Encrypt, size: nat, rows: seq<Row>, n: nat, offset: nat, now: seq<Row>)
    requires size > 0 && Fair(encrypt, rows)
    requires BlockStarts(size, n, offset) && Passed(encrypt, size, rows, 2 * offset, now)
    ensures CountUpdates(encrypt, now, Select(now, offset, size, |now|), n) == Picked(size, Rank(rows, |rows|), offset)
  {
    var ids := Select(now, offset, size, |now|);
    var k := Picked(size, Rank(rows, |rows|), offset);
    assert |ids| == k by { SelectedNow(encrypt, size, rows, offset, now); }
    BatchUpdatesAll(encrypt, size, rows, n, offset, now);
  }

  lemma {:induction false} MissesAtMost(size: nat, a: nat, b: nat)
    requires size > 0 && a <= b
    ensures a - Hits(size, a) <= b - Hits(size, b)
    decreases b
  {
    if a < b { MissesAtMost(size, a, b - 1); }
  }

  /** Half of the blocks: of N = 2 * q * size + r, q * size + min(r, size) are hit, and so all
      are exactly when N is at most one batch. */
  lemma CompleteOnlyUpToOneBatch(size: nat, q: nat, r: nat)
    requires size > 0 && r < 2 * size
    ensures var n := 2 * (q * size) + r;
            && Hits(size, n) == q * size + Min(r, size)
            && (Hits(size, n) == n <==> n <= size)
  {
    BlocksStart(size, q);
    AtLeastOne(q, size);
    CompleteWithin(size, q, q * size, r);
  }

  lemma AtLeastOne(q: nat, size: nat)
    ensures q * size == 0 || q * size >= size
  {
  }

  lemma CompleteWithin(size: nat, n: nat, offset: nat, r: nat)
    requires size > 0 && r < 2 * size && BlockStarts(size, n, offset) && (offset == 0 || offset >= size)
    ensures Hits(size, 2 * offset + r) == offset + Min(r, size)
    ensures Hits(size, 2 * offset + r) == 2 * offset + r <==> 2 * offset + r <= size
  {
    HitsInBlock(size, n, offset, r);
  }

  /** The rows left to do at the end. */
  lemma LeftUndone(encrypt: Encrypt, size: nat, rows: seq<Row>, end: seq<Row>)
    requires size > 0 && Fair(encrypt, rows) && EverySecondBatch(encrypt, size, rows, end)
    ensures Rank(end, |rows|) == Rank(rows, |rows|) - Hits(size, Rank(rows, |rows|))
    ensures Rank(end, |rows|) == 0 <==> Rank(rows, |rows|) <= size
  {
    var total := Rank(rows, |rows|);
    assert Passed(encrypt, size, rows, total, end) by {
      forall i: nat | i < |rows| ensures end[i] == RowThen(encrypt, size, rows, total, i) {
        RankMonotone(rows, i, |rows|);
      }
    }
    RankNow(encrypt, size, rows, total, end, |rows|);
    if total <= size {
      AllHit(size, total);
    } else {
      AllHit(size, size);
      assert !Hit(size, size);
      MissesAtMost(size, size + 1, total);
    }
  }

  lemma {:induction false} AllHit(size: nat, m: nat)
    requires size > 0 && m <= size
    ensures Hits(size, m) == m
  {
    if m > 0 { AllHit(size, m - 1); }
  }

  /** A table of rows that all need encryption, and an encryption that never fails. */
  function Secrets(n: nat): seq<Row> { seq(n, i => [Pair(Some("key"), None)]) }

  const AlwaysEncrypts: Encrypt := (batch, id, row, c) => Some("ciphertext")

  lemma {:induction false} SecretsNeedIt(n: nat, m: nat)
    requires m <= n
    ensures Rank(Secrets(n), m) == m
  {
    if m > 0 {
      SecretsNeedIt(n, m - 1);
      assert Secrets(n)[m - 1][0].plain.Some?;
    }
  }

  /** One row more than a batch: one row is never encrypted. */
  lemma OneRowTooMany(size: nat, end: seq<Row>)
    requires size > 0 && EverySecondBatch(AlwaysEncrypts, size, Secrets(size + 1), end)
    ensures Rank(end, size + 1) == 1
  {
    var rows := Secrets(size + 1);
    SecretsNeedIt(size + 1, size + 1);
    LeftUndone(AlwaysEncrypts, size, rows, end);
    AllHit(size, size);
    assert !Hit(size, size);
  }

  // ------------------------------------------------------------------- written out

  /** A fetched row, column by column: where there is a plaintext and no ciphertext, what encrypt gives,
      if it gives something; whatever the other columns do. */
  lemma ColumnInBatch(encrypt: Encrypt, batch: nat, id: nat, row: Row, c: nat)
    requires c < |row|
    ensures |EncryptRow(encrypt, batch, id, row)| == |row|
    ensures EncryptRow(encrypt, batch, id, row)[c] ==
      if row[c].plain.Some? && row[c].plain.value != "" && (row[c].enc == None || row[c].enc == Some(""))
         && encrypt(batch, id, row, c).Some?
      then Pair(row[c].plain, encrypt(batch, id, row, c)) else row[c]
  {
  }

  /** A row counts as updated when at least one of its columns is encrypted. */
  lemma UpdatedByColumn(encrypt: Encrypt, batch: nat, id: nat, row: Row)
    ensures Updates(encrypt, batch, id, row) <==>
      exists c :: 0 <= c < |row| && row[c].plain.Some? && row[c].plain.value != "" && (row[c].enc == None || row[c].enc == Some(""))
                  && encrypt(batch, id, row, c).Some?
  {
  }

  /** A batch: the rows in need whose number of needy rows before them lies in the window, and no
      other. */
  lemma RowInBatch(encrypt: Encrypt, rows: seq<Row>, offset: nat, size: nat, batch: nat, i: nat)
    requires i < |rows|
    ensures var row, r := rows[i], |NeedyBefore(rows, i)|;
            AfterBatch(encrypt, rows, offset, size, batch)[i] ==
              if (exists c :: 0 <= c < |row| && row[c].plain.Some? && row[c].enc == None) && offset <= r < offset + size
              then EncryptRow(encrypt, batch, i, row) else row
  {
    RankCounts(rows, i);
  }

  /** The rows before row n that need encryption. */
  ghost function NeedyBefore(rows: seq<Row>, n: nat): set<nat>
    requires n <= |rows|
  {
    set i: nat | i < n && exists c :: 0 <= c < |rows[i]| && rows[i][c].plain.Some? && rows[i][c].enc == None
  }

  lemma {:induction false} RankCounts(rows: seq<Row>, n: nat)
    requires n <= |rows|
    ensures Rank(rows, n) == |NeedyBefore(rows, n)|
    decreases n
  {
    if n == 0 {
      assert NeedyBefore(rows, 0) == {};
    } else {
      RankCounts(rows, n - 1);
      if Needs(rows[n - 1]) {
        assert NeedyBefore(rows, n) == NeedyBefore(rows, n - 1) + {n - 1};
      } else {
        assert NeedyBefore(rows, n) == NeedyBefore(rows, n - 1);
      }
    }
  }

  /** A column at the end: with r rows in need before its own, and its own in need, it is encrypted
      exactly if the r-th row in need is hit, there is a plaintext, and no ciphertext yet. */
  lemma ColumnAtEnd(encrypt: Encrypt, size: nat, rows: seq<Row>, end: seq<Row>, i: nat, c: nat)
    requires size > 0 && Fair(encrypt, rows) && EverySecondBatch(encrypt, size, rows, end)
    requires i < |rows| && c < |rows[i]|
    ensures |end| == |rows| && |end[i]| == |rows[i]|
    ensures var r, row := |NeedyBefore(rows, i)|, rows[i];
            var needy := exists k :: 0 <= k < |row| && row[k].plain.Some? && row[k].enc == None;
            end[i][c] ==
              if needy && Hit(size, r) && row[c].plain.Some? && (row[c].enc == None || row[c].enc == Some(""))
              then Pair(row[c].plain, encrypt(BlockOf(size, r), i, row, c)) else row[c]
  {
    RankCounts(rows, i);
  }
}
