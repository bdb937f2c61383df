/** The batched encryption backfill
    (alembic/versions/8149a781ac1b_backfill_encrypted_columns_for_.py:26-345).  The three
    tables differ only in how many plaintext/ciphertext column pairs a row has. */
module Backfill {
  import opened Wrappers

  /** A plaintext column and its ciphertext column; None is NULL. */
  datatype Pair = Pair(plain: Option<string>, enc: Option<string>)

  type Row = seq<Pair>

  /** What CryptoUtils.encrypt answers in a given batch for a row, by its position and content, and
      a column of it; None when it raises.  Rows with the same content may get different answers. */
  type Encrypt = (nat, nat, Row, nat) -> Option<string>

  predicate Truthy(s: Option<string>) { s.Some? && s.value != "" }

  /** The WHERE clause: some plaintext is there and its ciphertext is NULL. */
  predicate Needs(row: Row) {
    exists c :: 0 <= c < |row| && row[c].plain.Some? && row[c].enc == None
  }

  /** The rows matching the WHERE clause among the first n.  Rows stand in id order. */
  function Rank(rows: seq<Row>, n: nat): (r: nat)
    requires n <= |rows|
    ensures r <= n
  {
    if n == 0 then 0 else Rank(rows, n - 1) + if Needs(rows[n - 1]) then 1 else 0
  }

  /** WHERE .. ORDER BY id LIMIT limit OFFSET offset picks row i. */
  predicate Chosen(rows: seq<Row>, offset: nat, limit: nat, i: nat)
    requires i < |rows|
  {
    Needs(rows[i]) && offset <= Rank(rows, i) < offset + limit
  }

  function Select(rows: seq<Row>, offset: nat, limit: nat, n: nat): (ids: seq<nat>)
    requires n <= |rows|
    ensures forall k :: 0 <= k < |ids| ==> ids[k] < n && Chosen(rows, offset, limit, ids[k])
    ensures forall i: nat :: i < n && Chosen(rows, offset, limit, i) ==> i in ids
  {
    if n == 0 then []
    else Select(rows, offset, limit, n - 1) + if Chosen(rows, offset, limit, n - 1) then [n - 1] else []
  }

  function EncryptPair(encrypt: Encrypt, batch: nat, id: nat, row: Row, c: nat): Pair
    requires c < |row|
  {
    if Truthy(row[c].plain) && !Truthy(row[c].enc) && encrypt(batch, id, row, c).Some?
    then row[c].(enc := encrypt(batch, id, row, c))
    else row[c]
  }

  function EncryptRow(encrypt: Encrypt, batch: nat, id: nat, row: Row): (r: Row)
    ensures |r| == |row|
  {
    seq(|row|, c requires 0 <= c < |row| => EncryptPair(encrypt, batch, id, row, c))
  }

  /** has_updates */
  predicate Updates(encrypt: Encrypt, batch: nat, id: nat, row: Row) {
    exists c :: 0 <= c < |row| && Truthy(row[c].plain) && !Truthy(row[c].enc) && encrypt(batch, id, row, c).Some?
  }

  function AfterBatch(encrypt: Encrypt, rows: seq<Row>, offset: nat, limit: nat, batch: nat): (r: seq<Row>)
    ensures |r| == |rows|
  {
    seq(|rows|, i requires 0 <= i < |rows| =>
      if Chosen(rows, offset, limit, i) then EncryptRow(encrypt, batch, i, rows[i]) else rows[i])
  }

  function CountUpdates(encrypt: Encrypt, rows: seq<Row>, ids: seq<nat>, batch: nat): nat
    requires forall k :: 0 <= k < |ids| ==> ids[k] < |rows|
  {
    if ids == [] then 0
    else CountUpdates(encrypt, rows, ids[..|ids| - 1], batch)
         + if Updates(encrypt, batch, ids[|ids| - 1], rows[ids[|ids| - 1]]) then 1 else 0
  }

  lemma RankBound(rows: seq<Row>, i: nat)
    requires i < |rows|
    ensures Rank(rows, i) < |rows|
  {
  }

  lemma {:induction false} RankMonotone(rows: seq<Row>, i: nat, j: nat)
    requires i <= j <= |rows|
    ensures Rank(rows, i) <= Rank(rows, j)
    ensures i < j && Needs(rows[i]) ==> Rank(rows, i) < Rank(rows, j)
    decreases j
  {
    if i < j { RankMonotone(rows, i, j - 1); }
  }
}
