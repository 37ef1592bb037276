/**
 * The batch writer (`insert_data_to_mysql`): step through the table in
 * slices of `batch_size` rows, build each slice's tuple list, execute it as
 * one statement and commit it. The database is a ghost log of committed
 * batches; whether the server accepts the statement of batch number k is
 * a parameter.
 */
module Writer {
  import opened Wrappers
  import opened Table
  import opened Encoding
  import opened Batching

  datatype InsertError =
    | ZeroBatchSize          // `range` raises ValueError for a zero step
    | BadRow(cause: EncodeError)
    | Rejected               // `executemany` raised; the batch is not committed

  datatype Status = Completed | Failed(error: InsertError)

  /**
   * The server's verdict on the statement for batch number k with the given
   * tuples: whether `executemany` succeeds. It may depend on the batch number
   * as well as the data (a duplicate key, a dropped connection).
   */
  type Server = (nat, seq<Params>) -> bool

  /** Why batch number k stops the run: a row without a tuple, or the server refusing it. */
  predicate BatchFails(batch: seq<Row>, k: nat, accepts: Server, e: InsertError)
  {
    match EncodeRows(batch)
    case Err(cause) => e == BadRow(cause)
    case Ok(data) => !accepts(k, data) && e == Rejected
  }

  /**
   * The log holds, in order, the tuple lists of the first |log| batches,
   * each accepted by the server under its batch number.
   */
  ghost predicate Committed(bs: seq<seq<Row>>, log: seq<seq<Params>>, accepts: Server)
    decreases |log|
  {
    && |log| <= |bs|
    && (log != [] ==>
          var k := |log| - 1;
          && Committed(bs, log[..k], accepts)
          && EncodeRows(bs[k]) == Ok(log[k]) && accepts(k, log[k]))
  }

  lemma {:induction false} CommittedAll(bs: seq<seq<Row>>, log: seq<seq<Params>>, accepts: Server)
    requires Committed(bs, log, accepts)
    ensures |log| <= |bs|
    ensures forall k | 0 <= k < |log| :: EncodeRows(bs[k]) == Ok(log[k]) && accepts(k, log[k])
    decreases |log|
  {
    if log != [] {
      var k := |log| - 1;
      CommittedAll(bs, log[..k], accepts);
      assert forall l | 0 <= l < k :: log[..k][l] == log[l];
    }
  }

  /** The nested loop over one batch that appends a tuple per row. */
  method BuildBatch(batch: seq<Row>) returns (r: Result<seq<Params>, EncodeError>)
    ensures r == EncodeRows(batch)
  {
    var data: seq<Params> := [];
    var j := 0;
    while j < |batch|
      invariant 0 <= j <= |batch|
      invariant |data| == j
      invariant forall k | 0 <= k < j :: EncodeRow(batch[k]) == Ok(data[k])
    {
      match EncodeRow(batch[j])
      case Err(e) =>
        var k :| 0 <= k < |batch| && (forall l | 0 <= l < k :: EncodeRow(batch[l]).Ok?)
                 && EncodeRow(batch[k]) == Err(EncodeRows(batch).error);
        assert k == j;
        return Err(e);
      case Ok(values) =>
        data := data + [values];
      j := j + 1;
    }
    assert EncodeRows(batch).value == data;
    r := Ok(data);
  }

  /**
   * The write loop for a positive batch size. The committed log is the
   * encoding of the table's first batches, in order, each accepted by the
   * server; the count is min(k * B, N) for k commits, and the committed rows
   * are the first rows of the table. The run completes exactly when every
   * batch is committed, and then the count is N; otherwise the first batch
   * not committed is the one that failed.
   */
  method WriteBatches(rows: seq<Row>, batchSize: nat, accepts: Server)
    returns (inserted: nat, ghost log: seq<seq<Params>>, status: Status)
    requires batchSize > 0
    ensures |log| <= |Batches(rows, batchSize)|
    ensures inserted == Min(|log| * batchSize, |rows|)
    ensures Flatten(Batches(rows, batchSize)[..|log|]) == rows[..inserted]
    ensures forall k | 0 <= k < |log| ::
              EncodeRows(Batches(rows, batchSize)[k]) == Ok(log[k]) && accepts(k, log[k])
    ensures status.Completed? <==> |log| == |Batches(rows, batchSize)|
    ensures status.Completed? ==> inserted == |rows|
    ensures status.Failed? ==> BatchFails(Batches(rows, batchSize)[|log|], |log|, accepts, status.error)
  {
    inserted, log := 0, [];
    var n := |rows|;
    ghost var batches := Batches(rows, batchSize);
    var i := 0;
    var k: nat := 0;  // the number of the current batch
    while i < n
      invariant k == |log|
      invariant |log| <= |batches|
      invariant i == |log| * batchSize
      invariant inserted == Min(i, n)
      invariant batches[|log|..] == Batches(rows[inserted..], batchSize)
      invariant Committed(batches, log, accepts)
      decreases n - i
    {
      var next := Min(i + batchSize, n);
      var batch := rows[i..next];
      NextBatch(rows, batchSize, k, i);
      var data := BuildBatch(batch);
      if data.Err? {
        BatchesPrefix(rows, batchSize, k);
        CommittedAll(batches, log, accepts);
        return inserted, log, Failed(BadRow(data.error));
      }
      if !accepts(k, data.value) {
        BatchesPrefix(rows, batchSize, k);
        CommittedAll(batches, log, accepts);
        return inserted, log, Failed(Rejected);
      }
      // executemany, then commit
      ghost var before := log;
      log := log + [data.value];
      inserted := inserted + |batch|;
      assert inserted == next && |log| == k + 1;
      assert batches[|log|..] == Batches(rows[inserted..], batchSize);
      assert log[..k] == before;
      MulSucc(k, batchSize);
      i, k := i + batchSize, k + 1;
    }
    assert rows[inserted..] == [];
    BatchesPrefix(rows, batchSize, |log|);
    CommittedAll(batches, log, accepts);
    status := Completed;
  }

  /**
   * `insert_data_to_mysql` after the connection is open. A zero batch size
   * makes `range` raise before any insert; a negative one gives an empty
   * range, so nothing is written and the run completes.
   */
  method InsertData(t: Table, batchSize: int, accepts: Server)
    returns (inserted: nat, ghost log: seq<seq<Params>>, status: Status)
    ensures batchSize == 0 ==> inserted == 0 && log == [] && status == Failed(ZeroBatchSize)
    ensures batchSize < 0 ==> inserted == 0 && log == [] && status == Completed
    ensures batchSize > 0 ==>
              && |log| <= |Batches(t.rows, batchSize)|
              && inserted == Min(|log| * batchSize, |t.rows|)
              && Flatten(Batches(t.rows, batchSize)[..|log|]) == t.rows[..inserted]
              && (forall k | 0 <= k < |log| ::
                    EncodeRows(Batches(t.rows, batchSize)[k]) == Ok(log[k]) && accepts(k, log[k]))
              && (status.Completed? <==> |log| == |Batches(t.rows, batchSize)|)
              && (status.Completed? ==> inserted == |t.rows|)
              && (status.Failed? ==> BatchFails(Batches(t.rows, batchSize)[|log|], |log|, accepts, status.error))
  {
    if batchSize == 0 {
      return 0, [], Failed(ZeroBatchSize);
    } else if batchSize < 0 {
      return 0, [], Completed;
    }
    inserted, log, status := WriteBatches(t.rows, batchSize, accepts);
  }
}
