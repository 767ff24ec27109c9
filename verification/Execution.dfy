/** How a list of rows reaches its table: cut into chunks, each chunk one statement, retried with
    cleaned rows when the first attempt fails; chunks of many lists run at once. */
module Execution {
  import opened Chunking
  import opened Upserts
  import opened Convergence
  import opened GuardLoss

  /** How a table's rows are written: the text of a statement with its bound values, what cleaning does
      to a row, and the chunk size. */
  datatype Writer<!D> = Writer(render: seq<Row<D>> -> string, clean: Row<D> -> Row<D>, size: nat)

  function CleanRows<D>(wr: Writer<D>, rows: seq<Row<D>>): seq<Row<D>> {
    seq(|rows|, i requires 0 <= i < |rows| => wr.clean(rows[i]))
  }

  /** The statement for one chunk, or for its cleaned rows when the first attempt failed. */
  function Attempt<D>(wr: Writer<D>, chunk: seq<Row<D>>, retried: bool): Statement<D> {
    Prepare(wr.render, if retried then CleanRows(wr, chunk) else chunk)
  }

  /** Every row written is part of some attempt at some chunk of a list that was started, and every
      chunk of every completed list has had a successful attempt. Nothing is said about order or
      repetition. */
  ghost predicate Executed<D(!new)>(
    wr: Writer<D>, started: seq<seq<Row<D>>>, completed: seq<seq<Row<D>>>, ws: seq<RowWrite<D>>)
    requires wr.size >= 1
  {
    && (forall w <- ws :: exists rows, chunk, retried ::
          rows in started && chunk in Chunks(rows, wr.size) && w in Writes(Attempt(wr, chunk, retried)))
    && (forall rows, chunk | rows in completed && chunk in Chunks(rows, wr.size) ::
          exists retried :: forall w <- Writes(Attempt(wr, chunk, retried)) :: w in ws)
  }

  /** No chunk's text mentions "where". */
  ghost predicate GuardsKept<D(!new)>(wr: Writer<D>, lists: seq<seq<Row<D>>>)
    requires wr.size >= 1
  {
    forall rows, chunk | rows in lists && chunk in Chunks(rows, wr.size) :: KeepsGuard(wr.render(chunk))
  }

  /** Cleaning leaves every row of the list alone. */
  ghost predicate CleanAlready<D(!new)>(wr: Writer<D>, rows: seq<Row<D>>) {
    forall r <- rows :: wr.clean(r) == r
  }

  lemma AttemptAsIs<D(!new)>(wr: Writer<D>, chunk: seq<Row<D>>, retried: bool)
    requires CleanAlready(wr, chunk)
    ensures Attempt(wr, chunk, retried) == Prepare(wr.render, chunk)
  {
    assert CleanRows(wr, chunk) == chunk;
  }

  lemma ChunkWithin<D(!new)>(wr: Writer<D>, rows: seq<Row<D>>, chunk: seq<Row<D>>)
    requires wr.size >= 1 && chunk in Chunks(rows, wr.size) && CleanAlready(wr, rows)
    ensures CleanAlready(wr, chunk) && forall r <- chunk :: r in rows
  {
    forall r <- chunk
      ensures r in rows
    {
      ChunksMembers(rows, wr.size, r);
      var i :| 0 <= i < |Chunks(rows, wr.size)| && Chunks(rows, wr.size)[i] == chunk;
    }
  }

  lemma WriteIsGuardedRow<D(!new)>(
    wr: Writer<D>, lists: seq<seq<Row<D>>>, w: RowWrite<D>, rows: seq<Row<D>>, chunk: seq<Row<D>>, retried: bool)
    requires wr.size >= 1 && GuardsKept(wr, lists) && CleanAlready(wr, rows)
    requires rows in lists && chunk in Chunks(rows, wr.size) && w in Writes(Attempt(wr, chunk, retried))
    ensures w.guarded && w.row in rows
  {
    ChunkWithin(wr, rows, chunk);
    AttemptAsIs(wr, chunk, retried);
    assert KeepsGuard(wr.render(chunk));
    var i :| 0 <= i < |chunk| && w == Writes(Prepare(wr.render, chunk))[i];
    assert w.row == chunk[i] && chunk[i] in chunk;
  }

  lemma RowIsWritten<D(!new)>(
    wr: Writer<D>, ws: seq<RowWrite<D>>, rows: seq<Row<D>>, chunk: seq<Row<D>>, retried: bool, r: Row<D>)
    requires wr.size >= 1 && chunk in Chunks(rows, wr.size) && r in chunk && CleanAlready(wr, rows)
    requires forall w <- Writes(Attempt(wr, chunk, retried)) :: w in ws
    ensures exists w :: w in ws && w.row == r
  {
    ChunkWithin(wr, rows, chunk);
    AttemptAsIs(wr, chunk, retried);
    var i :| 0 <= i < |chunk| && chunk[i] == r;
    assert Writes(Prepare(wr.render, chunk))[i] in ws;
  }

  lemma ExecutedIsWritesOf<D(!new)>(
    wr: Writer<D>, started: seq<seq<Row<D>>>, completed: seq<seq<Row<D>>>, ws: seq<RowWrite<D>>)
    requires wr.size >= 1 && Executed(wr, started, completed, ws)
    requires forall rows <- completed :: rows in started
    requires GuardsKept(wr, started) && forall rows <- started :: CleanAlready(wr, rows)
    ensures WritesOf(started, completed, ws) && forall w <- ws :: w.guarded
  {
    forall w <- ws
      ensures w.guarded && exists rows :: rows in started && w.row in rows
    {
      var rows, chunk, retried :|
        rows in started && chunk in Chunks(rows, wr.size) && w in Writes(Attempt(wr, chunk, retried));
      WriteIsGuardedRow(wr, started, w, rows, chunk, retried);
    }
    forall rows, r | rows in completed && r in rows
      ensures exists w :: w in ws && w.row == r
    {
      ChunksMembers(rows, wr.size, r);
      var c :| 0 <= c < |Chunks(rows, wr.size)| && r in Chunks(rows, wr.size)[c];
      var chunk := Chunks(rows, wr.size)[c];
      assert chunk in Chunks(rows, wr.size);
      var retried :| forall w <- Writes(Attempt(wr, chunk, retried)) :: w in ws;
      RowIsWritten(wr, ws, rows, chunk, retried, r);
    }
  }

  /** For any log, any cut into batches of whole transactions, any chunk size, any interleaving, any
      retries, any batches left half written by a crash and any replay with other batch boundaries, the
      table ends equal to the sequential replay of the log, provided no statement loses its guard and
      cleaning leaves the rows alone. */
  lemma ExecutedWritesConverge<D(!new)>(
    wins: Wins, wr: Writer<D>, log: seq<Txn<D>>, batches: seq<seq<Txn<D>>>, lists: seq<seq<Row<D>>>,
    partial: seq<seq<Txn<D>>>, partialLists: seq<seq<Row<D>>>, ws: seq<RowWrite<D>>)
    requires wr.size >= 1 && CutFrom(log, batches) && |lists| == |batches|
    requires forall b | 0 <= b < |batches| :: Lists(Replay(wins, batches[b]), lists[b])
    requires (forall b <- partial :: TakenFrom(log, b)) && |partialLists| == |partial|
    requires forall b | 0 <= b < |partial| :: Lists(Replay(wins, partial[b]), partialLists[b])
    requires Executed(wr, lists + partialLists, lists, ws)
    requires GuardsKept(wr, lists + partialLists) && forall rows <- lists + partialLists :: CleanAlready(wr, rows)
    ensures UpsertAll(wins, map[], ws) == Replay(wins, log)
  {
    ExecutedIsWritesOf(wr, lists + partialLists, lists, ws);
    GuardedWritesConverge(wins, log, batches, lists, partial, partialLists, ws);
  }
}
