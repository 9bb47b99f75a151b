/** What statements do to the rows of one chunk. */
module LoaderRows {
  import opened LoaderSpec
  import opened Sequences

  lemma RowsOfJoin(chunk: Content, a: seq<Body>, b: seq<Body>)
    ensures RowsOf(chunk, a + b) == RowsOf(chunk, a) + RowsOf(chunk, b)
  {
  }

  lemma {:induction false} OnlyWithout(rows: seq<Row>, chunks: set<Content>, k: Content)
    ensures Only(Without(rows, chunks), k) == if k in chunks then [] else Only(rows, k)
  {
    if rows != [] {
      var n := |rows| - 1;
      OnlyWithout(rows[..n], chunks, k);
      OnlyJoin(Without(rows[..n], chunks), if rows[n].chunk in chunks then [] else [rows[n]], k);
      OnlyOne(rows[n], k);
    }
  }

  lemma OnlyOne(row: Row, k: Content)
    ensures Only([row], k) == if row.chunk == k then [row] else []
  {
    assert [row][..0] == [];
  }

  lemma {:induction false} OnlyJoin(a: seq<Row>, b: seq<Row>, k: Content)
    ensures Only(a + b, k) == Only(a, k) + Only(b, k)
    decreases |b|
  {
    if b == [] {
      assert a + b == a;
    } else {
      var n := |b| - 1;
      assert (a + b)[..|a| + n] == a + b[..n] && (a + b)[|a| + n] == b[n];
      OnlyJoin(a, b[..n], k);
    }
  }

  lemma {:induction false} OnlyRowsOf(chunk: Content, bodies: seq<Body>, k: Content)
    ensures Only(RowsOf(chunk, bodies), k) == if k == chunk then RowsOf(chunk, bodies) else []
    decreases |bodies|
  {
    if bodies != [] {
      var n := |bodies| - 1;
      assert bodies == bodies[..n] + [bodies[n]];
      RowsOfJoin(chunk, bodies[..n], [bodies[n]]);
      var last := RowsOf(chunk, [bodies[n]]);
      assert last == [Row(chunk, bodies[n])];
      OnlyRowsOf(chunk, bodies[..n], k);
      OnlyJoin(RowsOf(chunk, bodies[..n]), last, k);
      OnlyOne(Row(chunk, bodies[n]), k);
    }
  }

  // ----- whole statement lists -----

  lemma {:induction false} AppliedJoin(t: Tables, a: seq<Op>, b: seq<Op>)
    ensures AllApplied(t, a + b) == AllApplied(AllApplied(t, a), b)
    decreases |a|
  {
    if a == [] {
      assert a + b == b;
    } else {
      assert (a + b)[0] == a[0] && (a + b)[1..] == a[1..] + b;
      AppliedJoin(Applied(t, a[0]), a[1..], b);
    }
  }

  /** The statement concerns no rows but those of the given chunks, and no marker. */
  ghost predicate Within(op: Op, chunks: set<Content>) {
    match op
    case Delete(_, gone) => gone <= chunks
    case Insert(_, rows) => forall i :: 0 <= i < |rows| ==> rows[i].chunk in chunks
    case WriteMark(_, _) => false
  }

  ghost predicate AllWithin(ops: seq<Op>, chunks: set<Content>) {
    forall i :: 0 <= i < |ops| ==> Within(ops[i], chunks)
  }

  lemma {:induction false} OnlyOthers(rows: seq<Row>, k: Content)
    requires forall i :: 0 <= i < |rows| ==> rows[i].chunk != k
    ensures Only(rows, k) == []
  {
    if rows != [] { OnlyOthers(rows[..|rows| - 1], k); }
  }

  lemma AppliedSpares(t: Tables, op: Op, chunks: set<Content>, k: Content, table: Table)
    requires Within(op, chunks) && k !in chunks
    ensures Only(Applied(t, op).Rows(table), k) == Only(t.Rows(table), k)
  {
    hide Only, Without;
    match op
    case Delete(tb, gone) => OnlyWithout(t.Rows(tb), gone, k);
    case Insert(tb, rows) =>
      OnlyJoin(t.Rows(tb), rows, k);
      OnlyOthers(rows, k);
      assert Only(t.Rows(tb), k) + [] == Only(t.Rows(tb), k);
    case _ =>
  }

  /** Rows of other chunks and all markers survive any such list. */
  lemma {:induction false} OthersSpared(t: Tables, ops: seq<Op>, chunks: set<Content>, k: Content, table: Table)
    requires AllWithin(ops, chunks)
    ensures AllApplied(t, ops).marks == t.marks
    ensures k !in chunks ==> Only(AllApplied(t, ops).Rows(table), k) == Only(t.Rows(table), k)
    decreases |ops|
  {
    if ops != [] {
      assert Within(ops[0], chunks);
      assert forall i :: 0 <= i < |ops[1..]| ==> ops[1..][i] == ops[i + 1];
      if k !in chunks { AppliedSpares(t, ops[0], chunks, k, table); }
      hide Within;
      OthersSpared(Applied(t, ops[0]), ops[1..], chunks, k, table);
      MarksKept(t, ops[0], chunks);
    }
  }

  lemma MarksKept(t: Tables, op: Op, chunks: set<Content>)
    requires Within(op, chunks)
    ensures Applied(t, op).marks == t.marks
  {
  }

  lemma AppliedThree(t: Tables, a: Op, b: Op, c: Op)
    ensures AllApplied(t, [a, b, c]) == Applied(Applied(Applied(t, a), b), c)
  {
    hide Applied;
    var t1 := Applied(t, a);
    var t2 := Applied(t1, b);
    var t3 := Applied(t2, c);
    assert [a, b, c][1..] == [b, c] && [b, c][1..] == [c] && [c][1..] == [];
    assert AllApplied(t3, []) == t3;
    assert AllApplied(t2, [c]) == t3;
    assert AllApplied(t1, [b, c]) == t3;
  }

  lemma DeletedRows(t: Tables, chunks: set<Content>, k: Content, table: Table)
    ensures AllWithin(DeleteOps(chunks), chunks)
    ensures Only(AllApplied(t, DeleteOps(chunks)).Rows(table), k) == if k in chunks then [] else Only(t.Rows(table), k)
  {
    AppliedThree(t, Delete(Frames, chunks), Delete(Signals, chunks), Delete(Events, chunks));
    OnlyWithout(t.frames, chunks, k);
    OnlyWithout(t.signals, chunks, k);
    OnlyWithout(t.events, chunks, k);
    hide Only, Without, AllApplied;
  }

  // ----- one chunk's inserts -----

  /** The rows a list of inserts adds to a table. */
  function Sent(ops: seq<Op>, table: Table): seq<Row> {
    if ops == [] then []
    else (if ops[0].Insert? && ops[0].table == table then ops[0].rows else []) + Sent(ops[1..], table)
  }

  ghost predicate OnlyInserts(ops: seq<Op>) {
    forall i :: 0 <= i < |ops| ==> ops[i].Insert?
  }

  lemma {:induction false} SentJoin(a: seq<Op>, b: seq<Op>, table: Table)
    ensures Sent(a + b, table) == Sent(a, table) + Sent(b, table)
    decreases |a|
  {
    if a == [] {
      assert a + b == b;
    } else {
      assert (a + b)[0] == a[0] && (a + b)[1..] == a[1..] + b;
      SentJoin(a[1..], b, table);
    }
  }

  lemma {:induction false} InsertsAdd(t: Tables, ops: seq<Op>, table: Table)
    requires OnlyInserts(ops)
    ensures AllApplied(t, ops).Rows(table) == t.Rows(table) + Sent(ops, table)
    decreases |ops|
  {
    if ops != [] {
      assert ops[0].Insert?;
      assert forall i :: 0 <= i < |ops[1..]| ==> ops[1..][i] == ops[i + 1];
      InsertsAdd(Applied(t, ops[0]), ops[1..], table);
    }
  }

  function Waiting(b: Buffers, table: Table): seq<Body> {
    match table case Frames => b.frames case Signals => b.signals case Events => b.events
  }

  function Produced(records: seq<Record>, table: Table): seq<Body> {
    match table case Frames => AllFrames(records) case Signals => AllSignals(records) case Events => AllEvents(records)
  }

  lemma SentOne(op: Op, table: Table)
    requires op.Insert?
    ensures Sent([op], table) == if op.table == table then op.rows else []
  {
    assert [op][1..] == [];
  }

  lemma FlushOneSends(chunk: Content, into: Table, bodies: seq<Body>, batch: nat, table: Table)
    ensures var ops := FlushOne(chunk, into, bodies, batch);
      && Sent(ops, table) + (if into == table then RowsOf(chunk, Left(bodies, batch)) else [])
         == (if into == table then RowsOf(chunk, bodies) else [])
      && (into != table ==> Sent(ops, table) == [])
      && AllWithin(ops, {chunk}) && OnlyInserts(ops)
  {
    SentOne(Insert(into, RowsOf(chunk, bodies)), table);
    assert Sent([], table) == [];
    hide Sent;
    assert RowsOf(chunk, bodies) + RowsOf(chunk, []) == RowsOf(chunk, bodies);
  }

  lemma FlushSends(chunk: Content, b: Buffers, batch: nat, table: Table)
    ensures var (ops, b1) := Flush(chunk, b, batch);
      && Sent(ops, table) + RowsOf(chunk, Waiting(b1, table)) == RowsOf(chunk, Waiting(b, table))
      && AllWithin(ops, {chunk}) && OnlyInserts(ops)
  {
    var first, second := FlushOne(chunk, Frames, b.frames, batch), FlushOne(chunk, Signals, b.signals, batch);
    FlushOneSends(chunk, Frames, b.frames, batch, table);
    FlushOneSends(chunk, Signals, b.signals, batch, table);
    hide FlushOne, Left, RowsOf, Within;
    SentJoin(first, second, table);
    hide Sent;
    WithinJoin(first, second, {chunk});
    assert forall rows: seq<Row> :: [] + rows == rows;
  }

  lemma WithinJoin(a: seq<Op>, b: seq<Op>, chunks: set<Content>)
    requires AllWithin(a, chunks) && AllWithin(b, chunks)
    ensures AllWithin(a + b, chunks)
  {
    hide Within;
  }

  lemma RegroupFour<T>(a: seq<T>, b: seq<T>, c: seq<T>, d: seq<T>, e: seq<T>, f: seq<T>)
    requires a + c == d && b + e == c + f
    ensures (a + b) + e == d + f
  {
    Regroup(a, b, e);
    Regroup(a, c, f);
  }

  /** Reading moves every produced row exactly once into statements or buffers. */
  lemma {:induction false} ReadSends(chunk: Content, records: seq<Record>, b: Buffers, batch: nat, table: Table)
    ensures var (ops, b1) := ReadOps(chunk, records, b, batch);
      Sent(ops, table) + RowsOf(chunk, Waiting(b1, table)) == RowsOf(chunk, Waiting(b, table) + Produced(records, table))
    decreases |records|
  {
    if records == [] {
      assert Waiting(b, table) + [] == Waiting(b, table);
    } else {
      var r, rest := records[0], records[1..];
      var b0 := Buffered(b, r);
      var (ops, b1) := Flush(chunk, b0, batch);
      var (more, b2) := ReadOps(chunk, rest, b1, batch);
      FlushSends(chunk, b0, batch, table);
      hide Flush, AllWithin, OnlyInserts;
      ReadSends(chunk, rest, b1, batch, table);
      assert ReadOps(chunk, records, b, batch) == (ops + more, b2);
      hide ReadOps;
      ProducedStep(b, r, rest, table);
      assert [r] + rest == records;
      hide Produced, Waiting;
      SentJoin(ops, more, table);
      RowsOfJoin(chunk, Waiting(b1, table), Produced(rest, table));
      RowsOfJoin(chunk, Waiting(b0, table), Produced(rest, table));
      hide RowsOf, Sent;
      RegroupFour(Sent(ops, table), Sent(more, table), RowsOf(chunk, Waiting(b1, table)), RowsOf(chunk, Waiting(b0, table)),
              RowsOf(chunk, Waiting(b2, table)), RowsOf(chunk, Produced(rest, table)));
    }
  }

  lemma {:induction false} ReadWithin(chunk: Content, records: seq<Record>, b: Buffers, batch: nat)
    ensures AllWithin(ReadOps(chunk, records, b, batch).0, {chunk}) && OnlyInserts(ReadOps(chunk, records, b, batch).0)
    decreases |records|
  {
    if records != [] {
      var (ops, b1) := Flush(chunk, Buffered(b, records[0]), batch);
      FlushSends(chunk, Buffered(b, records[0]), batch, Frames);
      ReadWithin(chunk, records[1..], b1, batch);
      WithinJoin(ops, ReadOps(chunk, records[1..], b1, batch).0, {chunk});
      hide Flush, Within;
    }
  }

  lemma ProducedStep(b: Buffers, r: Record, rest: seq<Record>, table: Table)
    ensures Waiting(Buffered(b, r), table) + Produced(rest, table) == Waiting(b, table) + Produced([r] + rest, table)
  {
    assert ([r] + rest)[1..] == rest;
  }

  function Tail(r: Reading, table: Table): seq<Body>
    requires r.Stream?
  {
    match table case Frames => [] case Signals => r.tailSignals case Events => r.tailEvents
  }

  lemma SentThree(a: Op, b: Op, c: Op, table: Table)
    requires a.Insert? && b.Insert? && c.Insert? && a.table == Frames && b.table == Signals && c.table == Events
    ensures Sent([a, b, c], table) == match table case Frames => a.rows case Signals => b.rows case Events => c.rows
  {
    assert [a, b, c] == [a] + ([b] + [c]);
    SentJoin([a], [b] + [c], table);
    SentJoin([b], [c], table);
    SentOne(a, table);
    SentOne(b, table);
    SentOne(c, table);
    hide Sent;
  }

  lemma FinalSends(chunk: Content, b: Buffers, r: Reading, table: Table)
    requires r.Stream?
    ensures AllWithin(FinalOps(chunk, b, r), {chunk}) && OnlyInserts(FinalOps(chunk, b, r))
    ensures Sent(FinalOps(chunk, b, r), table) == RowsOf(chunk, Waiting(b, table)) + RowsOf(chunk, Tail(r, table))
  {
    var s, e := b.signals + r.tailSignals, b.events + r.tailEvents;
    SentThree(Insert(Frames, RowsOf(chunk, b.frames)), Insert(Signals, RowsOf(chunk, s)), Insert(Events, RowsOf(chunk, e)), table);
    RowsOfJoin(chunk, b.signals, r.tailSignals);
    RowsOfJoin(chunk, b.events, r.tailEvents);
    hide Sent;
    assert RowsOf(chunk, b.frames) + RowsOf(chunk, []) == RowsOf(chunk, b.frames);
  }

  lemma ExpectedParts(r: Reading, table: Table)
    requires IsOk(r)
    ensures Expected(r, table) == Produced(r.records, table) + Tail(r, table)
  {
    assert AllFrames(r.records) + [] == AllFrames(r.records);
  }

  /** The statements of an intact chunk add exactly its expected rows. */
  lemma IntactSends(chunk: Content, r: Reading, batch: nat, table: Table)
    requires IsOk(r)
    ensures Sent(BodyOps(chunk, r, batch), table) == RowsOf(chunk, Expected(r, table))
  {
    var (ops, b) := ReadOps(chunk, r.records, Buffers([], [], []), batch);
    assert BodyOps(chunk, r, batch) == ops + FinalOps(chunk, b, r);
    hide BodyOps;
    ReadSends(chunk, r.records, Buffers([], [], []), batch, table);
    hide ReadOps, Sent, FinalOps, RowsOf, Expected, Produced, AllWithin, OnlyInserts;
    NothingWaiting(table, Produced(r.records, table));
    FinalSends(chunk, b, r, table);
    ExpectedParts(r, table);
    hide Waiting, Tail;
    SentJoin(ops, FinalOps(chunk, b, r), table);
    RowsOfJoin(chunk, Produced(r.records, table), Tail(r, table));
    Regroup(Sent(ops, table), RowsOf(chunk, Waiting(b, table)), RowsOf(chunk, Tail(r, table)));
  }

  lemma NothingWaiting(table: Table, bodies: seq<Body>)
    ensures Waiting(Buffers([], [], []), table) + bodies == bodies
  {
  }

  lemma BodyWithin(chunk: Content, r: Reading, batch: nat)
    ensures AllWithin(BodyOps(chunk, r, batch), {chunk})
    ensures IsOk(r) ==> OnlyInserts(BodyOps(chunk, r, batch))
  {
    if r.Stream? {
      var (ops, b) := ReadOps(chunk, r.records, Buffers([], [], []), batch);
      ReadWithin(chunk, r.records, Buffers([], [], []), batch);
      FinalSends(chunk, b, r, Frames);
      hide ReadOps, FinalOps, Within;
      WithinJoin(ops, FinalOps(chunk, b, r), {chunk});
      assert AllWithin(DeleteOps({chunk}), {chunk}) by { DeletedRows(Tables([], [], [], map[]), {chunk}, chunk, Frames); }
      WithinJoin(ops, DeleteOps({chunk}), {chunk});
    }
  }

  /** From no rows, a chunk's statements leave exactly its expected rows. */
  lemma BodyFills(t: Tables, chunk: Content, r: Reading, batch: nat, table: Table)
    requires Only(t.Rows(table), chunk) == []
    ensures Only(AllApplied(t, BodyOps(chunk, r, batch)).Rows(table), chunk) == RowsOf(chunk, Expected(r, table))
  {
    if IsOk(r) {
      IntactSends(chunk, r, batch, table);
      BodyWithin(chunk, r, batch);
      hide BodyOps, Expected, AllWithin;
      var bodies := Expected(r, table);
      InsertsAdd(t, BodyOps(chunk, r, batch), table);
      OnlyJoin(t.Rows(table), RowsOf(chunk, bodies), chunk);
      OnlyRowsOf(chunk, bodies, chunk);
      hide AllApplied, Only, RowsOf;
    } else if r.Stream? {
      var (ops, b) := ReadOps(chunk, r.records, Buffers([], [], []), batch);
      var gone := if ops != [] then DeleteOps({chunk}) else [];
      assert BodyOps(chunk, r, batch) == ops + gone;
      AppliedJoin(t, ops, gone);
      assert RowsOf(chunk, []) == [];
      hide ReadOps, BodyOps, DeleteOps, Only, Within, RowsOf;
      DeletedRows(AllApplied(t, ops), {chunk}, chunk, table);
    }
  }

  lemma AppliedOne(t: Tables, op: Op)
    ensures AllApplied(t, [op]) == Applied(t, op)
  {
    assert [op][1..] == [];
    assert AllApplied(Applied(t, op), []) == Applied(t, op);
  }
}
