/** The decode loader: which statements one run sends to the database, in order. A run that dies at a
    statement has sent a prefix of them. File contents stand for the hashes that name chunks. */
module LoaderSpec {

  type File = nat
  type Content = nat
  type Catalog = nat
  type Body = nat

  datatype Row = Row(chunk: Content, body: Body)

  datatype Table = Frames | Signals | Events

  /** A file's latest marker; `ok` is false for a defect. */
  datatype Mark = Mark(chunk: Content, ok: bool, catalog: Catalog)

  datatype Tables = Tables(frames: seq<Row>, signals: seq<Row>, events: seq<Row>, marks: map<File, Mark>)
  {
    function Rows(t: Table): seq<Row> {
      match t case Frames => frames case Signals => signals case Events => events
    }

    function With(t: Table, rows: seq<Row>): Tables {
      match t
      case Frames => this.(frames := rows)
      case Signals => this.(signals := rows)
      case Events => this.(events := rows)
    }
  }

  datatype Op = Delete(table: Table, chunks: set<Content>)
              | Insert(table: Table, rows: seq<Row>)
              | WriteMark(file: File, mark: Mark)

  /** One record of a chunk: its frame row, and what decoding it adds to the other tables. */
  datatype Record = Record(frame: Body, signals: seq<Body>, events: seq<Body>)

  /** What the reader makes of a chunk under a catalog: a defect seen up front, or records, a tail that
      the last state flushes, and whether reading broke off with an error after the records. */
  datatype Reading = Defect | Stream(records: seq<Record>, tailSignals: seq<Body>, tailEvents: seq<Body>, unreadable: bool)

  /** The archive in listing order, and the reader. */
  datatype World = World(files: seq<File>, content: map<File, Content>, read: (Content, Catalog) -> Reading)

  ghost predicate WorldOk(w: World) {
    && (forall i, j :: 0 <= i < j < |w.files| ==> w.files[i] != w.files[j])
    && (forall i :: 0 <= i < |w.files| ==> w.files[i] in w.content)
  }

  // ----- statements -----

  function Without(rows: seq<Row>, chunks: set<Content>): seq<Row> {
    if rows == [] then []
    else
      var last := rows[|rows| - 1];
      Without(rows[..|rows| - 1], chunks) + if last.chunk in chunks then [] else [last]
  }

  function Applied(t: Tables, op: Op): Tables {
    match op
    case Delete(table, chunks) => t.With(table, Without(t.Rows(table), chunks))
    case Insert(table, rows) => t.With(table, t.Rows(table) + rows)
    case WriteMark(file, mark) => t.(marks := t.marks[file := mark])
  }

  function AllApplied(t: Tables, ops: seq<Op>): Tables
    decreases |ops|
  {
    if ops == [] then t else AllApplied(Applied(t, ops[0]), ops[1..])
  }

  function DeleteOps(chunks: set<Content>): seq<Op> {
    [Delete(Frames, chunks), Delete(Signals, chunks), Delete(Events, chunks)]
  }

  function RowsOf(chunk: Content, bodies: seq<Body>): (rows: seq<Row>)
    ensures |rows| == |bodies|
  {
    seq(|bodies|, i requires 0 <= i < |bodies| => Row(chunk, bodies[i]))
  }

  // ----- one chunk -----

  /** Rows waiting to be sent. */
  datatype Buffers = Buffers(frames: seq<Body>, signals: seq<Body>, events: seq<Body>)

  function Buffered(b: Buffers, r: Record): Buffers {
    Buffers(b.frames + [r.frame], b.signals + r.signals, b.events + r.events)
  }

  function FlushOne(chunk: Content, table: Table, bodies: seq<Body>, batch: nat): seq<Op> {
    if |bodies| >= batch then [Insert(table, RowsOf(chunk, bodies))] else []
  }

  function Left(bodies: seq<Body>, batch: nat): seq<Body> {
    if |bodies| >= batch then [] else bodies
  }

  function Flush(chunk: Content, b: Buffers, batch: nat): (seq<Op>, Buffers) {
    (FlushOne(chunk, Frames, b.frames, batch) + FlushOne(chunk, Signals, b.signals, batch),
     b.(frames := Left(b.frames, batch), signals := Left(b.signals, batch)))
  }

  /** The inserts made while reading, and what is left in the buffers. */
  function ReadOps(chunk: Content, records: seq<Record>, b: Buffers, batch: nat): (seq<Op>, Buffers)
    decreases |records|
  {
    if records == [] then ([], b)
    else
      var (ops, b1) := Flush(chunk, Buffered(b, records[0]), batch);
      var (more, b2) := ReadOps(chunk, records[1..], b1, batch);
      (ops + more, b2)
  }

  function FinalOps(chunk: Content, b: Buffers, r: Reading): seq<Op>
    requires r.Stream?
  {
    [Insert(Frames, RowsOf(chunk, b.frames)), Insert(Signals, RowsOf(chunk, b.signals + r.tailSignals)),
     Insert(Events, RowsOf(chunk, b.events + r.tailEvents))]
  }

  /** Everything between the delete and the marker. */
  function BodyOps(chunk: Content, r: Reading, batch: nat): seq<Op> {
    match r
    case Defect => []
    case Stream(records, _, _, unreadable) =>
      var (ops, b) := ReadOps(chunk, records, Buffers([], [], []), batch);
      if unreadable then ops + (if ops != [] then DeleteOps({chunk}) else []) else ops + FinalOps(chunk, b, r)
  }

  predicate IsOk(r: Reading) { r.Stream? && !r.unreadable }

  /** Delete, frames, signals, events, marker: a chunk in `cleared` needs no delete of its own. */
  function LoadOps(w: World, file: File, catalog: Catalog, cleared: set<Content>, batch: nat): seq<Op>
    requires file in w.content
  {
    var chunk := w.content[file];
    var r := w.read(chunk, catalog);
    (if chunk in cleared then [] else DeleteOps({chunk})) + BodyOps(chunk, r, batch)
      + [WriteMark(file, Mark(chunk, IsOk(r), catalog))]
  }

  // ----- one run -----

  predicate IsPending(t: Tables, file: File, catalog: Catalog) {
    file !in t.marks || t.marks[file].catalog != catalog
  }

  function Pending(t: Tables, files: seq<File>, catalog: Catalog): (todo: seq<File>)
    ensures forall f :: f in todo <==> f in files && IsPending(t, f, catalog)
  {
    if files == [] then []
    else (if IsPending(t, files[0], catalog) then [files[0]] else []) + Pending(t, files[1..], catalog)
  }

  /** The chunks that the files to redo held before, by their markers. */
  function Redone(t: Tables, todo: seq<File>): set<Content> {
    set f | f in todo && f in t.marks :: t.marks[f].chunk
  }

  function LoadAllOps(w: World, todo: seq<File>, catalog: Catalog, cleared: set<Content>, batch: nat): seq<Op>
    requires forall f :: f in todo ==> f in w.content
    decreases |todo|
  {
    if todo == [] then []
    else
      LoadOps(w, todo[0], catalog, cleared, batch)
        + LoadAllOps(w, todo[1..], catalog, cleared - {w.content[todo[0]]}, batch)
  }

  function RunOps(t: Tables, w: World, catalog: Catalog, batch: nat): seq<Op>
    requires WorldOk(w)
  {
    var todo := Pending(t, w.files, catalog);
    var cleared := Redone(t, todo);
    (if cleared == {} then [] else DeleteOps(cleared)) + LoadAllOps(w, todo, catalog, cleared, batch)
  }

  // ----- what the tables should hold -----

  function AllFrames(records: seq<Record>): seq<Body> {
    if records == [] then [] else [records[0].frame] + AllFrames(records[1..])
  }

  function AllSignals(records: seq<Record>): seq<Body> {
    if records == [] then [] else records[0].signals + AllSignals(records[1..])
  }

  function AllEvents(records: seq<Record>): seq<Body> {
    if records == [] then [] else records[0].events + AllEvents(records[1..])
  }

  /** A chunk's rows under a catalog: everything once, in order, and nothing at all for a defect. */
  function Expected(r: Reading, table: Table): seq<Body> {
    if !IsOk(r) then []
    else
      match table
      case Frames => AllFrames(r.records)
      case Signals => AllSignals(r.records) + r.tailSignals
      case Events => AllEvents(r.records) + r.tailEvents
  }

  /** The rows of one chunk. */
  function Only(rows: seq<Row>, chunk: Content): seq<Row> {
    if rows == [] then []
    else
      var last := rows[|rows| - 1];
      Only(rows[..|rows| - 1], chunk) + if last.chunk == chunk then [last] else []
  }

  ghost predicate Correct(t: Tables, w: World, chunk: Content, catalog: Catalog) {
    forall table: Table :: Only(t.Rows(table), chunk) == RowsOf(chunk, Expected(w.read(chunk, catalog), table))
  }

  /** After a complete run: every file marked under the catalog, its rows present exactly once. */
  ghost predicate Exact(t: Tables, w: World, catalog: Catalog)
    requires WorldOk(w)
  {
    forall i :: 0 <= i < |w.files| ==>
      var f := w.files[i]; var chunk := w.content[f];
      f in t.marks && t.marks[f] == Mark(chunk, IsOk(w.read(chunk, catalog)), catalog) && Correct(t, w, chunk, catalog)
  }
}
