/** A catalog taken up again after it was left: the bulk delete of the run in between leaves old markers
    standing. What that run got done decides whether the old catalog can still put the tables right. */
module LoaderReversion {
  import opened Words
  import opened LoaderSpec
  import opened LoaderRows
  import opened LoaderSafety

  /** What a run under a catalog no marker names sends after its bulk delete, of every chunk. */
  function Loads(w: World, catalog: Catalog, batch: nat): seq<Op>
    requires WorldOk(w)
  {
    LoadAllOps(w, w.files, catalog, Chunks(w), batch)
  }

  /** The rows of a chunk that statements put into a table it was deleted from before. */
  function Put(ops: seq<Op>, table: Table, chunk: Content): seq<Row> {
    Made(ops, table, chunk, [])
  }

  /** What statements make of the rows of one chunk in one table. */
  function Made(ops: seq<Op>, table: Table, chunk: Content, rows: seq<Row>): seq<Row>
    decreases |ops|
  {
    if ops == [] then rows else Made(ops[1..], table, chunk, MadeByOne(ops[0], table, chunk, rows))
  }

  function MadeByOne(op: Op, table: Table, chunk: Content, rows: seq<Row>): seq<Row> {
    match op
    case Delete(from, chunks) => if from == table && chunk in chunks then [] else rows
    case Insert(into, more) => if into == table then rows + Only(more, chunk) else rows
    case WriteMark(_, _) => rows
  }

  lemma AppliedMadeByOne(t: Tables, op: Op, table: Table, chunk: Content)
    ensures Only(Applied(t, op).Rows(table), chunk) == MadeByOne(op, table, chunk, Only(t.Rows(table), chunk))
  {
    match op
    case Delete(from, chunks) => OnlyWithout(t.Rows(from), chunks, chunk); hide Only, Without;
    case Insert(into, more) => OnlyJoin(t.Rows(into), more, chunk); hide Only;
    case WriteMark(_, _) =>
  }

  lemma {:induction false} AppliedMade(t: Tables, ops: seq<Op>, table: Table, chunk: Content)
    ensures Only(AllApplied(t, ops).Rows(table), chunk) == Made(ops, table, chunk, Only(t.Rows(table), chunk))
    decreases |ops|
  {
    hide Only, Applied, MadeByOne;
    if ops != [] {
      AppliedMadeByOne(t, ops[0], table, chunk);
      AppliedMade(Applied(t, ops[0]), ops[1..], table, chunk);
    }
  }

  /** The position of a table's statement in the bulk delete. */
  function Turn(table: Table): nat {
    match table case Frames => 0 case Signals => 1 case Events => 2
  }

  /** What the first `n` statements of the run under `b` hold beyond its bulk delete. */
  function Cut(w: World, b: Catalog, batch: nat, n: nat): seq<Op>
    requires WorldOk(w)
  {
    var loads := Loads(w, b, batch);
    loads[..if n < 3 then 0 else Min(n - 3, |loads|)]
  }

  /** Some file with this content has been marked again. */
  ghost predicate MarkedAgain(w: World, sent: seq<Op>, chunk: Content)
    requires WorldOk(w)
  {
    exists f :: f in w.files && Marked(sent, f) && w.content[f] == chunk
  }

  /** Every table already cleared holds, put in under the other catalog, just the rows this one expects. */
  ghost predicate StillRight(w: World, a: Catalog, sent: seq<Op>, n: nat, chunk: Content) {
    forall table: Table :: n > Turn(table) ==> Put(sent, table, chunk) == RowsOf(chunk, Expected(w.read(chunk, a), table))
  }

  /** Each chunk has a file that the run under `b` has marked again, or is right for `a` as it stands. */
  ghost predicate CanGoBack(w: World, a: Catalog, b: Catalog, batch: nat, n: nat)
    requires WorldOk(w)
  {
    forall i :: 0 <= i < |w.files| ==>
      MarkedAgain(w, Cut(w, b, batch, n), w.content[w.files[i]]) ||
      StillRight(w, a, Cut(w, b, batch, n), n, w.content[w.files[i]])
  }

  lemma {:induction false} AllPending(t: Tables, files: seq<File>, catalog: Catalog)
    requires forall f :: f in files ==> IsPending(t, f, catalog)
    ensures Pending(t, files, catalog) == files
  {
    if files != [] {
      AllPending(t, files[1..], catalog);
      assert files == [files[0]] + files[1..];
    }
  }

  /** From exact tables a run under another catalog deletes every chunk and loads every file. */
  lemma StartsAfresh(t: Tables, w: World, a: Catalog, b: Catalog, batch: nat)
    requires WorldOk(w) && Exact(t, w, a) && a != b && w.files != []
    ensures RunOps(t, w, b, batch) == DeleteOps(Chunks(w)) + Loads(w, b, batch)
  {
    forall f | f in w.files ensures IsPending(t, f, b) && f in t.marks && t.marks[f].chunk == w.content[f] {
      var i :| 0 <= i < |w.files| && w.files[i] == f;
    }
    AllPending(t, w.files, b);
    assert Redone(t, w.files) == Chunks(w);
    assert w.content[w.files[0]] in Chunks(w);
    hide Exact, DeleteOps, LoadAllOps;
  }

  lemma MadeByDeletes(chunks: set<Content>, n: nat, table: Table, chunk: Content, rows: seq<Row>)
    requires n <= 3 && chunk in chunks
    ensures Made(DeleteOps(chunks)[..n], table, chunk, rows) == if n > Turn(table) then [] else rows
  {
    var a, b, c := Delete(Frames, chunks), Delete(Signals, chunks), Delete(Events, chunks);
    var r1 := MadeByOne(a, table, chunk, rows);
    var r2 := MadeByOne(b, table, chunk, r1);
    if n == 3 {
      assert Made([a, b, c], table, chunk, rows) == Made([b, c], table, chunk, r1);
      assert [a, b, c][1..] == [b, c] && [b, c][1..] == [c] && [c][1..] == [];
      assert Made([b, c], table, chunk, r1) == Made([c], table, chunk, r2);
      assert Made([c], table, chunk, r2) == MadeByOne(c, table, chunk, r2);
      assert DeleteOps(chunks)[..3] == [a, b, c];
    } else if n == 2 {
      assert DeleteOps(chunks)[..2] == [a, b] && [a, b][1..] == [b];
      assert Made([a, b], table, chunk, rows) == Made([b], table, chunk, r1);
      assert [b][1..] == [] && Made([], table, chunk, r2) == r2;
    } else if n == 1 {
      assert DeleteOps(chunks)[..1] == [a];
    }
  }

  /** The first `n` statements: as much of the bulk delete, then the loads. */
  lemma CutShort(t: Tables, w: World, a: Catalog, b: Catalog, batch: nat, n: nat)
    requires WorldOk(w) && Exact(t, w, a) && a != b && n <= |RunOps(t, w, b, batch)| && w.files != []
    ensures RunOps(t, w, b, batch)[..n] == DeleteOps(Chunks(w))[..Min(n, 3)] + Cut(w, b, batch, n)
  {
    StartsAfresh(t, w, a, b, batch);
    hide RunOps, Loads, Exact;
    if n >= 3 { assert DeleteOps(Chunks(w))[..3] == DeleteOps(Chunks(w)); }
  }

  /** The rows of a chunk after `n` statements. */
  lemma RowsAfter(t: Tables, w: World, a: Catalog, b: Catalog, batch: nat, n: nat, table: Table, chunk: Content)
    requires WorldOk(w) && Exact(t, w, a) && a != b && n <= |RunOps(t, w, b, batch)| && chunk in Chunks(w)
    ensures var q := AllApplied(t, RunOps(t, w, b, batch)[..n]);
      Only(q.Rows(table), chunk) ==
        if n > Turn(table) then Put(Cut(w, b, batch, n), table, chunk) else Only(t.Rows(table), chunk)
  {
    var m, sent := Min(n, 3), Cut(w, b, batch, n);
    var gone := DeleteOps(Chunks(w))[..m];
    CutShort(t, w, a, b, batch, n);
    MadeByDeletes(Chunks(w), m, table, chunk, Only(t.Rows(table), chunk));
    assert n <= Turn(table) ==> sent == [];
    hide RunOps, DeleteOps, Exact, Cut, Chunks;
    AppliedMade(t, gone, table, chunk);
    AppliedMade(AllApplied(t, gone), sent, table, chunk);
    AppliedJoin(t, gone, sent);
    hide AllApplied, Only;
  }

  /** A file is pending under the old catalog exactly when it has been marked again. */
  lemma PendingAfter(t: Tables, w: World, a: Catalog, b: Catalog, batch: nat, n: nat, f: File)
    requires WorldOk(w) && Exact(t, w, a) && a != b && n <= |RunOps(t, w, b, batch)| && f in w.files
    ensures var q := AllApplied(t, RunOps(t, w, b, batch)[..n]);
      && (IsPending(q, f, a) <==> Marked(Cut(w, b, batch, n), f))
      && (!IsPending(q, f, a) ==> q.marks[f] == t.marks[f])
  {
    hide AllApplied, RunOps, Exact, Cut, Marked;
    var ops := RunOps(t, w, b, batch);
    MarkedByExact(t, w, a, f);
    MarksOfRun(t, w, b, batch);
    MarkedInCut(t, w, a, b, batch, n, f);
    assert MarksOf(ops[..n], w.files, b);
    hide MarksOf;
    AppliedMarks(t, ops[..n], w.files, b, f);
  }

  lemma MarkedByExact(t: Tables, w: World, a: Catalog, f: File)
    requires WorldOk(w) && Exact(t, w, a) && f in w.files
    ensures f in t.marks && t.marks[f].catalog == a
  {
    var i :| 0 <= i < |w.files| && w.files[i] == f;
    hide Correct;
  }

  lemma MarkedInCut(t: Tables, w: World, a: Catalog, b: Catalog, batch: nat, n: nat, f: File)
    requires WorldOk(w) && Exact(t, w, a) && a != b && n <= |RunOps(t, w, b, batch)| && w.files != []
    ensures Marked(RunOps(t, w, b, batch)[..n], f) <==> Marked(Cut(w, b, batch, n), f)
  {
    hide Exact, RunOps, Cut, Marked, Chunks;
    CutShort(t, w, a, b, batch, n);
    var gone := DeleteOps(Chunks(w))[..Min(n, 3)];
    assert forall k :: 0 <= k < |gone| ==> gone[k].Delete?;
    hide DeleteOps;
    OnlyDeletesAhead(gone, Cut(w, b, batch, n), f);
  }

  lemma OnlyDeletesAhead(gone: seq<Op>, sent: seq<Op>, f: File)
    requires forall i :: 0 <= i < |gone| ==> gone[i].Delete?
    ensures Marked(gone + sent, f) <==> Marked(sent, f)
  {
    var ops := gone + sent;
    if Marked(ops, f) {
      var i :| 0 <= i < |ops| && ops[i].WriteMark? && ops[i].file == f;
      assert i >= |gone| && sent[i - |gone|] == ops[i];
    }
    if Marked(sent, f) {
      var i :| 0 <= i < |sent| && sent[i].WriteMark? && sent[i].file == f;
      assert ops[i + |gone|] == sent[i];
    }
  }

  lemma HonestAfter(t: Tables, w: World, a: Catalog, b: Catalog, batch: nat, n: nat)
    requires WorldOk(w) && Exact(t, w, a) && a != b && n <= |RunOps(t, w, b, batch)|
    ensures Honest(AllApplied(t, RunOps(t, w, b, batch)[..n]), w)
  {
    assert forall i :: 0 <= i < |w.files| ==> IsPending(t, w.files[i], b);
    assert Recoverable(t, w, b) && Honest(t, w);
    hide Exact, Recoverable, Honest, RunOps, AllApplied;
    RunCut(t, w, b, batch, n);
  }

  /** From tables exact under `a`, a run under `b` that got `n` statements out and a complete run under `a`
      again end exact exactly when the run under `b` left nothing of `a` half undone. */
  lemma GoingBackIff(t: Tables, w: World, a: Catalog, b: Catalog, batch: nat, n: nat)
    requires WorldOk(w) && Exact(t, w, a) && a != b && n <= |RunOps(t, w, b, batch)|
    ensures var q := AllApplied(t, RunOps(t, w, b, batch)[..n]);
      Exact(AllApplied(q, RunOps(q, w, a, batch)), w, a) <==> CanGoBack(w, a, b, batch, n)
  {
    var q := AllApplied(t, RunOps(t, w, b, batch)[..n]);
    HonestAfter(t, w, a, b, batch, n);
    RunEndsExactIff(q, w, a, batch);
    forall i | 0 <= i < |w.files|
      ensures !IsPending(q, w.files[i], a) ==>
        (DoneRight(q, w, a, Pending(q, w.files, a), w.files[i]) <==>
          MarkedAgain(w, Cut(w, b, batch, n), w.content[w.files[i]]) ||
          StillRight(w, a, Cut(w, b, batch, n), n, w.content[w.files[i]]))
      ensures IsPending(q, w.files[i], a) ==> MarkedAgain(w, Cut(w, b, batch, n), w.content[w.files[i]])
    {
      OneFile(t, w, a, b, batch, n, i);
    }
    hide Exact, RunOps, AllApplied, DoneRight, MarkedAgain, StillRight;
  }

  lemma OneFile(t: Tables, w: World, a: Catalog, b: Catalog, batch: nat, n: nat, i: nat)
    requires WorldOk(w) && Exact(t, w, a) && a != b && n <= |RunOps(t, w, b, batch)| && i < |w.files|
    ensures var q, sent, f := AllApplied(t, RunOps(t, w, b, batch)[..n]), Cut(w, b, batch, n), w.files[i];
      && (!IsPending(q, f, a) ==>
           (DoneRight(q, w, a, Pending(q, w.files, a), f) <==>
             MarkedAgain(w, sent, w.content[f]) || StillRight(w, a, sent, n, w.content[f])))
      && (IsPending(q, f, a) ==> MarkedAgain(w, sent, w.content[f]))
  {
    var q, sent, f := AllApplied(t, RunOps(t, w, b, batch)[..n]), Cut(w, b, batch, n), w.files[i];
    var k := w.content[f];
    assert t.marks[f].ok == IsOk(w.read(k, a));
    CorrectAfter(t, w, a, b, batch, n, i);
    forall g | g in w.files ensures IsPending(q, g, a) <==> Marked(sent, g) { PendingAfter(t, w, a, b, batch, n, g); }
    assert !IsPending(q, f, a) ==> q.marks[f] == t.marks[f] by { PendingAfter(t, w, a, b, batch, n, f); }
    hide Exact, RunOps, AllApplied, Correct, StillRight, Cut;
    CoverIsMarked(q, w, a, sent, k);
    hide Covered, Marked;
  }

  lemma CorrectAfter(t: Tables, w: World, a: Catalog, b: Catalog, batch: nat, n: nat, i: nat)
    requires WorldOk(w) && Exact(t, w, a) && a != b && n <= |RunOps(t, w, b, batch)| && i < |w.files|
    ensures var q, k := AllApplied(t, RunOps(t, w, b, batch)[..n]), w.content[w.files[i]];
      Correct(q, w, k, a) <==> StillRight(w, a, Cut(w, b, batch, n), n, k)
  {
    var q, sent, k := AllApplied(t, RunOps(t, w, b, batch)[..n]), Cut(w, b, batch, n), w.content[w.files[i]];
    assert Correct(t, w, k, a);
    forall table: Table
      ensures Only(q.Rows(table), k) == if n > Turn(table) then Put(sent, table, k) else Only(t.Rows(table), k)
    {
      RowsAfter(t, w, a, b, batch, n, table, k);
    }
    hide Exact, RunOps, AllApplied, Put, Only, Expected, RowsOf, Cut;
  }

  lemma CoverIsMarked(q: Tables, w: World, a: Catalog, sent: seq<Op>, k: Content)
    requires WorldOk(w) && forall g :: g in w.files ==> (IsPending(q, g, a) <==> Marked(sent, g))
    ensures Covered(Pending(q, w.files, a), w, k) <==> MarkedAgain(w, sent, k)
  {
    var todo := Pending(q, w.files, a);
    if MarkedAgain(w, sent, k) {
      var f :| f in w.files && Marked(sent, f) && w.content[f] == k;
      assert f in todo;
      var i :| 0 <= i < |todo| && todo[i] == f;
    }
    if Covered(todo, w, k) {
      var i :| 0 <= i < |todo| && todo[i] in w.content && w.content[todo[i]] == k;
      assert todo[i] in todo && Marked(sent, todo[i]);
    }
  }

  /** A run under `b` cut within or right after its bulk delete loses rows for good unless the tables it got
      to expect none: going back finds every marker current and loads nothing. */
  lemma RevertedCatalogLosesRows(t: Tables, w: World, a: Catalog, b: Catalog, batch: nat, n: nat)
    requires WorldOk(w) && Exact(t, w, a) && a != b && w.files != [] && n <= 3
    ensures |RunOps(t, w, b, batch)| >= 3
    ensures var q := AllApplied(t, RunOps(t, w, b, batch)[..n]);
      && RunOps(q, w, a, batch) == []
      && (Exact(q, w, a) <==> forall f, table: Table :: f in w.files && n > Turn(table) ==> Expected(w.read(w.content[f], a), table) == [])
  {
    StartsAfresh(t, w, a, b, batch);
    var q := AllApplied(t, RunOps(t, w, b, batch)[..n]);
    assert Cut(w, b, batch, n) == [];
    forall f | f in w.files ensures !IsPending(q, f, a) { PendingAfter(t, w, a, b, batch, n, f); }
    GoingBackIff(t, w, a, b, batch, n);
    NothingToDo(q, w, a, batch);
    hide RunOps, Expected, Exact, AllApplied, CanGoBack;
    CanGoBackEarly(w, a, b, batch, n);
  }

  lemma CanGoBackEarly(w: World, a: Catalog, b: Catalog, batch: nat, n: nat)
    requires WorldOk(w) && n <= 3
    ensures CanGoBack(w, a, b, batch, n) <==>
      forall f, table: Table :: f in w.files && n > Turn(table) ==> Expected(w.read(w.content[f], a), table) == []
  {
    assert Cut(w, b, batch, n) == [];
    assert forall k :: !MarkedAgain(w, [], k);
    forall k ensures StillRight(w, a, [], n, k) <==> forall table: Table :: n > Turn(table) ==> Expected(w.read(k, a), table) == [] {
      EarlyRight(w, a, n, k);
    }
    hide StillRight, Expected, Cut, MarkedAgain;
  }

  lemma EarlyRight(w: World, a: Catalog, n: nat, k: Content)
    ensures StillRight(w, a, [], n, k) <==> forall table: Table :: n > Turn(table) ==> Expected(w.read(k, a), table) == []
  {
    hide Expected;
    forall table: Table ensures Put([], table, k) == RowsOf(k, Expected(w.read(k, a), table)) <==> Expected(w.read(k, a), table) == [] {
      assert Put([], table, k) == [];
      assert |RowsOf(k, Expected(w.read(k, a), table))| == |Expected(w.read(k, a), table)|;
    }
  }

  lemma NothingToDo(t: Tables, w: World, catalog: Catalog, batch: nat)
    requires WorldOk(w) && forall f :: f in w.files ==> !IsPending(t, f, catalog)
    ensures RunOps(t, w, catalog, batch) == [] && AllApplied(t, []) == t
  {
    var todo := Pending(t, w.files, catalog);
    assert forall i :: 0 <= i < |todo| ==> todo[i] in todo;
    assert Redone(t, todo) == {};
  }
}
