/** Exactly-once loading: whatever runs were cut at whatever statement, one complete run under a catalog
    puts every chunk's rows in place once, provided no catalog is taken up again after it was left. */
module LoaderSafety {
  import opened Words
  import opened LoaderSpec
  import opened LoaderRows

  /** Markers name the chunk that is in the archive under that name. */
  ghost predicate Honest(t: Tables, w: World)
    requires WorldOk(w)
  {
    forall i :: 0 <= i < |w.files| && w.files[i] in t.marks ==> t.marks[w.files[i]].chunk == w.content[w.files[i]]
  }

  /** Some file still to be loaded holds this chunk. */
  ghost predicate Covered(todo: seq<File>, w: World, chunk: Content) {
    exists i :: 0 <= i < |todo| && todo[i] in w.content && w.content[todo[i]] == chunk
  }

  /** A file that counts as done under the catalog is rightly done, or another file with the same bytes
      is still to be loaded and will put its rows right. */
  ghost predicate DoneRight(t: Tables, w: World, catalog: Catalog, todo: seq<File>, f: File)
    requires f in w.content && f in t.marks
  {
    var chunk := w.content[f];
    t.marks[f].ok == IsOk(w.read(chunk, catalog)) && (Correct(t, w, chunk, catalog) || Covered(todo, w, chunk))
  }

  /** The tables from which a complete run under the catalog ends exact. */
  ghost predicate Recoverable(t: Tables, w: World, catalog: Catalog)
    requires WorldOk(w)
  {
    forall i :: 0 <= i < |w.files| && !IsPending(t, w.files[i], catalog) ==>
      DoneRight(t, w, catalog, Pending(t, w.files, catalog), w.files[i])
  }

  ghost predicate AllDistinct(files: seq<File>) {
    forall i, j :: 0 <= i < j < |files| ==> files[i] != files[j]
  }

  /** In the middle of a run: `todo` are the files still pending, `cleared` chunks have no rows. */
  ghost predicate MidRun(t: Tables, w: World, catalog: Catalog, todo: seq<File>, cleared: set<Content>)
    requires WorldOk(w)
  {
    && AllDistinct(todo) && (forall f :: f in todo ==> f in w.content) && Honest(t, w)
    && (forall i :: 0 <= i < |w.files| ==> (IsPending(t, w.files[i], catalog) <==> w.files[i] in todo))
    && (forall k, table: Table :: k in cleared ==> Only(t.Rows(table), k) == [])
    && (forall i :: 0 <= i < |w.files| && w.files[i] !in todo ==> DoneRight(t, w, catalog, todo, w.files[i]))
  }

  lemma {:induction false} PendingSound(t: Tables, files: seq<File>, catalog: Catalog)
    requires AllDistinct(files)
    ensures AllDistinct(Pending(t, files, catalog))
  {
    if files != [] {
      assert files == [files[0]] + files[1..];
      PendingSound(t, files[1..], catalog);
      assert files[0] !in files[1..];
    }
  }

  lemma SameCover(a: seq<File>, b: seq<File>, w: World, chunk: Content)
    requires forall f :: f in a && f in w.content && w.content[f] == chunk ==> f in b
    requires Covered(a, w, chunk)
    ensures Covered(b, w, chunk)
  {
    var i :| 0 <= i < |a| && a[i] in w.content && w.content[a[i]] == chunk;
    assert a[i] in b;
  }

  lemma MidRunRecoverable(t: Tables, w: World, catalog: Catalog, todo: seq<File>, cleared: set<Content>)
    requires WorldOk(w) && MidRun(t, w, catalog, todo, cleared) && (forall f :: f in todo ==> f in w.files)
    ensures Recoverable(t, w, catalog) && Honest(t, w)
  {
    hide Correct, Covered, Only;
    forall i | 0 <= i < |w.files| && !IsPending(t, w.files[i], catalog)
      ensures DoneRight(t, w, catalog, Pending(t, w.files, catalog), w.files[i]) {
      assert DoneRight(t, w, catalog, todo, w.files[i]);
      if Covered(todo, w, w.content[w.files[i]]) {
        SameCover(todo, Pending(t, w.files, catalog), w, w.content[w.files[i]]);
      }
    }
  }

  // ----- loading one file -----

  /** Statements about a chunk that is still to be loaded keep the middle of a run. */
  lemma WithinKeeps(t: Tables, ops: seq<Op>, chunks: set<Content>, w: World, catalog: Catalog, todo: seq<File>, cleared: set<Content>)
    requires WorldOk(w) && MidRun(t, w, catalog, todo, cleared) && AllWithin(ops, chunks)
    requires forall k :: k in chunks ==> Covered(todo, w, k)
    ensures MidRun(AllApplied(t, ops), w, catalog, todo, {})
  {
    var q := AllApplied(t, ops);
    OthersSpared(t, ops, chunks, 0, Frames);
    hide AllApplied, AllWithin, Covered, Only;
    forall i | 0 <= i < |w.files| && w.files[i] !in todo ensures DoneRight(q, w, catalog, todo, w.files[i]) {
      var chunk := w.content[w.files[i]];
      assert DoneRight(t, w, catalog, todo, w.files[i]);
      if chunk !in chunks && Correct(t, w, chunk, catalog) {
        CorrectSpared(t, ops, chunks, w, chunk, catalog);
      }
    }
  }

  lemma CorrectSpared(t: Tables, ops: seq<Op>, chunks: set<Content>, w: World, chunk: Content, catalog: Catalog)
    requires AllWithin(ops, chunks) && chunk !in chunks
    ensures Correct(AllApplied(t, ops), w, chunk, catalog) <==> Correct(t, w, chunk, catalog)
  {
    forall table: Table ensures Only(AllApplied(t, ops).Rows(table), chunk) == Only(t.Rows(table), chunk) {
      OthersSpared(t, ops, chunks, chunk, table);
    }
    hide Only, AllApplied;
  }

  /** The delete, if the run has not made it already, and the inserts. */
  function RowOps(w: World, file: File, catalog: Catalog, cleared: set<Content>, batch: nat): seq<Op>
    requires file in w.content
  {
    var chunk := w.content[file];
    (if chunk in cleared then [] else DeleteOps({chunk})) + BodyOps(chunk, w.read(chunk, catalog), batch)
  }

  lemma RowOpsWithin(w: World, file: File, catalog: Catalog, cleared: set<Content>, batch: nat)
    requires file in w.content
    ensures AllWithin(RowOps(w, file, catalog, cleared, batch), {w.content[file]})
  {
    var chunk := w.content[file];
    BodyWithin(chunk, w.read(chunk, catalog), batch);
    assert AllWithin(DeleteOps({chunk}), {chunk}) by { DeletedRows(Tables([], [], [], map[]), {chunk}, chunk, Frames); }
    hide BodyOps, DeleteOps, Within;
    WithinJoin(if chunk in cleared then [] else DeleteOps({chunk}), BodyOps(chunk, w.read(chunk, catalog), batch), {chunk});
  }

  lemma RowOpsFill(t: Tables, w: World, file: File, catalog: Catalog, cleared: set<Content>, batch: nat)
    requires file in w.content
    requires w.content[file] in cleared ==> forall table: Table :: Only(t.Rows(table), w.content[file]) == []
    ensures Correct(AllApplied(t, RowOps(w, file, catalog, cleared, batch)), w, w.content[file], catalog)
  {
    var chunk := w.content[file];
    var r := w.read(chunk, catalog);
    var gone := if chunk in cleared then [] else DeleteOps({chunk});
    var body := BodyOps(chunk, r, batch);
    AppliedJoin(t, gone, body);
    var t1 := AllApplied(t, gone);
    forall table: Table ensures Only(AllApplied(t1, body).Rows(table), chunk) == RowsOf(chunk, Expected(r, table)) {
      DeletedRows(t, {chunk}, chunk, table);
      BodyFills(t1, chunk, r, batch, table);
    }
    hide Only, AllApplied, BodyOps, DeleteOps, Expected, RowsOf, AllWithin;
  }

  /** One file loaded to its marker. */
  lemma LoadStep(t: Tables, w: World, catalog: Catalog, todo: seq<File>, cleared: set<Content>, batch: nat)
    requires WorldOk(w) && MidRun(t, w, catalog, todo, cleared) && todo != []
    ensures MidRun(AllApplied(t, LoadOps(w, todo[0], catalog, cleared, batch)), w, catalog, todo[1..],
                   cleared - {w.content[todo[0]]})
  {
    var f, chunk := todo[0], w.content[todo[0]];
    var rows := RowOps(w, f, catalog, cleared, batch);
    var mark := WriteMark(f, Mark(chunk, IsOk(w.read(chunk, catalog)), catalog));
    var t1 := AllApplied(t, rows);
    RowOpsFill(t, w, f, catalog, cleared, batch);
    RowOpsWithin(w, f, catalog, cleared, batch);
    AppliedJoin(t, rows, [mark]);
    assert LoadOps(w, f, catalog, cleared, batch) == rows + [mark];
    AppliedOne(t1, mark);
    hide AllApplied, RowOps, LoadOps;
    assert Covered(todo, w, chunk);
    WithinKeeps(t, rows, {chunk}, w, catalog, todo, cleared);
    forall k, table: Table | k in cleared - {chunk} ensures Only(t1.Rows(table), k) == [] {
      OthersSpared(t, rows, {chunk}, k, table);
    }
    MarkStep(t1, w, catalog, todo, cleared - {chunk});
  }

  lemma MarkStep(t: Tables, w: World, catalog: Catalog, todo: seq<File>, cleared: set<Content>)
    requires WorldOk(w) && todo != [] && MidRun(t, w, catalog, todo, {})
    requires forall k, table: Table :: k in cleared ==> Only(t.Rows(table), k) == []
    requires Correct(t, w, w.content[todo[0]], catalog)
    ensures var chunk := w.content[todo[0]];
      MidRun(Applied(t, WriteMark(todo[0], Mark(chunk, IsOk(w.read(chunk, catalog)), catalog))), w, catalog, todo[1..], cleared)
  {
    var f, chunk, rest := todo[0], w.content[todo[0]], todo[1..];
    var q := Applied(t, WriteMark(f, Mark(chunk, IsOk(w.read(chunk, catalog)), catalog)));
    assert todo == [f] + rest;
    assert f !in rest;
    assert forall k: Content :: Correct(q, w, k, catalog) <==> Correct(t, w, k, catalog);
    hide Only, Correct;
    forall i | 0 <= i < |w.files| && w.files[i] !in rest ensures DoneRight(q, w, catalog, rest, w.files[i]) {
      var g, k := w.files[i], w.content[w.files[i]];
      if g != f {
        assert DoneRight(t, w, catalog, todo, g);
        if Covered(todo, w, k) && k != chunk {
          SameCover(todo, rest, w, k);
        }
      }
    }
    hide Covered;
  }

  // ----- a whole run, cut anywhere -----

  lemma CutJoin(t: Tables, a: seq<Op>, b: seq<Op>, n: nat)
    requires n <= |a + b|
    ensures n <= |a| ==> AllApplied(t, (a + b)[..n]) == AllApplied(t, a[..n])
    ensures n >= |a| ==> AllApplied(t, (a + b)[..n]) == AllApplied(AllApplied(t, a), b[..n - |a|])
  {
    if n <= |a| {
      assert (a + b)[..n] == a[..n];
    }
    if n >= |a| {
      assert (a + b)[..n] == a + b[..n - |a|];
      AppliedJoin(t, a, b[..n - |a|]);
    }
  }

  /** A file's statements cut before the marker leave the file pending and everything else alone. */
  lemma LoadCut(t: Tables, w: World, catalog: Catalog, todo: seq<File>, cleared: set<Content>, batch: nat, n: nat)
    requires WorldOk(w) && MidRun(t, w, catalog, todo, cleared) && todo != [] && (forall f :: f in todo ==> f in w.files)
    requires n < |LoadOps(w, todo[0], catalog, cleared, batch)|
    ensures var q := AllApplied(t, LoadOps(w, todo[0], catalog, cleared, batch)[..n]);
      Recoverable(q, w, catalog) && Honest(q, w)
  {
    var chunk := w.content[todo[0]];
    var rows := RowOps(w, todo[0], catalog, cleared, batch);
    RowOpsWithin(w, todo[0], catalog, cleared, batch);
    assert LoadOps(w, todo[0], catalog, cleared, batch)[..n] == rows[..n];
    hide RowOps, LoadOps, Within, AllApplied;
    assert AllWithin(rows[..n], {chunk});
    assert Covered(todo, w, chunk);
    WithinKeeps(t, rows[..n], {chunk}, w, catalog, todo, cleared);
    MidRunRecoverable(AllApplied(t, rows[..n]), w, catalog, todo, {});
  }

  lemma {:induction false} LoadAllCut(t: Tables, w: World, catalog: Catalog, todo: seq<File>, cleared: set<Content>, batch: nat, n: nat)
    requires WorldOk(w) && MidRun(t, w, catalog, todo, cleared) && (forall f :: f in todo ==> f in w.files)
    requires n <= |LoadAllOps(w, todo, catalog, cleared, batch)|
    ensures var q := AllApplied(t, LoadAllOps(w, todo, catalog, cleared, batch)[..n]);
      Recoverable(q, w, catalog) && Honest(q, w)
    decreases |todo|
  {
    hide Recoverable, Honest, LoadOps;
    if n == 0 {
      assert LoadAllOps(w, todo, catalog, cleared, batch)[..0] == [];
      MidRunRecoverable(t, w, catalog, todo, cleared);
    } else {
      var one := LoadOps(w, todo[0], catalog, cleared, batch);
      assert forall f :: f in todo[1..] ==> f in todo;
      hide AllApplied, MidRun;
      var rest := LoadAllOps(w, todo[1..], catalog, cleared - {w.content[todo[0]]}, batch);
      assert LoadAllOps(w, todo, catalog, cleared, batch) == one + rest;
      hide LoadAllOps;
      CutJoin(t, one, rest, n);
      if n < |one| {
        LoadCut(t, w, catalog, todo, cleared, batch, n);
      } else {
        LoadStep(t, w, catalog, todo, cleared, batch);
        LoadAllCut(AllApplied(t, one), w, catalog, todo[1..], cleared - {w.content[todo[0]]}, batch, n - |one|);
      }
    }
  }

  lemma {:induction false} LoadAllEnds(t: Tables, w: World, catalog: Catalog, todo: seq<File>, cleared: set<Content>, batch: nat)
    requires WorldOk(w) && MidRun(t, w, catalog, todo, cleared)
    ensures forall f :: f in todo ==> f in w.content
    ensures MidRun(AllApplied(t, LoadAllOps(w, todo, catalog, cleared, batch)), w, catalog, [], {})
    decreases |todo|
  {
    if todo != [] {
      var one := LoadOps(w, todo[0], catalog, cleared, batch);
      LoadStep(t, w, catalog, todo, cleared, batch);
      TodoKnown(t, w, catalog, todo, cleared);
      hide AllApplied, MidRun, LoadOps;
      assert forall f :: f in todo[1..] ==> f in todo;
      var rest := LoadAllOps(w, todo[1..], catalog, cleared - {w.content[todo[0]]}, batch);
      assert LoadAllOps(w, todo, catalog, cleared, batch) == one + rest;
      hide LoadAllOps;
      LoadAllEnds(AllApplied(t, one), w, catalog, todo[1..], cleared - {w.content[todo[0]]}, batch);
      AppliedJoin(t, one, rest);
    } else {
      assert LoadAllOps(w, todo, catalog, cleared, batch) == [] && AllApplied(t, []) == t;
    }
  }

  lemma TodoKnown(t: Tables, w: World, catalog: Catalog, todo: seq<File>, cleared: set<Content>)
    requires WorldOk(w) && MidRun(t, w, catalog, todo, cleared)
    ensures forall f :: f in todo ==> f in w.content
  {
  }

  /** The start of a run: what is marked done under the catalog is right or covered. */
  lemma RunStarts(t: Tables, w: World, catalog: Catalog)
    requires WorldOk(w) && Recoverable(t, w, catalog) && Honest(t, w)
    ensures var todo := Pending(t, w.files, catalog);
      && MidRun(t, w, catalog, todo, {}) && (forall f :: f in todo ==> f in w.files)
      && forall k :: k in Redone(t, todo) ==> Covered(todo, w, k)
  {
    var todo := Pending(t, w.files, catalog);
    PendingSound(t, w.files, catalog);
    hide Only, Correct;
    forall k | k in Redone(t, todo) ensures Covered(todo, w, k) {
      var f :| f in todo && f in t.marks && t.marks[f].chunk == k;
      var i :| 0 <= i < |w.files| && w.files[i] == f;
      assert w.content[f] == k;
    }
  }

  /** The one bulk delete at the start of a run. */
  lemma BulkDelete(t: Tables, w: World, catalog: Catalog, n: nat)
    requires WorldOk(w) && Recoverable(t, w, catalog) && Honest(t, w)
    ensures var todo := Pending(t, w.files, catalog); var gone := Redone(t, todo);
      && (n <= 3 ==> MidRun(AllApplied(t, DeleteOps(gone)[..n]), w, catalog, todo, {}))
      && MidRun(AllApplied(t, DeleteOps(gone)), w, catalog, todo, gone)
  {
    var todo := Pending(t, w.files, catalog);
    var gone := Redone(t, todo);
    RunStarts(t, w, catalog);
    hide Redone, Recoverable, Honest;
    DeletedRows(t, gone, 0, Frames);
    WithinKeeps(t, DeleteOps(gone), gone, w, catalog, todo, {});
    if n <= 3 {
      assert AllWithin(DeleteOps(gone)[..n], gone);
      WithinKeeps(t, DeleteOps(gone)[..n], gone, w, catalog, todo, {});
    }
    forall k, table: Table | k in gone ensures Only(AllApplied(t, DeleteOps(gone)).Rows(table), k) == [] {
      DeletedRows(t, gone, k, table);
    }
    hide DeleteOps, Only, AllApplied, Covered, DoneRight;
  }

  lemma BulkCut(t: Tables, w: World, catalog: Catalog, batch: nat, n: nat)
    requires WorldOk(w) && Recoverable(t, w, catalog) && Honest(t, w)
    requires var todo := Pending(t, w.files, catalog); n <= 3 + |LoadAllOps(w, todo, catalog, Redone(t, todo), batch)|
    ensures var todo := Pending(t, w.files, catalog); var gone := Redone(t, todo);
      var q := AllApplied(t, (DeleteOps(gone) + LoadAllOps(w, todo, catalog, gone, batch))[..n]);
      Recoverable(q, w, catalog) && Honest(q, w)
  {
    var todo := Pending(t, w.files, catalog);
    var gone := Redone(t, todo);
    RunStarts(t, w, catalog);
    BulkDelete(t, w, catalog, n);
    hide Recoverable, Honest, MidRun, Redone, LoadAllOps, AllApplied, Pending;
    CutJoin(t, DeleteOps(gone), LoadAllOps(w, todo, catalog, gone, batch), n);
    if n <= 3 {
      MidRunRecoverable(AllApplied(t, DeleteOps(gone)[..n]), w, catalog, todo, {});
    } else {
      LoadAllCut(AllApplied(t, DeleteOps(gone)), w, catalog, todo, gone, batch, n - 3);
    }
  }

  /** A run cut at any statement leaves tables from which a later run can still end exact. */
  lemma RunCut(t: Tables, w: World, catalog: Catalog, batch: nat, n: nat)
    requires WorldOk(w) && Recoverable(t, w, catalog) && Honest(t, w) && n <= |RunOps(t, w, catalog, batch)|
    ensures var q := AllApplied(t, RunOps(t, w, catalog, batch)[..n]); Recoverable(q, w, catalog) && Honest(q, w)
  {
    var todo := Pending(t, w.files, catalog);
    RunStarts(t, w, catalog);
    hide Recoverable, Honest, MidRun, LoadAllOps, AllApplied, Pending;
    if Redone(t, todo) == {} {
      assert RunOps(t, w, catalog, batch) == LoadAllOps(w, todo, catalog, {}, batch);
      hide RunOps, Redone;
      LoadAllCut(t, w, catalog, todo, {}, batch, n);
    } else {
      assert RunOps(t, w, catalog, batch) == DeleteOps(Redone(t, todo)) + LoadAllOps(w, todo, catalog, Redone(t, todo), batch);
      hide RunOps, Redone;
      BulkCut(t, w, catalog, batch, n);
    }
  }

  /** A complete run from such tables ends exact. */
  lemma RunEndsExact(t: Tables, w: World, catalog: Catalog, batch: nat)
    requires WorldOk(w) && Recoverable(t, w, catalog) && Honest(t, w)
    ensures Exact(AllApplied(t, RunOps(t, w, catalog, batch)), w, catalog)
  {
    var todo := Pending(t, w.files, catalog);
    var gone := Redone(t, todo);
    var loads := LoadAllOps(w, todo, catalog, gone, batch);
    RunStarts(t, w, catalog);
    BulkDelete(t, w, catalog, 0);
    hide Recoverable, Honest, Redone, LoadAllOps, MidRun;
    var t1 := if gone == {} then t else AllApplied(t, DeleteOps(gone));
    LoadAllEnds(t1, w, catalog, todo, gone, batch);
    AppliedJoin(t, DeleteOps(gone), loads);
    assert [] + loads == loads;
    hide AllApplied, DeleteOps;
    var q := AllApplied(t1, loads);
    assert q == AllApplied(t, RunOps(t, w, catalog, batch));
    MidRunDone(q, w, catalog, {});
  }

  lemma MidRunDone(t: Tables, w: World, catalog: Catalog, cleared: set<Content>)
    requires WorldOk(w) && MidRun(t, w, catalog, [], cleared)
    ensures Exact(t, w, catalog)
  {
    hide Correct, Only;
    forall i | 0 <= i < |w.files|
      ensures var f := w.files[i]; var chunk := w.content[f];
        f in t.marks && t.marks[f] == Mark(chunk, IsOk(w.read(chunk, catalog)), catalog) && Correct(t, w, chunk, catalog) {
      assert w.files[i] !in [];
      assert !IsPending(t, w.files[i], catalog);
      assert DoneRight(t, w, catalog, [], w.files[i]);
    }
  }

  // ----- what a run leaves alone -----

  lemma LoadSpares(t: Tables, w: World, f: File, catalog: Catalog, cleared: set<Content>, batch: nat, k: Content, table: Table)
    requires f in w.content
    ensures var q := AllApplied(t, LoadOps(w, f, catalog, cleared, batch));
      && (k != w.content[f] ==> Only(q.Rows(table), k) == Only(t.Rows(table), k))
      && q.marks == t.marks[f := Mark(w.content[f], IsOk(w.read(w.content[f], catalog)), catalog)]
  {
    var rows := RowOps(w, f, catalog, cleared, batch);
    var mark := WriteMark(f, Mark(w.content[f], IsOk(w.read(w.content[f], catalog)), catalog));
    RowOpsWithin(w, f, catalog, cleared, batch);
    OthersSpared(t, rows, {w.content[f]}, k, table);
    assert LoadOps(w, f, catalog, cleared, batch) == rows + [mark];
    AppliedJoin(t, rows, [mark]);
    AppliedOne(AllApplied(t, rows), mark);
    hide AllApplied, RowOps, LoadOps, Only;
  }

  lemma {:induction false} LoadAllSpares(t: Tables, w: World, catalog: Catalog, todo: seq<File>, cleared: set<Content>,
                                         batch: nat, k: Content, g: File, table: Table)
    requires WorldOk(w) && (forall f :: f in todo ==> f in w.content) && g !in todo
    ensures var q := AllApplied(t, LoadAllOps(w, todo, catalog, cleared, batch));
      && (!Covered(todo, w, k) ==> Only(q.Rows(table), k) == Only(t.Rows(table), k))
      && (g in t.marks ==> g in q.marks && q.marks[g] == t.marks[g])
    decreases |todo|
  {
    if todo != [] {
      var f, chunk, rest := todo[0], w.content[todo[0]], todo[1..];
      var one := LoadOps(w, f, catalog, cleared, batch);
      assert todo == [f] + rest;
      assert !Covered(todo, w, k) ==> chunk != k && !Covered(rest, w, k) by {
        if Covered(rest, w, k) { SameCover(rest, todo, w, k); }
      }
      LoadSpares(t, w, f, catalog, cleared, batch, k, table);
      hide AllApplied, LoadOps, Only, Covered;
      LoadAllSpares(AllApplied(t, one), w, catalog, rest, cleared - {chunk}, batch, k, g, table);
      AppliedJoin(t, one, LoadAllOps(w, rest, catalog, cleared - {chunk}, batch));
    }
  }

  /** A file that counts as done keeps its marker, and its rows too, right or wrong, unless a pending
      file shares its chunk. */
  lemma RunSpares(t: Tables, w: World, catalog: Catalog, batch: nat, g: File, table: Table)
    requires WorldOk(w) && Honest(t, w) && g in w.files && !IsPending(t, g, catalog)
    ensures var q := AllApplied(t, RunOps(t, w, catalog, batch)); var k := w.content[g];
      && g in q.marks && q.marks[g] == t.marks[g]
      && (!Covered(Pending(t, w.files, catalog), w, k) ==> Only(q.Rows(table), k) == Only(t.Rows(table), k))
  {
    var todo, k := Pending(t, w.files, catalog), w.content[g];
    var gone := Redone(t, todo);
    var loads := LoadAllOps(w, todo, catalog, gone, batch);
    var first := if gone == {} then [] else DeleteOps(gone);
    assert RunOps(t, w, catalog, batch) == first + loads by { assert [] + loads == loads; }
    assert !Covered(todo, w, k) ==> k !in gone by {
      if !Covered(todo, w, k) { NotRedone(t, w, todo, k); }
    }
    DeletedRows(t, gone, k, table);
    OthersSpared(t, DeleteOps(gone), gone, k, table);
    var t1 := AllApplied(t, first);
    assert t1.marks == t.marks && (!Covered(todo, w, k) ==> Only(t1.Rows(table), k) == Only(t.Rows(table), k));
    hide AllApplied, Only, LoadAllOps, Covered, DeleteOps, Redone, RunOps;
    LoadAllSpares(t1, w, catalog, todo, gone, batch, k, g, table);
    AppliedJoin(t, first, loads);
  }

  lemma NotRedone(t: Tables, w: World, todo: seq<File>, k: Content)
    requires WorldOk(w) && Honest(t, w) && !Covered(todo, w, k) && (forall f :: f in todo ==> f in w.files)
    ensures k !in Redone(t, todo)
  {
  }

  /** A complete run ends exact exactly from recoverable tables. */
  lemma RunEndsExactIff(t: Tables, w: World, catalog: Catalog, batch: nat)
    requires WorldOk(w) && Honest(t, w)
    ensures Exact(AllApplied(t, RunOps(t, w, catalog, batch)), w, catalog) <==> Recoverable(t, w, catalog)
  {
    if Recoverable(t, w, catalog) {
      RunEndsExact(t, w, catalog, batch);
    } else {
      var todo := Pending(t, w.files, catalog);
      var i :| 0 <= i < |w.files| && !IsPending(t, w.files[i], catalog) && !DoneRight(t, w, catalog, todo, w.files[i]);
      WrongStaysWrong(t, w, catalog, batch, i);
    }
  }

  lemma WrongStaysWrong(t: Tables, w: World, catalog: Catalog, batch: nat, i: nat)
    requires WorldOk(w) && Honest(t, w) && i < |w.files| && !IsPending(t, w.files[i], catalog)
    requires !DoneRight(t, w, catalog, Pending(t, w.files, catalog), w.files[i])
    ensures !Exact(AllApplied(t, RunOps(t, w, catalog, batch)), w, catalog)
  {
    var g := w.files[i];
    var k := w.content[g];
    var q := AllApplied(t, RunOps(t, w, catalog, batch));
    forall table: Table
      ensures g in q.marks && q.marks[g] == t.marks[g]
      ensures !Covered(Pending(t, w.files, catalog), w, k) ==> Only(q.Rows(table), k) == Only(t.Rows(table), k) {
      RunSpares(t, w, catalog, batch, g, table);
    }
    hide AllApplied, RunOps, Only;
    assert g in q.marks && q.marks[g] == t.marks[g] by { RunSpares(t, w, catalog, batch, g, Frames); }
    assert !Covered(Pending(t, w.files, catalog), w, k) ==> (Correct(q, w, k, catalog) <==> Correct(t, w, k, catalog));
  }

  // ----- any number of runs over a growing archive -----

  /** Markers are about files of this archive only. */
  ghost predicate MarksWithin(t: Tables, w: World) { forall f :: f in t.marks ==> f in w.files }

  /** The chunks of the archive. */
  function Chunks(w: World): set<Content>
    requires WorldOk(w)
  {
    set f | f in w.files :: w.content[f]
  }

  /** No rows but of chunks that are in the archive. */
  ghost predicate NoStrays(t: Tables, w: World)
    requires WorldOk(w)
  {
    forall k, table: Table :: k !in Chunks(w) ==> Only(t.Rows(table), k) == []
  }

  /** Files have been added, anywhere in the listing; those there before, and the reader, are the same. */
  ghost predicate Grows(w: World, v: World)
    requires WorldOk(w) && WorldOk(v)
  {
    w.read == v.read && forall f :: f in w.files ==> f in v.files && v.content[f] == w.content[f]
  }

  /** Added files are pending, and what was recoverable before stays so. */
  lemma GrownRecoverable(t: Tables, w: World, v: World, catalog: Catalog)
    requires WorldOk(w) && WorldOk(v) && Grows(w, v) && MarksWithin(t, w)
    requires Recoverable(t, w, catalog) && Honest(t, w)
    ensures Recoverable(t, v, catalog) && Honest(t, v) && MarksWithin(t, v)
  {
    var todo, more := Pending(t, w.files, catalog), Pending(t, v.files, catalog);
    hide Correct, Covered;
    forall i | 0 <= i < |v.files| && !IsPending(t, v.files[i], catalog)
      ensures DoneRight(t, v, catalog, more, v.files[i])
    {
      var f := v.files[i];
      var j :| 0 <= j < |w.files| && w.files[j] == f;
      assert DoneRight(t, w, catalog, todo, f);
      if Correct(t, w, w.content[f], catalog) {
        SameCorrect(t, w, v, w.content[f], catalog);
      } else {
        GrownCover(todo, more, w, v, w.content[f]);
      }
    }
    forall i | 0 <= i < |v.files| && v.files[i] in t.marks ensures t.marks[v.files[i]].chunk == v.content[v.files[i]] {
      var j :| 0 <= j < |w.files| && w.files[j] == v.files[i];
    }
  }

  lemma SameCorrect(t: Tables, w: World, v: World, chunk: Content, catalog: Catalog)
    requires w.read == v.read
    ensures Correct(t, w, chunk, catalog) <==> Correct(t, v, chunk, catalog)
  {
  }

  lemma GrownCover(todo: seq<File>, more: seq<File>, w: World, v: World, chunk: Content)
    requires WorldOk(w) && WorldOk(v) && Grows(w, v) && Covered(todo, w, chunk)
    requires forall f :: f in todo ==> f in w.files && f in more
    ensures Covered(more, v, chunk)
  {
    var i :| 0 <= i < |todo| && todo[i] in w.content && w.content[todo[i]] == chunk;
    assert todo[i] in w.files && todo[i] in more;
  }

  /** One run: the archive it finds, its catalog and how many statements it gets to send. */
  datatype Run = Run(world: World, catalog: Catalog, statements: nat)

  function AfterRun(t: Tables, r: Run, batch: nat): Tables
    requires WorldOk(r.world)
  {
    var ops := RunOps(t, r.world, r.catalog, batch);
    AllApplied(t, ops[..Min(r.statements, |ops|)])
  }

  ghost predicate Unused(t: Tables, catalog: Catalog) { forall f :: f in t.marks ==> t.marks[f].catalog != catalog }

  /** Each run finds the archive of the one before or a grown one, and keeps its catalog or takes one that
      no marker names. */
  ghost predicate Lawful(t: Tables, w: World, catalog: Catalog, rs: seq<Run>, batch: nat)
    requires WorldOk(w)
    decreases |rs|
  {
    rs == [] ||
    (WorldOk(rs[0].world) && Grows(w, rs[0].world) && (rs[0].catalog == catalog || Unused(t, rs[0].catalog)) &&
     Lawful(AfterRun(t, rs[0], batch), rs[0].world, rs[0].catalog, rs[1..], batch))
  }

  function AfterRuns(t: Tables, w: World, catalog: Catalog, rs: seq<Run>, batch: nat): Tables
    requires WorldOk(w) && Lawful(t, w, catalog, rs, batch)
    decreases |rs|
  {
    if rs == [] then t else AfterRuns(AfterRun(t, rs[0], batch), rs[0].world, rs[0].catalog, rs[1..], batch)
  }

  lemma UnusedRecoverable(t: Tables, w: World, catalog: Catalog)
    requires WorldOk(w) && Unused(t, catalog)
    ensures Recoverable(t, w, catalog)
  {
  }

  /** The run is not cut short. */
  predicate Completes(t: Tables, r: Run, batch: nat)
    requires WorldOk(r.world)
  {
    r.statements >= |RunOps(t, r.world, r.catalog, batch)|
  }

  lemma RunKeeps(t: Tables, w: World, catalog: Catalog, r: Run, batch: nat)
    requires WorldOk(w) && WorldOk(r.world) && Grows(w, r.world) && (r.catalog == catalog || Unused(t, r.catalog))
    requires Recoverable(t, w, catalog) && Honest(t, w) && MarksWithin(t, w) && NoStrays(t, w)
    ensures var q := AfterRun(t, r, batch);
      Recoverable(q, r.world, r.catalog) && Honest(q, r.world) && MarksWithin(q, r.world) && NoStrays(q, r.world) &&
      (Completes(t, r, batch) ==> Exact(q, r.world, r.catalog))
  {
    hide Recoverable, Honest, Exact, MarksWithin, NoStrays;
    var ops := RunOps(t, r.world, r.catalog, batch);
    GrownRecoverable(t, w, r.world, catalog);
    GrownStrays(t, w, r.world);
    RunStrays(t, r.world, r.catalog, batch, Min(r.statements, |ops|));
    if Unused(t, r.catalog) { UnusedRecoverable(t, r.world, r.catalog); }
    RunCut(t, r.world, r.catalog, batch, Min(r.statements, |ops|));
    RunMarksWithin(t, r.world, r.catalog, batch, Min(r.statements, |ops|));
    if Completes(t, r, batch) {
      RunEndsExact(t, r.world, r.catalog, batch);
      assert ops[..|ops|] == ops;
    }
    hide RunOps, AllApplied;
  }

  /** The last of the runs is not cut short; the ones before it may be. */
  ghost predicate EndsComplete(t: Tables, w: World, catalog: Catalog, rs: seq<Run>, batch: nat)
    requires WorldOk(w) && Lawful(t, w, catalog, rs, batch)
    decreases |rs|
  {
    rs != [] &&
    if |rs| == 1 then Completes(t, rs[0], batch)
    else EndsComplete(AfterRun(t, rs[0], batch), rs[0].world, rs[0].catalog, rs[1..], batch)
  }

  function LastWorld(w: World, rs: seq<Run>): World { if rs == [] then w else rs[|rs| - 1].world }

  function LastCatalog(catalog: Catalog, rs: seq<Run>): Catalog { if rs == [] then catalog else rs[|rs| - 1].catalog }

  lemma {:induction false} RunsKeep(t: Tables, w: World, catalog: Catalog, rs: seq<Run>, batch: nat)
    requires WorldOk(w) && Lawful(t, w, catalog, rs, batch)
    requires Recoverable(t, w, catalog) && Honest(t, w) && MarksWithin(t, w) && NoStrays(t, w)
    ensures var q, v, c := AfterRuns(t, w, catalog, rs, batch), LastWorld(w, rs), LastCatalog(catalog, rs);
      WorldOk(v) && Recoverable(q, v, c) && Honest(q, v) && MarksWithin(q, v) && NoStrays(q, v) &&
      (EndsComplete(t, w, catalog, rs, batch) ==> Exact(q, v, c))
    decreases |rs|
  {
    hide Recoverable, Honest, MarksWithin, NoStrays, Grows, Unused, Exact, AfterRun, Completes;
    if rs != [] {
      RunKeeps(t, w, catalog, rs[0], batch);
      RunsKeep(AfterRun(t, rs[0], batch), rs[0].world, rs[0].catalog, rs[1..], batch);
    }
  }

  const Nothing := Tables([], [], [], map[])

  /** From empty tables, after any number of runs cut at any statement while the archive grows between
      them, one complete run of the catalog last in use, or of a new one, leaves every intact chunk's rows
      present exactly once, none for defects or for anything else, and a current marker for every file,
      whatever the batch size and even where files have equal bytes. */
  lemma ExactlyOnce(w: World, catalog: Catalog, rs: seq<Run>, batch: nat)
    requires WorldOk(w) && Lawful(Nothing, w, catalog, rs, batch) && EndsComplete(Nothing, w, catalog, rs, batch)
    ensures var v, c := LastWorld(w, rs), LastCatalog(catalog, rs);
      WorldOk(v) && var t := AfterRuns(Nothing, w, catalog, rs, batch);
      Exact(t, v, c) && forall k, table: Table :: k !in Chunks(v) ==> Only(t.Rows(table), k) == []
  {
    UnusedRecoverable(Nothing, w, catalog);
    assert Honest(Nothing, w) && MarksWithin(Nothing, w) && NoStrays(Nothing, w);
    hide Recoverable, Honest, Exact, AfterRuns, Lawful, EndsComplete, MarksWithin;
    RunsKeep(Nothing, w, catalog, rs, batch);
  }

  // ----- which markers statements write -----

  ghost predicate Marked(ops: seq<Op>, f: File) { exists i :: 0 <= i < |ops| && ops[i].WriteMark? && ops[i].file == f }

  /** Markers are written for these files only, each under the catalog. */
  ghost predicate MarksOf(ops: seq<Op>, files: seq<File>, catalog: Catalog) {
    forall i :: 0 <= i < |ops| && ops[i].WriteMark? ==> ops[i].file in files && ops[i].mark.catalog == catalog
  }

  lemma MarksOfRows(ops: seq<Op>, chunks: set<Content>, files: seq<File>, catalog: Catalog)
    requires AllWithin(ops, chunks)
    ensures MarksOf(ops, files, catalog)
  {
    forall i | 0 <= i < |ops| ensures !ops[i].WriteMark? { assert Within(ops[i], chunks); }
  }

  lemma MarksOfLoad(w: World, f: File, files: seq<File>, catalog: Catalog, cleared: set<Content>, batch: nat)
    requires f in w.content && f in files
    ensures MarksOf(LoadOps(w, f, catalog, cleared, batch), files, catalog)
  {
    var rows := RowOps(w, f, catalog, cleared, batch);
    RowOpsWithin(w, f, catalog, cleared, batch);
    MarksOfRows(rows, {w.content[f]}, files, catalog);
    assert LoadOps(w, f, catalog, cleared, batch) == rows + [WriteMark(f, Mark(w.content[f], IsOk(w.read(w.content[f], catalog)), catalog))];
    hide LoadOps, RowOps;
  }

  lemma {:induction false} MarksOfLoads(w: World, todo: seq<File>, files: seq<File>, catalog: Catalog, cleared: set<Content>, batch: nat)
    requires forall f :: f in todo ==> f in w.content && f in files
    ensures MarksOf(LoadAllOps(w, todo, catalog, cleared, batch), files, catalog)
    decreases |todo|
  {
    hide LoadOps;
    if todo != [] {
      MarksOfLoad(w, todo[0], files, catalog, cleared, batch);
      MarksOfLoads(w, todo[1..], files, catalog, cleared - {w.content[todo[0]]}, batch);
    }
  }

  lemma MarksOfRun(t: Tables, w: World, catalog: Catalog, batch: nat)
    requires WorldOk(w)
    ensures MarksOf(RunOps(t, w, catalog, batch), w.files, catalog)
  {
    var todo := Pending(t, w.files, catalog);
    var gone := Redone(t, todo);
    MarksOfLoads(w, todo, w.files, catalog, gone, batch);
    DeletedRows(t, gone, 0, Frames);
    MarksOfRows(DeleteOps(gone), gone, w.files, catalog);
    hide LoadAllOps, Redone, DeleteOps;
  }

  /** A file's marker afterwards is a new one under the catalog, or its old one if none was written. */
  lemma {:induction false} AppliedMarks(t: Tables, ops: seq<Op>, files: seq<File>, catalog: Catalog, f: File)
    requires MarksOf(ops, files, catalog)
    ensures var q := AllApplied(t, ops);
      if Marked(ops, f) then f in q.marks && q.marks[f].catalog == catalog && f in files
      else (f in q.marks <==> f in t.marks) && (f in t.marks ==> q.marks[f] == t.marks[f])
    decreases |ops|
  {
    if ops != [] {
      assert Marked(ops, f) <==> (ops[0].WriteMark? && ops[0].file == f) || Marked(ops[1..], f) by { MarkedStep(ops, f); }
      AppliedMarks(Applied(t, ops[0]), ops[1..], files, catalog, f);
      hide Marked;
    }
  }

  lemma MarkedStep(ops: seq<Op>, f: File)
    requires ops != []
    ensures Marked(ops, f) <==> (ops[0].WriteMark? && ops[0].file == f) || Marked(ops[1..], f)
  {
    if Marked(ops, f) {
      var i :| 0 <= i < |ops| && ops[i].WriteMark? && ops[i].file == f;
      if i > 0 { assert ops[1..][i - 1] == ops[i]; }
    }
    if Marked(ops[1..], f) {
      var i :| 0 <= i < |ops[1..]| && ops[1..][i].WriteMark? && ops[1..][i].file == f;
      assert ops[i + 1] == ops[1..][i];
    }
  }

  lemma RunMarksWithin(t: Tables, w: World, catalog: Catalog, batch: nat, n: nat)
    requires WorldOk(w) && MarksWithin(t, w) && n <= |RunOps(t, w, catalog, batch)|
    ensures MarksWithin(AllApplied(t, RunOps(t, w, catalog, batch)[..n]), w)
  {
    var ops := RunOps(t, w, catalog, batch);
    MarksOfRun(t, w, catalog, batch);
    hide RunOps, AllApplied, Marked;
    assert MarksOf(ops[..n], w.files, catalog);
    forall f | f in AllApplied(t, ops[..n]).marks ensures f in w.files {
      AppliedMarks(t, ops[..n], w.files, catalog, f);
    }
  }

  // ----- whose rows statements insert -----

  ghost predicate InsertsOf(ops: seq<Op>, chunks: set<Content>) {
    forall i, j :: 0 <= i < |ops| && ops[i].Insert? && 0 <= j < |ops[i].rows| ==> ops[i].rows[j].chunk in chunks
  }

  lemma InsertsOfRows(ops: seq<Op>, some: set<Content>, chunks: set<Content>)
    requires AllWithin(ops, some) && some <= chunks
    ensures InsertsOf(ops, chunks)
  {
    forall i, j | 0 <= i < |ops| && ops[i].Insert? && 0 <= j < |ops[i].rows| ensures ops[i].rows[j].chunk in chunks {
      assert Within(ops[i], some);
    }
  }

  lemma InsertsOfLoad(w: World, f: File, chunks: set<Content>, catalog: Catalog, cleared: set<Content>, batch: nat)
    requires f in w.content && w.content[f] in chunks
    ensures InsertsOf(LoadOps(w, f, catalog, cleared, batch), chunks)
  {
    var rows := RowOps(w, f, catalog, cleared, batch);
    RowOpsWithin(w, f, catalog, cleared, batch);
    InsertsOfRows(rows, {w.content[f]}, chunks);
    assert LoadOps(w, f, catalog, cleared, batch) == rows + [WriteMark(f, Mark(w.content[f], IsOk(w.read(w.content[f], catalog)), catalog))];
    hide LoadOps, RowOps;
  }

  lemma {:induction false} InsertsOfLoads(w: World, todo: seq<File>, chunks: set<Content>, catalog: Catalog, cleared: set<Content>, batch: nat)
    requires forall f :: f in todo ==> f in w.content && w.content[f] in chunks
    ensures InsertsOf(LoadAllOps(w, todo, catalog, cleared, batch), chunks)
    decreases |todo|
  {
    hide LoadOps;
    if todo != [] {
      InsertsOfLoad(w, todo[0], chunks, catalog, cleared, batch);
      InsertsOfLoads(w, todo[1..], chunks, catalog, cleared - {w.content[todo[0]]}, batch);
    }
  }

  lemma InsertsOfRun(t: Tables, w: World, catalog: Catalog, batch: nat)
    requires WorldOk(w)
    ensures InsertsOf(RunOps(t, w, catalog, batch), Chunks(w))
  {
    var todo := Pending(t, w.files, catalog);
    InsertsOfLoads(w, todo, Chunks(w), catalog, Redone(t, todo), batch);
    hide LoadAllOps, Redone;
  }

  lemma AppliedStray(t: Tables, op: Op, chunks: set<Content>, k: Content, table: Table)
    requires InsertsOf([op], chunks) && k !in chunks && Only(t.Rows(table), k) == []
    ensures Only(Applied(t, op).Rows(table), k) == []
  {
    hide Only, Without;
    match op
    case Delete(from, gone) => OnlyWithout(t.Rows(from), gone, k);
    case Insert(into, rows) =>
      assert [op][0] == op;
      OnlyJoin(t.Rows(into), rows, k);
      OnlyOthers(rows, k);
    case WriteMark(_, _) =>
  }

  /** Rows that are not there do not come from statements about other chunks. */
  lemma {:induction false} AppliedStrays(t: Tables, ops: seq<Op>, chunks: set<Content>, k: Content, table: Table)
    requires InsertsOf(ops, chunks) && k !in chunks && Only(t.Rows(table), k) == []
    ensures Only(AllApplied(t, ops).Rows(table), k) == []
    decreases |ops|
  {
    if ops != [] {
      assert InsertsOf([ops[0]], chunks) && InsertsOf(ops[1..], chunks);
      hide Only, Applied, InsertsOf;
      AppliedStray(t, ops[0], chunks, k, table);
      AppliedStrays(Applied(t, ops[0]), ops[1..], chunks, k, table);
    }
  }

  lemma RunStrays(t: Tables, w: World, catalog: Catalog, batch: nat, n: nat)
    requires WorldOk(w) && NoStrays(t, w) && n <= |RunOps(t, w, catalog, batch)|
    ensures NoStrays(AllApplied(t, RunOps(t, w, catalog, batch)[..n]), w)
  {
    var ops := RunOps(t, w, catalog, batch);
    InsertsOfRun(t, w, catalog, batch);
    hide RunOps, AllApplied, Only, Chunks;
    assert InsertsOf(ops[..n], Chunks(w));
    forall k, table: Table | k !in Chunks(w) ensures Only(AllApplied(t, ops[..n]).Rows(table), k) == [] {
      AppliedStrays(t, ops[..n], Chunks(w), k, table);
    }
  }

  lemma GrownStrays(t: Tables, w: World, v: World)
    requires WorldOk(w) && WorldOk(v) && Grows(w, v) && NoStrays(t, w)
    ensures NoStrays(t, v)
  {
    assert Chunks(w) <= Chunks(v);
  }
}
