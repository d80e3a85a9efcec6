/** make_qp_dynamic itself: the pass over the graph, and exactly when it succeeds. */
module QpDynamicPass {
  import opened Words
  import opened Statuses
  import opened QpDynamic

  /** The graph inputs that carry an index: named like one and without an initialiser. */
  function QInputs(g: Graph, names: seq<string>, isQ: string -> bool): seq<string> {
    if names == [] then []
    else
      var n := |names| - 1;
      QInputs(g, names[..n], isQ) + if names[n] !in g.inits && isQ(names[n]) then [names[n]] else []
  }

  /** Tensors hold as many elements as their shape says. */
  ghost predicate TensorsOk(g: Graph) {
    forall n :: n in g.inits && TableShape(g.inits[n]) ==> |g.inits[n].data| == g.inits[n].dims[0] * g.inits[n].dims[1]
  }

  predicate TableShape(t: Tensor) {
    |t.dims| == 4 && t.dims[2] == 1 && t.dims[3] == 1 && t.half
  }

  predicate OnlyGathers(g: Graph, table: string) {
    forall k :: 0 <= k < |g.nodes| && Consumes(g.nodes[k], table) ==> g.nodes[k].op.Gather?
  }

  predicate Clashes(g: Graph, j: nat, k: nat)
    requires j < |g.nodes| && k < |g.nodes|
  {
    && |g.nodes[j].inputs| > 0 && |g.nodes[k].inputs| > 0
    && RowName(g.nodes[j].inputs[0]) == RowName(g.nodes[k].inputs[0]) && g.nodes[j].inputs[0] != g.nodes[k].inputs[0]
  }

  /** When the pass succeeds. */
  ghost predicate Convertible(g: Graph, qs: seq<string>) {
    && qs != []
    && (forall a :: 0 <= a < |qs| ==> IsConsumed(g, qs[a]))
    && (forall a, k :: 0 <= a < |qs| && 0 <= k < |g.nodes| && Consumes(g.nodes[k], qs[a]) ==> LookUpOk(g, g.nodes[k], qs[a]))
    && (forall j, k :: 0 <= j < |g.nodes| && 0 <= k < |g.nodes| && UsesQ(g.nodes[j], qs) && UsesQ(g.nodes[k], qs) ==> !Clashes(g, j, k))
  }

  ghost predicate IsConsumed(g: Graph, name: string) {
    exists k :: 0 <= k < |g.nodes| && Consumes(g.nodes[k], name)
  }

  // ---------------------------------------------------------------- the state of the pass

  ghost predicate DroppedSource(g: Graph, drop: set<nat>, t: string) {
    exists k :: k in drop && k < |g.nodes| && |g.nodes[k].inputs| > 0 && g.nodes[k].inputs[0] == t
  }

  ghost predicate DroppedOutput(g: Graph, drop: set<nat>, n: string, row: string) {
    exists k :: k in drop && k < |g.nodes| && n in g.nodes[k].outputs
                && |g.nodes[k].inputs| > 0 && row == RowName(g.nodes[k].inputs[0])
  }

  ghost predicate HasTable(tables: seq<QpTable>, t: string) {
    exists i :: 0 <= i < |tables| && tables[i].source == t
  }

  /** The tables are those of the nodes dropped so far. */
  ghost predicate TablesFor(g: Graph, drop: set<nat>, tables: seq<QpTable>, byRow: map<string, QpTable>) {
    && (forall i :: 0 <= i < |tables| ==>
          TableOf(g, tables[i]) && DroppedSource(g, drop, tables[i].source)
          && tables[i].name in byRow && byRow[tables[i].name] == tables[i])
    && (forall r :: r in byRow ==> byRow[r] in tables && byRow[r].name == r)
    && (forall i, j :: 0 <= i < j < |tables| ==> tables[i].name != tables[j].name)
    && (forall k :: k in drop && k < |g.nodes| && |g.nodes[k].inputs| > 0 ==> HasTable(tables, g.nodes[k].inputs[0]))
  }

  /** The rewires are those of the nodes dropped so far. */
  ghost predicate RewiresFor(g: Graph, drop: set<nat>, rewires: map<string, string>) {
    && (forall k :: k in drop ==> k < |g.nodes| && |g.nodes[k].inputs| > 0)
    && (forall n :: n in rewires ==> DroppedOutput(g, drop, n, rewires[n]))
    && (forall k, o :: k in drop && o in g.nodes[k].outputs ==> o in rewires)
  }

  method AllGathers(g: Graph, table: string) returns (ok: bool)
    ensures ok == OnlyGathers(g, table)
  {
    var k := 0;
    while k < |g.nodes|
      invariant 0 <= k <= |g.nodes|
      invariant forall j :: 0 <= j < k && Consumes(g.nodes[j], table) ==> g.nodes[j].op.Gather?
    {
      if table in g.nodes[k].inputs && !g.nodes[k].op.Gather? {
        return false;
      }
      k := k + 1;
    }
    return true;
  }

  lemma DropMore(g: Graph, drop: set<nat>, k: nat, t: string)
    requires DroppedSource(g, drop, t)
    ensures DroppedSource(g, drop + {k}, t)
  {
    var j :| j in drop && j < |g.nodes| && |g.nodes[j].inputs| > 0 && g.nodes[j].inputs[0] == t;
    assert j in drop + {k};
  }

  ghost predicate ClashesWith(g: Graph, drop: set<nat>, k: nat)
    requires k < |g.nodes|
  {
    exists j :: j in drop && j < |g.nodes| && Clashes(g, j, k)
  }

  /** A row name known for another table is a clash, and the only one. */
  lemma KnownRow(g: Graph, drop: set<nat>, k: nat, tables: seq<QpTable>, byRow: map<string, QpTable>)
    requires k < |g.nodes| && |g.nodes[k].inputs| > 0 && TablesFor(g, drop, tables, byRow)
    requires RowName(g.nodes[k].inputs[0]) in byRow
    ensures byRow[RowName(g.nodes[k].inputs[0])].source == g.nodes[k].inputs[0] <==> !ClashesWith(g, drop, k)
  {
    var name := g.nodes[k].inputs[0];
    var known := byRow[RowName(name)];
    if known.source != name {
      var i :| 0 <= i < |tables| && tables[i] == known;
      assert TableOf(g, tables[i]) && DroppedSource(g, drop, known.source);
      var j :| j in drop && j < |g.nodes| && |g.nodes[j].inputs| > 0 && g.nodes[j].inputs[0] == known.source;
      assert Clashes(g, j, k);
    } else {
      forall j | j in drop && j < |g.nodes| ensures !Clashes(g, j, k) {
        SourceKnown(g, drop, j, tables, byRow);
      }
    }
  }

  lemma SourceKnown(g: Graph, drop: set<nat>, j: nat, tables: seq<QpTable>, byRow: map<string, QpTable>)
    requires j in drop && j < |g.nodes| && TablesFor(g, drop, tables, byRow)
    ensures |g.nodes[j].inputs| > 0 ==>
              RowName(g.nodes[j].inputs[0]) in byRow && byRow[RowName(g.nodes[j].inputs[0])].source == g.nodes[j].inputs[0]
  {
    if |g.nodes[j].inputs| > 0 {
      var x :| 0 <= x < |tables| && tables[x].source == g.nodes[j].inputs[0];
      assert TableOf(g, tables[x]);
    }
  }

  lemma KeepTables(g: Graph, drop: set<nat>, k: nat, tables: seq<QpTable>, byRow: map<string, QpTable>)
    requires k < |g.nodes| && |g.nodes[k].inputs| > 0 && TablesFor(g, drop, tables, byRow)
    requires RowName(g.nodes[k].inputs[0]) in byRow && byRow[RowName(g.nodes[k].inputs[0])].source == g.nodes[k].inputs[0]
    ensures TablesFor(g, drop + {k}, tables, byRow)
  {
    forall x | 0 <= x < |tables| ensures DroppedSource(g, drop + {k}, tables[x].source) {
      DropMore(g, drop, k, tables[x].source);
    }
    var i :| 0 <= i < |tables| && tables[i] == byRow[RowName(g.nodes[k].inputs[0])];
    assert HasTable(tables, g.nodes[k].inputs[0]);
  }

  lemma NewRow(g: Graph, drop: set<nat>, k: nat, tables: seq<QpTable>, byRow: map<string, QpTable>)
    requires k < |g.nodes| && |g.nodes[k].inputs| > 0 && TablesFor(g, drop, tables, byRow)
    requires RowName(g.nodes[k].inputs[0]) !in byRow
    ensures !ClashesWith(g, drop, k)
  {
    forall j | j in drop && j < |g.nodes| ensures !Clashes(g, j, k) {
      SourceKnown(g, drop, j, tables, byRow);
    }
  }

  lemma AddTable(g: Graph, drop: set<nat>, k: nat, tables: seq<QpTable>, byRow: map<string, QpTable>, table: QpTable)
    requires k < |g.nodes| && |g.nodes[k].inputs| > 0 && TablesFor(g, drop, tables, byRow)
    requires TableOf(g, table) && table.source == g.nodes[k].inputs[0] && table.name !in byRow
    ensures TablesFor(g, drop + {k}, tables + [table], byRow[table.name := table])
  {
    var more := tables + [table];
    assert k in drop + {k} && DroppedSource(g, drop + {k}, table.source);
    forall x | 0 <= x < |more| ensures DroppedSource(g, drop + {k}, more[x].source) {
      if x < |tables| {
        DropMore(g, drop, k, tables[x].source);
      }
    }
    forall j | j in drop + {k} && j < |g.nodes| && |g.nodes[j].inputs| > 0 ensures HasTable(more, g.nodes[j].inputs[0]) {
      if j in drop {
        var x :| 0 <= x < |tables| && tables[x].source == g.nodes[j].inputs[0];
        assert more[x] == tables[x];
      } else {
        assert more[|tables|] == table;
      }
    }
  }

  /** The table of a look-up: the one known under its row name, or a new one. */
  method FindTable(g: Graph, ghost drop: set<nat>, k: nat, tables: seq<QpTable>, byRow: map<string, QpTable>)
    returns (ok: bool, tables': seq<QpTable>, byRow': map<string, QpTable>)
    requires k < |g.nodes| && |g.nodes[k].inputs| > 0 && g.nodes[k].inputs[0] in g.inits && IsTable(g.inits[g.nodes[k].inputs[0]])
    requires TablesFor(g, drop, tables, byRow)
    ensures ok <==> !ClashesWith(g, drop, k)
    ensures ok ==> TablesFor(g, drop + {k}, tables', byRow')
  {
    var name := g.nodes[k].inputs[0];
    var row := RowName(name);
    tables', byRow' := tables, byRow;
    if row in byRow {
      KnownRow(g, drop, k, tables, byRow);
      ok := byRow[row].source == name;
      if ok { KeepTables(g, drop, k, tables, byRow); }
    } else {
      var t := g.inits[name];
      var table := QpTable(row, name, t.dims[0], t.dims[1], t.data);
      NewRow(g, drop, k, tables, byRow);
      AddTable(g, drop, k, tables, byRow, table);
      tables', byRow' := tables + [table], byRow[row := table];
      ok := true;
    }
  }

  method Rewire(g: Graph, ghost drop: set<nat>, k: nat, rewires: map<string, string>) returns (r: map<string, string>)
    requires k < |g.nodes| && |g.nodes[k].inputs| > 0 && RewiresFor(g, drop, rewires)
    ensures RewiresFor(g, drop + {k}, r)
  {
    var outs, row := g.nodes[k].outputs, RowName(g.nodes[k].inputs[0]);
    r := rewires;
    var i := 0;
    while i < |outs|
      invariant 0 <= i <= |outs|
      invariant forall n :: n in r <==> n in rewires || n in outs[..i]
      invariant forall n :: n in r ==> r[n] == if n in outs[..i] then row else rewires[n]
    {
      assert outs[..i + 1] == outs[..i] + [outs[i]];
      r := r[outs[i] := row];
      i := i + 1;
    }
    assert outs[..i] == outs;
    forall n | n in r ensures DroppedOutput(g, drop + {k}, n, r[n]) {
      if n in outs {
        assert k in drop + {k};
      } else {
        var j :| j in drop && j < |g.nodes| && n in g.nodes[j].outputs
                 && |g.nodes[j].inputs| > 0 && rewires[n] == RowName(g.nodes[j].inputs[0]);
        assert j in drop + {k};
      }
    }
  }

  /** One look-up: what it must be, its table, its rewires. */
  method TakeLookUp(g: Graph, q: string, ghost drop: set<nat>, k: nat, tables: seq<QpTable>,
                    byRow: map<string, QpTable>, rewires: map<string, string>)
    returns (ok: bool, tables': seq<QpTable>, byRow': map<string, QpTable>, rewires': map<string, string>)
    requires k < |g.nodes| && Consumes(g.nodes[k], q) && TensorsOk(g)
    requires TablesFor(g, drop, tables, byRow) && RewiresFor(g, drop, rewires)
    ensures ok <==> LookUpOk(g, g.nodes[k], q) && !ClashesWith(g, drop, k)
    ensures ok ==> TablesFor(g, drop + {k}, tables', byRow') && RewiresFor(g, drop + {k}, rewires')
  {
    ok, tables', byRow', rewires' := false, tables, byRow, rewires;
    var node := g.nodes[k];
    if !node.op.Gather? || |node.inputs| < 2 || node.inputs[1] != q {
      return;
    }
    var name := node.inputs[0];
    if name !in g.inits {
      return;
    }
    var only := AllGathers(g, name);
    if !only || !TableShape(g.inits[name]) {
      return;
    }
    ok, tables', byRow' := FindTable(g, drop, k, tables, byRow);
    if !ok {
      return;
    }
    rewires' := Rewire(g, drop, k, rewires);
  }

  // ---------------------------------------------------------------- the pass

  /** The nodes dropped so far read an index. */
  ghost predicate DropReads(g: Graph, qs: seq<string>, drop: set<nat>) {
    forall k :: k in drop ==> k < |g.nodes| && UsesQ(g.nodes[k], qs)
  }

  lemma Refused(g: Graph, qs: seq<string>, a: nat, drop: set<nat>, k: nat)
    requires a < |qs| && k < |g.nodes| && Consumes(g.nodes[k], qs[a]) && DropReads(g, qs, drop)
    requires !LookUpOk(g, g.nodes[k], qs[a]) || ClashesWith(g, drop, k)
    ensures !Convertible(g, qs)
  {
    var i :| 0 <= i < |g.nodes[k].inputs| && g.nodes[k].inputs[i] == qs[a];
    assert UsesQ(g.nodes[k], qs);
    if ClashesWith(g, drop, k) {
      var j :| j in drop && j < |g.nodes| && Clashes(g, j, k);
      assert UsesQ(g.nodes[j], qs);
    }
  }

  /** Of the first k nodes every user is taken; found says whether there was one. */
  ghost predicate UsersTaken(g: Graph, q: string, k: nat, drop: set<nat>, found: bool)
    requires k <= |g.nodes|
  {
    && (found ==> IsConsumed(g, q))
    && (!found ==> forall j :: 0 <= j < k ==> !Consumes(g.nodes[j], q))
    && forall j :: 0 <= j < k && Consumes(g.nodes[j], q) ==> j in drop && LookUpOk(g, g.nodes[j], q)
  }

  lemma UsersNext(g: Graph, q: string, k: nat, drop: set<nat>, found: bool)
    requires k < |g.nodes| && UsersTaken(g, q, k, drop, found)
    ensures !Consumes(g.nodes[k], q) ==> UsersTaken(g, q, k + 1, drop, found)
    ensures Consumes(g.nodes[k], q) && LookUpOk(g, g.nodes[k], q) ==> UsersTaken(g, q, k + 1, drop + {k}, true)
  {
  }

  /** All users of one index. */
  method TakeUsers(g: Graph, qs: seq<string>, a: nat, drop: set<nat>, tables: seq<QpTable>,
                   byRow: map<string, QpTable>, rewires: map<string, string>)
    returns (ok: bool, drop': set<nat>, tables': seq<QpTable>, byRow': map<string, QpTable>, rewires': map<string, string>)
    requires a < |qs| && TensorsOk(g) && DropReads(g, qs, drop)
    requires TablesFor(g, drop, tables, byRow) && RewiresFor(g, drop, rewires)
    ensures !ok ==> !Convertible(g, qs)
    ensures ok ==> TablesFor(g, drop', tables', byRow') && RewiresFor(g, drop', rewires') && DropReads(g, qs, drop')
    ensures ok ==> IsConsumed(g, qs[a]) && drop <= drop'
    ensures ok ==> forall k :: 0 <= k < |g.nodes| && Consumes(g.nodes[k], qs[a]) ==> k in drop' && LookUpOk(g, g.nodes[k], qs[a])
  {
    ok, drop', tables', byRow', rewires' := false, drop, tables, byRow, rewires;
    var found := false;
    var k := 0;
    while k < |g.nodes|
      invariant 0 <= k <= |g.nodes| && drop <= drop' && DropReads(g, qs, drop')
      invariant TablesFor(g, drop', tables', byRow') && RewiresFor(g, drop', rewires')
      invariant UsersTaken(g, qs[a], k, drop', found)
    {
      UsersNext(g, qs[a], k, drop', found);
      if qs[a] in g.nodes[k].inputs {
        found := true;
        var taken;
        ghost var before := drop';
        taken, tables', byRow', rewires' := TakeLookUp(g, qs[a], drop', k, tables', byRow', rewires');
        if !taken {
          Refused(g, qs, a, before, k);
          return;
        }
        ReadsIt(g, qs, a, k);
        drop' := drop' + {k};
      }
      k := k + 1;
    }
    ok := found;
  }

  lemma ReadsIt(g: Graph, qs: seq<string>, a: nat, k: nat)
    requires a < |qs| && k < |g.nodes| && Consumes(g.nodes[k], qs[a])
    ensures UsesQ(g.nodes[k], qs)
  {
    var i :| 0 <= i < |g.nodes[k].inputs| && g.nodes[k].inputs[i] == qs[a];
  }

  /** Every user of this index is a look-up and dropped. */
  ghost predicate Taken(g: Graph, name: string, drop: set<nat>) {
    && IsConsumed(g, name)
    && forall k :: 0 <= k < |g.nodes| && Consumes(g.nodes[k], name) ==> k in drop && LookUpOk(g, g.nodes[k], name)
  }

  lemma StillTaken(g: Graph, name: string, drop: set<nat>, drop': set<nat>)
    requires Taken(g, name, drop) && drop <= drop'
    ensures Taken(g, name, drop')
  {
  }

  /** Everything taken up to index a. */
  ghost predicate TakenUpTo(g: Graph, qs: seq<string>, a: nat, drop: set<nat>)
    requires a <= |qs|
  {
    DropReads(g, qs, drop) && forall b :: 0 <= b < a ==> Taken(g, qs[b], drop)
  }

  lemma TakenNext(g: Graph, qs: seq<string>, a: nat, drop: set<nat>, drop': set<nat>)
    requires a < |qs| && TakenUpTo(g, qs, a, drop) && drop <= drop' && DropReads(g, qs, drop') && Taken(g, qs[a], drop')
    ensures TakenUpTo(g, qs, a + 1, drop')
  {
    forall b | 0 <= b < a ensures Taken(g, qs[b], drop') {
      StillTaken(g, qs[b], drop, drop');
    }
  }

  /** Index after index. */
  method TakeEach(g: Graph, qs: seq<string>)
    returns (ok: bool, drop: set<nat>, tables: seq<QpTable>, rewires: map<string, string>, byRow: map<string, QpTable>)
    requires TensorsOk(g)
    ensures !ok ==> !Convertible(g, qs)
    ensures ok ==> TablesFor(g, drop, tables, byRow) && RewiresFor(g, drop, rewires) && TakenUpTo(g, qs, |qs|, drop)
  {
    ok, drop, tables, rewires, byRow := true, {}, [], map[], map[];
    var a := 0;
    while a < |qs|
      invariant 0 <= a <= |qs| && ok && TakenUpTo(g, qs, a, drop)
      invariant TablesFor(g, drop, tables, byRow) && RewiresFor(g, drop, rewires)
    {
      ghost var before := drop;
      ok, drop, tables, byRow, rewires := TakeUsers(g, qs, a, drop, tables, byRow, rewires);
      if !ok {
        return;
      }
      TakenNext(g, qs, a, before, drop);
      a := a + 1;
    }
  }

  /** All look-ups of all indices. */
  method TakeAll(g: Graph, qs: seq<string>)
    returns (ok: bool, drop: set<nat>, tables: seq<QpTable>, rewires: map<string, string>, ghost byRow: map<string, QpTable>)
    requires TensorsOk(g)
    ensures ok <==> Convertible(g, qs)
    ensures ok ==> TablesFor(g, drop, tables, byRow) && RewiresFor(g, drop, rewires) && AllDropped(g, qs, drop)
  {
    if qs == [] {
      return false, {}, [], map[], map[];
    }
    ok, drop, tables, rewires, byRow := TakeEach(g, qs);
    if ok {
      EverythingDropped(g, qs, drop);
      AllTakenConverts(g, qs, drop, tables, byRow);
    }
  }

  lemma AllTakenConverts(g: Graph, qs: seq<string>, drop: set<nat>, tables: seq<QpTable>, byRow: map<string, QpTable>)
    requires qs != [] && (forall b :: 0 <= b < |qs| ==> Taken(g, qs[b], drop))
    requires AllDropped(g, qs, drop) && TablesFor(g, drop, tables, byRow)
    ensures Convertible(g, qs)
  {
    NoClash(g, qs, drop, tables, byRow);
    assert forall a :: 0 <= a < |qs| ==> Taken(g, qs[a], drop) && IsConsumed(g, qs[a]);
    forall a, k | 0 <= a < |qs| && 0 <= k < |g.nodes| && Consumes(g.nodes[k], qs[a]) ensures LookUpOk(g, g.nodes[k], qs[a]) {
      assert Taken(g, qs[a], drop);
    }
  }

  ghost predicate AllDropped(g: Graph, qs: seq<string>, drop: set<nat>) {
    && (forall k :: k in drop ==> k < |g.nodes|)
    && (forall k :: 0 <= k < |g.nodes| ==> (k in drop <==> UsesQ(g.nodes[k], qs)))
  }

  lemma EverythingDropped(g: Graph, qs: seq<string>, drop: set<nat>)
    requires DropReads(g, qs, drop) && forall b :: 0 <= b < |qs| ==> Taken(g, qs[b], drop)
    ensures AllDropped(g, qs, drop)
  {
    forall k | 0 <= k < |g.nodes| && UsesQ(g.nodes[k], qs) ensures k in drop {
      var i :| 0 <= i < |g.nodes[k].inputs| && g.nodes[k].inputs[i] in qs;
      var b :| 0 <= b < |qs| && qs[b] == g.nodes[k].inputs[i];
      assert Taken(g, qs[b], drop) && Consumes(g.nodes[k], qs[b]);
    }
  }

  lemma NoClash(g: Graph, qs: seq<string>, drop: set<nat>, tables: seq<QpTable>, byRow: map<string, QpTable>)
    requires AllDropped(g, qs, drop) && TablesFor(g, drop, tables, byRow)
    ensures forall j, k :: 0 <= j < |g.nodes| && 0 <= k < |g.nodes| && UsesQ(g.nodes[j], qs) && UsesQ(g.nodes[k], qs) ==>
              !Clashes(g, j, k)
  {
    forall j, k | 0 <= j < |g.nodes| && 0 <= k < |g.nodes| && UsesQ(g.nodes[j], qs) && UsesQ(g.nodes[k], qs)
      ensures !Clashes(g, j, k)
    {
      SourceKnown(g, drop, j, tables, byRow);
      SourceKnown(g, drop, k, tables, byRow);
    }
  }

  lemma PassIsRight(g: Graph, qs: seq<string>, drop: set<nat>, tables: seq<QpTable>, byRow: map<string, QpTable>,
                    rewires: map<string, string>)
    requires AllDropped(g, qs, drop) && TablesFor(g, drop, tables, byRow) && RewiresFor(g, drop, rewires)
    ensures TablesRight(g, qs, tables) && RewiresMade(g, qs, rewires)
  {
    forall i | 0 <= i < |tables| ensures IsSource(g, qs, tables[i].source) {
      assert DroppedSource(g, drop, tables[i].source);
    }
    forall t | IsSource(g, qs, t) ensures exists i :: 0 <= i < |tables| && tables[i].source == t {
      var k :| 0 <= k < |g.nodes| && UsesQ(g.nodes[k], qs) && |g.nodes[k].inputs| > 0 && g.nodes[k].inputs[0] == t;
      assert HasTable(tables, t);
    }
    forall n | n in rewires ensures IsLookedUp(g, qs, n) && MadeFrom(g, qs, n, rewires[n]) {
      assert DroppedOutput(g, drop, n, rewires[n]);
    }
  }

  method RenameInputs(names: seq<string>, rewires: map<string, string>) returns (r: seq<string>)
    ensures r == Renamed(names, rewires)
  {
    r := [];
    var i := 0;
    while i < |names|
      invariant 0 <= i <= |names| && r == Renamed(names, rewires)[..i]
    {
      r := r + [if names[i] in rewires then rewires[names[i]] else names[i]];
      i := i + 1;
    }
  }

  lemma KeptNext(g: Graph, qs: seq<string>, rewires: map<string, string>, k: nat)
    requires k < |g.nodes|
    ensures Kept(g.nodes[k..], qs, rewires)
            == (if UsesQ(g.nodes[k], qs) then [] else [g.nodes[k].(inputs := Renamed(g.nodes[k].inputs, rewires))])
               + Kept(g.nodes[k + 1..], qs, rewires)
  {
    assert g.nodes[k..][0] == g.nodes[k] && g.nodes[k..][1..] == g.nodes[k + 1..];
  }

  lemma Moved(a: seq<Node>, n: Node, b: seq<Node>)
    ensures a + ([n] + b) == (a + [n]) + b && [] + b == b
  {
  }

  method KeepNodes(g: Graph, ghost qs: seq<string>, drop: set<nat>, rewires: map<string, string>) returns (kept: seq<Node>)
    requires AllDropped(g, qs, drop)
    ensures kept == Kept(g.nodes, qs, rewires)
  {
    kept := [];
    assert g.nodes[0..] == g.nodes;
    var k := 0;
    while k < |g.nodes|
      invariant 0 <= k <= |g.nodes| && kept + Kept(g.nodes[k..], qs, rewires) == Kept(g.nodes, qs, rewires)
    {
      KeptNext(g, qs, rewires, k);
      if k !in drop {
        var inputs := RenameInputs(g.nodes[k].inputs, rewires);
        Moved(kept, g.nodes[k].(inputs := inputs), Kept(g.nodes[k + 1..], qs, rewires));
        kept := kept + [g.nodes[k].(inputs := inputs)];
      }
      k := k + 1;
    }
    assert g.nodes[k..] == [] && kept + [] == kept;
  }

  method KeepInputs(inputs: seq<string>, g: Graph, qs: seq<string>) returns (kept: seq<string>)
    ensures kept == Without(inputs, g.inits.Keys, qs)
  {
    kept := [];
    var i := 0;
    while i < |inputs|
      invariant 0 <= i <= |inputs| && kept == Without(inputs[..i], g.inits.Keys, qs)
    {
      assert inputs[..i + 1][..i] == inputs[..i];
      if inputs[i] in g.inits || inputs[i] !in qs {
        kept := kept + [inputs[i]];
      }
      i := i + 1;
    }
    assert inputs[..i] == inputs;
  }

  method FindQInputs(g: Graph, isQ: string -> bool) returns (qs: seq<string>)
    ensures qs == QInputs(g, g.inputs, isQ)
  {
    qs := [];
    var i := 0;
    while i < |g.inputs|
      invariant 0 <= i <= |g.inputs| && qs == QInputs(g, g.inputs[..i], isQ)
    {
      assert g.inputs[..i + 1][..i] == g.inputs[..i];
      if g.inputs[i] !in g.inits && isQ(g.inputs[i]) {
        qs := qs + [g.inputs[i]];
      }
      i := i + 1;
    }
    assert g.inputs[..i] == g.inputs;
  }

  /** make_qp_dynamic: the rewritten graph and its tables, or nothing if some use of an index is no look-up. */
  method MakeQpDynamic(g: Graph, isQ: string -> bool)
    returns (r: Result<(Graph, seq<QpTable>)>, ghost rewires: map<string, string>)
    requires TensorsOk(g)
    ensures r.Success? <==> Convertible(g, QInputs(g, g.inputs, isQ))
    ensures r.Success? ==>
              var qs := QInputs(g, g.inputs, isQ);
              && RewiresMade(g, qs, rewires) && TablesRight(g, qs, r.value.1)
              && r.value.0 == Rewritten(g, qs, rewires, r.value.1)
  {
    rewires := map[];
    var qs := FindQInputs(g, isQ);
    var ok, drop, tables, wires;
    ghost var byRow;
    ok, drop, tables, wires, byRow := TakeAll(g, qs);
    if !ok {
      return Failure(Invalid), rewires;
    }
    rewires := wires;
    PassIsRight(g, qs, drop, tables, byRow, wires);
    var kept := KeepNodes(g, qs, drop, wires);
    var names := seq(|tables|, i requires 0 <= i < |tables| => tables[i].name);
    var inputs := KeepInputs(g.inputs + names, g, qs);
    r := Success((Graph(inputs, g.inits - Dropped(tables), kept, g.outputs), tables));
  }

  lemma UserIsLookUp(g: Graph, qs: seq<string>, qv: nat, a: nat, k: nat)
    requires Suitable(g, qs, qv) && a < |qs| && k < |g.nodes| && Consumes(g.nodes[k], qs[a])
    ensures LookUpOk(g, g.nodes[k], qs[a])
  {
    var n := g.nodes[k];
    ReadsIt(g, qs, a, k);
    assert LookUpFits(g, n, qs, qv);
    var i :| 0 <= i < |n.inputs| && n.inputs[i] == qs[a];
    assert i == 1;
    forall j | 0 <= j < |g.nodes| && Consumes(g.nodes[j], n.inputs[0]) ensures g.nodes[j].op.Gather? {
      assert LookUpFits(g, g.nodes[j], qs, qv);
    }
  }

  /** On a graph it is meant for the pass succeeds if every index is used and no two tables want one row name. */
  lemma SuitableConverts(g: Graph, qs: seq<string>, qv: nat)
    requires Suitable(g, qs, qv) && qs != [] && (forall a :: 0 <= a < |qs| ==> IsConsumed(g, qs[a]))
    requires forall j, k :: 0 <= j < |g.nodes| && 0 <= k < |g.nodes| && UsesQ(g.nodes[j], qs) && UsesQ(g.nodes[k], qs) ==> !Clashes(g, j, k)
    ensures Convertible(g, qs)
  {
    forall a, k | 0 <= a < |qs| && 0 <= k < |g.nodes| && Consumes(g.nodes[k], qs[a]) ensures LookUpOk(g, g.nodes[k], qs[a]) {
      UserIsLookUp(g, qs, qv, a, k);
    }
  }

  // ---------------------------------------------------------------- where it is not meant to be used

  const T: Tensor := Tensor([1, 1, 1, 1], true, [0])
  const LOOK_UP: Node := Node(Gather(0), ["t", "q"], ["o"])
  const LONE_LOOK_UP: Graph := Graph(["q"], map["t" := T], [LOOK_UP], ["o"])

  lemma LoneLookUp(m: Meaning)
    requires GathersRows(m)
    ensures UsesQ(LOOK_UP, ["q"]) && Convertible(LONE_LOOK_UP, ["q"])
    ensures Arg(Run(m, LONE_LOOK_UP.nodes, OriginalEnv(LONE_LOOK_UP, ["q"], 0, map[])), "o") == Some(Row(T, 0))
  {
    assert LOOK_UP.inputs[1] == "q" && LONE_LOOK_UP.nodes[0] == LOOK_UP;
    assert Consumes(LONE_LOOK_UP.nodes[0], "q");
    var e := OriginalEnv(LONE_LOOK_UP, ["q"], 0, map[]);
    assert Args(e, LOOK_UP.inputs) == [Some(T), Some(Index(0))];
    assert m(LOOK_UP.op, Args(e, LOOK_UP.inputs)) == [Row(T, 0)];
    var f := Bind(e, ["o"], [Row(T, 0)]);
    assert f == Bind(e["o" := Row(T, 0)], [], []) == e["o" := Row(T, 0)];
    assert Run(m, [LOOK_UP], e) == Run(m, [], f) == f;
  }

  lemma NothingNamedO(tables: seq<QpTable>)
    requires forall i :: 0 <= i < |tables| ==> TableOf(LONE_LOOK_UP, tables[i]) && 0 < tables[i].rows
    requires forall i, j :: 0 <= i < j < |tables| ==> tables[i].name != tables[j].name
    ensures Arg(RewrittenEnv(LONE_LOOK_UP, tables, 0, map[]), "o") == None
  {
    HostRowsAre(LONE_LOOK_UP, tables, 0, "o");
    assert forall i :: 0 <= i < |tables| ==> TableOf(LONE_LOOK_UP, tables[i]) && |tables[i].name| > 1;
  }

  /** A look-up that is itself a graph output is not caught: the pass succeeds and the output is gone. */
  lemma LookUpAsOutputIsLost(m: Meaning, rewires: map<string, string>, tables: seq<QpTable>)
    requires GathersRows(m) && TablesRight(LONE_LOOK_UP, ["q"], tables)
    requires forall i :: 0 <= i < |tables| ==> TableOf(LONE_LOOK_UP, tables[i]) && 0 < tables[i].rows
    ensures Convertible(LONE_LOOK_UP, ["q"])
    ensures Arg(Run(m, LONE_LOOK_UP.nodes, OriginalEnv(LONE_LOOK_UP, ["q"], 0, map[])), "o") == Some(Row(T, 0))
    ensures Arg(Run(m, Rewritten(LONE_LOOK_UP, ["q"], rewires, tables).nodes,
                    RewrittenEnv(LONE_LOOK_UP, tables, 0, map[])), "o") == None
  {
    LoneLookUp(m);
    NothingNamedO(tables);
    assert Kept([LOOK_UP], ["q"], rewires) == [];
  }
}
