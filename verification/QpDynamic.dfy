/** The graph rewrite that moves the qp table look-up out of the model. */
module QpDynamic {
  import opened Words

  // ---------------------------------------------------------------- graphs

  datatype Tensor = Tensor(dims: seq<nat>, half: bool, data: seq<int>)

  datatype Op = Gather(axis: int) | Other(name: string)

  datatype Node = Node(op: Op, inputs: seq<string>, outputs: seq<string>)

  datatype Graph = Graph(inputs: seq<string>, inits: map<string, Tensor>, nodes: seq<Node>, outputs: seq<string>)

  type Env = map<string, Tensor>

  /** What each operator computes; nothing is known but that it is a function. */
  type Meaning = (Op, seq<Option<Tensor>>) -> seq<Tensor>

  /** An absent input has the empty name. */
  function Arg(env: Env, name: string): Option<Tensor> {
    if name != "" && name in env then Some(env[name]) else None
  }

  function Args(env: Env, names: seq<string>): (s: seq<Option<Tensor>>)
    ensures |s| == |names|
  {
    seq(|names|, i requires 0 <= i < |names| => Arg(env, names[i]))
  }

  function Bind(env: Env, names: seq<string>, values: seq<Tensor>): Env
    decreases |names|
  {
    if names == [] || values == [] then env else Bind(env[names[0] := values[0]], names[1..], values[1..])
  }

  function Run(m: Meaning, nodes: seq<Node>, env: Env): Env
    decreases |nodes|
  {
    if nodes == [] then env
    else Run(m, nodes[1..], Bind(env, nodes[0].outputs, m(nodes[0].op, Args(env, nodes[0].inputs))))
  }

  // ---------------------------------------------------------------- tables

  /** A table [N, C, 1, 1] in half precision. */
  predicate IsTable(t: Tensor) {
    |t.dims| == 4 && t.dims[2] == 1 && t.dims[3] == 1 && t.half && |t.data| == t.dims[0] * t.dims[1]
  }

  function Index(q: nat): Tensor {
    Tensor([1], false, [q])
  }

  lemma RowInTable(t: Tensor, q: nat)
    requires IsTable(t) && q < t.dims[0]
    ensures 0 <= q * t.dims[1] <= q * t.dims[1] + t.dims[1] <= |t.data|
  {
    MulMonotone(0, q, t.dims[1]);
    MulMonotone(q + 1, t.dims[0], t.dims[1]);
    assert (q + 1) * t.dims[1] == q * t.dims[1] + t.dims[1];
  }

  function Row(t: Tensor, q: nat): Tensor
    requires IsTable(t) && q < t.dims[0]
  {
    RowInTable(t, q);
    Tensor([1, t.dims[1], 1, 1], true, t.data[q * t.dims[1]..q * t.dims[1] + t.dims[1]])
  }

  /** Gathering along axis 0 with a single index takes that row. */
  ghost predicate GathersRows(m: Meaning) {
    forall t, q: nat :: IsTable(t) && q < t.dims[0] ==> m(Gather(0), [Some(t), Some(Index(q))]) == [Row(t, q)]
  }

  // ---------------------------------------------------------------- the rewrite

  datatype QpTable = QpTable(name: string, source: string, rows: nat, cols: nat, data: seq<int>)

  /** What follows the last dot. */
  function LastSegment(name: string): string {
    if '.' !in name then name
    else if name[0] == '.' && '.' !in name[1..] then name[1..]
    else LastSegment(name[1..])
  }

  function RowName(table: string): string {
    LastSegment(table) + "_row"
  }

  predicate UsesQ(n: Node, qs: seq<string>) {
    exists i :: 0 <= i < |n.inputs| && n.inputs[i] in qs
  }

  predicate Consumes(n: Node, name: string) {
    name in n.inputs
  }

  function Renamed(names: seq<string>, rewires: map<string, string>): (s: seq<string>)
    ensures |s| == |names|
  {
    seq(|names|, i requires 0 <= i < |names| => if names[i] in rewires then rewires[names[i]] else names[i])
  }

  function Kept(nodes: seq<Node>, qs: seq<string>, rewires: map<string, string>): seq<Node> {
    if nodes == [] then []
    else
      (if UsesQ(nodes[0], qs) then [] else [nodes[0].(inputs := Renamed(nodes[0].inputs, rewires))])
      + Kept(nodes[1..], qs, rewires)
  }

  /** A look-up the rewrite takes out: a gather by this very input from a table that only gathers use. */
  predicate LookUpOk(g: Graph, n: Node, q: string) {
    && n.op.Gather? && |n.inputs| >= 2 && n.inputs[1] == q
    && n.inputs[0] in g.inits && IsTable(g.inits[n.inputs[0]])
    && forall k :: 0 <= k < |g.nodes| && Consumes(g.nodes[k], n.inputs[0]) ==> g.nodes[k].op.Gather?
  }

  // ---------------------------------------------------------------- meaning

  /**
   * Where the rewrite is meant to be used: every look-up is along axis 0, has one output and a table
   * that nothing but look-ups reads; row names are new; and the graph is in single-assignment,
   * topological form.
   */
  ghost predicate Suitable(g: Graph, qs: seq<string>, qv: nat) {
    && (forall k :: 0 <= k < |g.nodes| && UsesQ(g.nodes[k], qs) ==> LookUpFits(g, g.nodes[k], qs, qv))
    && (forall k :: 0 <= k < |g.nodes| ==> OutputsFit(g, k, qs))
    && (forall o :: o in g.outputs ==> !IsRow(g, qs, o))
    && "" !in g.inits && "" !in qs
    && Topological(g.nodes, g.inits.Keys + (set i | i in g.inputs))
  }

  predicate LookUpFits(g: Graph, n: Node, qs: seq<string>, qv: nat) {
    && n.op == Gather(0) && |n.inputs| == 2 && |n.outputs| == 1 && n.outputs[0] != "" && n.inputs[1] in qs && n.inputs[0] !in qs
    && n.inputs[0] in g.inits && IsTable(g.inits[n.inputs[0]]) && qv < g.inits[n.inputs[0]].dims[0]
    && forall k :: 0 <= k < |g.nodes| && Consumes(g.nodes[k], n.inputs[0]) ==> UsesQ(g.nodes[k], qs)
  }

  ghost predicate IsSource(g: Graph, qs: seq<string>, name: string) {
    exists k :: 0 <= k < |g.nodes| && UsesQ(g.nodes[k], qs) && |g.nodes[k].inputs| > 0 && g.nodes[k].inputs[0] == name
  }

  ghost predicate IsRow(g: Graph, qs: seq<string>, name: string) {
    exists t :: IsSource(g, qs, t) && RowName(t) == name
  }

  ghost predicate IsLookedUp(g: Graph, qs: seq<string>, name: string) {
    exists k :: 0 <= k < |g.nodes| && UsesQ(g.nodes[k], qs) && name in g.nodes[k].outputs
  }

  /** Names that mean something in only one of the two graphs. */
  ghost predicate Hidden(g: Graph, qs: seq<string>, name: string) {
    name in qs || IsSource(g, qs, name) || IsRow(g, qs, name) || IsLookedUp(g, qs, name)
  }

  /** A node does not write inputs, tables or row names, nor what another node writes. */
  ghost predicate OutputsFit(g: Graph, k: nat, qs: seq<string>)
    requires k < |g.nodes|
  {
    && (forall o :: o in g.nodes[k].outputs ==>
          o !in g.inits && o !in g.inputs && o !in qs && !IsSource(g, qs, o) && !IsRow(g, qs, o))
    && (forall i :: i in g.nodes[k].inputs ==> !IsRow(g, qs, i))
    && (forall j, o :: 0 <= j < |g.nodes| && o in g.nodes[k].outputs && o in g.nodes[j].outputs ==> j == k)
  }

  /** Every input is there before it is used. */
  predicate Topological(nodes: seq<Node>, known: set<string>)
    decreases |nodes|
  {
    nodes != [] ==>
      (forall i :: i in nodes[0].inputs && i != "" ==> i in known)
      && Topological(nodes[1..], known + (set o | o in nodes[0].outputs))
  }

  /** The names met once the nodes have run. */
  function KnownAfter(nodes: seq<Node>, known: set<string>): set<string>
    decreases |nodes|
  {
    if nodes == [] then known else KnownAfter(nodes[1..], known + (set o | o in nodes[0].outputs))
  }

  // ---------------------------------------------------------------- the two environments

  /** Every look-up output is rewired to the row of its table, and nothing else is. */
  ghost predicate RewiresRight(g: Graph, qs: seq<string>, rewires: map<string, string>) {
    && (forall n :: n in rewires <==> IsLookedUp(g, qs, n))
    && (forall k, o :: 0 <= k < |g.nodes| && UsesQ(g.nodes[k], qs) && o in g.nodes[k].outputs && |g.nodes[k].inputs| > 0 ==>
          o in rewires && rewires[o] == RowName(g.nodes[k].inputs[0]))
  }

  /** What the two runs have in common: known are the names the original run has met. */
  ghost predicate Agree(g: Graph, qs: seq<string>, qv: nat, rewires: map<string, string>, known: set<string>, e: Env, f: Env) {
    && (forall n :: !Hidden(g, qs, n) ==> Arg(e, n) == Arg(f, n))
    && (forall q :: q in qs ==> q in e && e[q] == Index(qv))
    && (forall t :: IsSource(g, qs, t) ==> HoldsTable(g, qv, t, e, f))
    && (forall n :: n in rewires && n in e ==> rewires[n] in f && e[n] == f[rewires[n]])
    && (forall n :: n in known && n in rewires ==> n in e)
  }

  /** The original holds the table, the rewritten graph its row. */
  predicate HoldsTable(g: Graph, qv: nat, t: string, e: Env, f: Env) {
    && t in g.inits && IsTable(g.inits[t]) && qv < g.inits[t].dims[0]
    && t in e && e[t] == g.inits[t]
    && RowName(t) in f && f[RowName(t)] == Row(g.inits[t], qv)
  }

  lemma {:induction false} BindAgrees(e: Env, f: Env, names: seq<string>, values: seq<Tensor>, n: string)
    requires Arg(e, n) == Arg(f, n)
    ensures Arg(Bind(e, names, values), n) == Arg(Bind(f, names, values), n)
    decreases |names|
  {
    if names != [] && values != [] {
      BindAgrees(e[names[0] := values[0]], f[names[0] := values[0]], names[1..], values[1..], n);
    }
  }

  lemma {:induction false} BindKeeps(e: Env, names: seq<string>, values: seq<Tensor>, n: string)
    requires n !in names
    ensures n in Bind(e, names, values) <==> n in e
    ensures n in e ==> Bind(e, names, values)[n] == e[n]
    decreases |names|
  {
    if names != [] && values != [] {
      BindKeeps(e[names[0] := values[0]], names[1..], values[1..], n);
    }
  }

  /** Where a look-up's value is found: under its own name before the rewrite, as its table's row after it. */
  ghost predicate LookUpPlace(g: Graph, qs: seq<string>, rewires: map<string, string>, n: Node)
    requires |n.inputs| == 2 && |n.outputs| == 1
  {
    var t, o := n.inputs[0], n.outputs[0];
    Hidden(g, qs, o) && o !in qs && !IsSource(g, qs, o) && o in rewires && rewires[o] == RowName(t)
  }

  lemma LookUpGives(m: Meaning, g: Graph, qs: seq<string>, qv: nat, rewires: map<string, string>,
                    known: set<string>, k: nat, e: Env, f: Env)
    requires GathersRows(m) && Suitable(g, qs, qv) && RewiresRight(g, qs, rewires) && k < |g.nodes|
    requires UsesQ(g.nodes[k], qs) && Agree(g, qs, qv, rewires, known, e, f)
    ensures var n := g.nodes[k];
            && |n.inputs| == 2 && |n.outputs| == 1 && IsSource(g, qs, n.inputs[0]) && n.inputs[0] in g.inits
            && Bind(e, n.outputs, m(n.op, Args(e, n.inputs))) == e[n.outputs[0] := Row(g.inits[n.inputs[0]], qv)]
            && LookUpPlace(g, qs, rewires, n) && (set x | x in n.outputs) == {n.outputs[0]}
  {
    var n := g.nodes[k];
    assert LookUpFits(g, n, qs, qv) && OutputsFit(g, k, qs);
    var t, o := n.inputs[0], n.outputs[0];
    assert IsSource(g, qs, t) && HoldsTable(g, qv, t, e, f);
    assert Args(e, n.inputs) == [Some(g.inits[t]), Some(Index(qv))];
    var row := Row(g.inits[t], qv);
    assert m(n.op, Args(e, n.inputs)) == [row];
    assert n.outputs == [o] && Bind(e, [o], [row]) == e[o := row];
    assert o in n.outputs && IsLookedUp(g, qs, o);
  }

  /** A look-up adds its row to the original run, where the rewritten graph has it already. */
  lemma LookUpStep(m: Meaning, g: Graph, qs: seq<string>, qv: nat, rewires: map<string, string>,
                   known: set<string>, k: nat, e: Env, f: Env)
    requires GathersRows(m) && Suitable(g, qs, qv) && RewiresRight(g, qs, rewires) && k < |g.nodes|
    requires UsesQ(g.nodes[k], qs) && Agree(g, qs, qv, rewires, known, e, f)
    ensures var n := g.nodes[k];
            Agree(g, qs, qv, rewires, known + (set o | o in n.outputs), Bind(e, n.outputs, m(n.op, Args(e, n.inputs))), f)
  {
    var n := g.nodes[k];
    LookUpGives(m, g, qs, qv, rewires, known, k, e, f);
    var t, o := n.inputs[0], n.outputs[0];
    AgreeWithRow(g, qs, qv, rewires, known, t, o, e, f);
  }

  lemma AgreeWithRow(g: Graph, qs: seq<string>, qv: nat, rewires: map<string, string>, known: set<string>,
                     t: string, o: string, e: Env, f: Env)
    requires Agree(g, qs, qv, rewires, known, e, f) && IsSource(g, qs, t) && t in g.inits
    requires Hidden(g, qs, o) && o !in qs && !IsSource(g, qs, o) && o in rewires && rewires[o] == RowName(t)
    ensures Agree(g, qs, qv, rewires, known + {o}, e[o := Row(g.inits[t], qv)], f)
  {
    var e' := e[o := Row(g.inits[t], qv)];
    forall s | IsSource(g, qs, s) ensures HoldsTable(g, qv, s, e', f) {
      assert HoldsTable(g, qv, s, e, f);
    }
  }

  /** Any other node sees the same arguments in both runs. */
  lemma SameArgs(g: Graph, qs: seq<string>, qv: nat, rewires: map<string, string>, known: set<string>, k: nat, e: Env, f: Env)
    requires Suitable(g, qs, qv) && RewiresRight(g, qs, rewires) && k < |g.nodes|
    requires !UsesQ(g.nodes[k], qs) && Agree(g, qs, qv, rewires, known, e, f)
    requires forall i :: i in g.nodes[k].inputs && i != "" ==> i in known
    ensures Args(e, g.nodes[k].inputs) == Args(f, Renamed(g.nodes[k].inputs, rewires))
  {
    var n := g.nodes[k];
    assert OutputsFit(g, k, qs);
    forall i | 0 <= i < |n.inputs|
      ensures Arg(e, n.inputs[i]) == Arg(f, Renamed(n.inputs, rewires)[i])
    {
      SameArg(g, qs, qv, rewires, known, k, i, e, f);
    }
  }

  lemma SameArg(g: Graph, qs: seq<string>, qv: nat, rewires: map<string, string>, known: set<string>,
                k: nat, i: nat, e: Env, f: Env)
    requires Suitable(g, qs, qv) && RewiresRight(g, qs, rewires) && k < |g.nodes| && i < |g.nodes[k].inputs|
    requires !UsesQ(g.nodes[k], qs) && Agree(g, qs, qv, rewires, known, e, f) && OutputsFit(g, k, qs)
    requires g.nodes[k].inputs[i] != "" ==> g.nodes[k].inputs[i] in known
    ensures Arg(e, g.nodes[k].inputs[i]) == Arg(f, Renamed(g.nodes[k].inputs, rewires)[i])
  {
    var x := g.nodes[k].inputs[i];
    if x in rewires {
      RewiredNamed(g, qs, qv, rewires, x);
    } else {
      OrdinaryInput(g, qs, qv, rewires, k, i);
    }
  }

  lemma RewiredNamed(g: Graph, qs: seq<string>, qv: nat, rewires: map<string, string>, x: string)
    requires Suitable(g, qs, qv) && RewiresRight(g, qs, rewires) && x in rewires
    ensures x != "" && rewires[x] != ""
  {
    var j :| 0 <= j < |g.nodes| && UsesQ(g.nodes[j], qs) && x in g.nodes[j].outputs;
    assert LookUpFits(g, g.nodes[j], qs, qv);
    assert rewires[x] == RowName(g.nodes[j].inputs[0]);
  }

  /** An input of a kept node that is not rewired means the same in both graphs. */
  lemma OrdinaryInput(g: Graph, qs: seq<string>, qv: nat, rewires: map<string, string>, k: nat, i: nat)
    requires Suitable(g, qs, qv) && RewiresRight(g, qs, rewires) && k < |g.nodes| && i < |g.nodes[k].inputs|
    requires !UsesQ(g.nodes[k], qs) && OutputsFit(g, k, qs) && g.nodes[k].inputs[i] !in rewires
    ensures !Hidden(g, qs, g.nodes[k].inputs[i])
  {
    SourceReaders(g, qs, qv, g.nodes[k].inputs[i], k);
    assert Consumes(g.nodes[k], g.nodes[k].inputs[i]);
  }

  lemma SourceReaders(g: Graph, qs: seq<string>, qv: nat, x: string, k: nat)
    requires Suitable(g, qs, qv) && k < |g.nodes|
    ensures IsSource(g, qs, x) && Consumes(g.nodes[k], x) ==> UsesQ(g.nodes[k], qs)
  {
    if IsSource(g, qs, x) {
      var j :| 0 <= j < |g.nodes| && UsesQ(g.nodes[j], qs) && |g.nodes[j].inputs| > 0 && g.nodes[j].inputs[0] == x;
      assert LookUpFits(g, g.nodes[j], qs, qv);
    }
  }

  lemma KeptStep(g: Graph, qs: seq<string>, qv: nat, rewires: map<string, string>, known: set<string>,
                 k: nat, e: Env, f: Env, values: seq<Tensor>)
    requires Suitable(g, qs, qv) && RewiresRight(g, qs, rewires) && k < |g.nodes|
    requires !UsesQ(g.nodes[k], qs) && Agree(g, qs, qv, rewires, known, e, f)
    ensures var os := g.nodes[k].outputs;
            Agree(g, qs, qv, rewires, known + (set o | o in os), Bind(e, os, values), Bind(f, os, values))
  {
    var os := g.nodes[k].outputs;
    var e', f' := Bind(e, os, values), Bind(f, os, values);
    assert OutputsFit(g, k, qs);
    forall n | !Hidden(g, qs, n) ensures Arg(e', n) == Arg(f', n) {
      BindAgrees(e, f, os, values, n);
    }
    forall q | q in qs ensures q in e' && e'[q] == Index(qv) {
      BindKeeps(e, os, values, q);
    }
    forall t | IsSource(g, qs, t) ensures HoldsTable(g, qv, t, e', f') {
      assert HoldsTable(g, qv, t, e, f) && IsRow(g, qs, RowName(t));
      BindKeeps(e, os, values, t);
      BindKeeps(f, os, values, RowName(t));
    }
    forall n | n in rewires
      ensures n !in os && (n in e' <==> n in e) && (n in e ==> rewires[n] in f' && e'[n] == f'[rewires[n]])
    {
      RewiredKept(g, qs, qv, rewires, k, n);
      BindKeeps(e, os, values, n);
      BindKeeps(f, os, values, rewires[n]);
    }
  }

  /** A kept node writes neither a look-up's output nor a row. */
  lemma RewiredKept(g: Graph, qs: seq<string>, qv: nat, rewires: map<string, string>, k: nat, n: string)
    requires Suitable(g, qs, qv) && RewiresRight(g, qs, rewires) && k < |g.nodes| && !UsesQ(g.nodes[k], qs) && n in rewires
    ensures n !in g.nodes[k].outputs && rewires[n] !in g.nodes[k].outputs
  {
    var j :| 0 <= j < |g.nodes| && UsesQ(g.nodes[j], qs) && n in g.nodes[j].outputs;
    assert LookUpFits(g, g.nodes[j], qs, qv) && OutputsFit(g, k, qs);
    var t := g.nodes[j].inputs[0];
    assert IsSource(g, qs, t) && rewires[n] == RowName(t) && IsRow(g, qs, rewires[n]);
  }

  lemma {:induction false} RunsAgree(m: Meaning, g: Graph, qs: seq<string>, qv: nat, rewires: map<string, string>,
                                     known: set<string>, k: nat, e: Env, f: Env)
    requires GathersRows(m) && Suitable(g, qs, qv) && RewiresRight(g, qs, rewires) && k <= |g.nodes|
    requires Agree(g, qs, qv, rewires, known, e, f) && Topological(g.nodes[k..], known)
    ensures Agree(g, qs, qv, rewires, KnownAfter(g.nodes[k..], known),
                  Run(m, g.nodes[k..], e), Run(m, Kept(g.nodes[k..], qs, rewires), f))
    decreases |g.nodes| - k
  {
    var nodes := g.nodes[k..];
    if nodes != [] {
      var n := nodes[0];
      var known' := known + (set o | o in n.outputs);
      assert nodes[1..] == g.nodes[k + 1..] && n == g.nodes[k];
      var values := m(n.op, Args(e, n.inputs));
      var e' := Bind(e, n.outputs, values);
      var rest := Kept(nodes[1..], qs, rewires);
      if UsesQ(n, qs) {
        LookUpStep(m, g, qs, qv, rewires, known, k, e, f);
        RunsAgree(m, g, qs, qv, rewires, known', k + 1, e', f);
        assert Kept(nodes, qs, rewires) == [] + rest == rest;
      } else {
        SameArgs(g, qs, qv, rewires, known, k, e, f);
        KeptStep(g, qs, qv, rewires, known, k, e, f, values);
        RunsAgree(m, g, qs, qv, rewires, known', k + 1, e', Bind(f, n.outputs, values));
        var first := n.(inputs := Renamed(n.inputs, rewires));
        assert Kept(nodes, qs, rewires) == [first] + rest && ([first] + rest)[1..] == rest;
      }
    }
  }

  // ---------------------------------------------------------------- the theorem

  /** Every look-up output has the row name of a table it is looked up in. */
  ghost predicate RewiresMade(g: Graph, qs: seq<string>, rewires: map<string, string>) {
    && (forall n :: n in rewires <==> IsLookedUp(g, qs, n))
    && (forall n :: n in rewires ==> MadeFrom(g, qs, n, rewires[n]))
  }

  ghost predicate MadeFrom(g: Graph, qs: seq<string>, n: string, row: string) {
    exists k :: 0 <= k < |g.nodes| && UsesQ(g.nodes[k], qs) && n in g.nodes[k].outputs
                && |g.nodes[k].inputs| > 0 && row == RowName(g.nodes[k].inputs[0])
  }

  /** One table for every source, with its row name, its shape and its bytes. */
  ghost predicate TablesRight(g: Graph, qs: seq<string>, tables: seq<QpTable>) {
    && (forall i :: 0 <= i < |tables| ==> TableOf(g, tables[i]) && IsSource(g, qs, tables[i].source))
    && (forall t :: IsSource(g, qs, t) ==> exists i :: 0 <= i < |tables| && tables[i].source == t)
    && (forall i, j :: 0 <= i < j < |tables| ==> tables[i].name != tables[j].name)
  }

  predicate TableOf(g: Graph, t: QpTable) {
    && t.name == RowName(t.source) && t.source in g.inits && IsTable(g.inits[t.source])
    && t.rows == g.inits[t.source].dims[0] && t.cols == g.inits[t.source].dims[1] && t.data == g.inits[t.source].data
  }

  /** The row the host binds to a table's input. */
  function HostRow(t: QpTable, qv: nat): Tensor
    requires |t.data| == t.rows * t.cols && qv < t.rows
  {
    RowInTable(Tensor([t.rows, t.cols, 1, 1], true, t.data), qv);
    Tensor([1, t.cols, 1, 1], true, t.data[qv * t.cols..qv * t.cols + t.cols])
  }

  function HostRows(g: Graph, tables: seq<QpTable>, qv: nat): Env
    requires forall i :: 0 <= i < |tables| ==> TableOf(g, tables[i]) && qv < tables[i].rows
  {
    if tables == [] then map[]
    else
      assert TableOf(g, tables[0]);
      HostRows(g, tables[1..], qv)[tables[0].name := HostRow(tables[0], qv)]
  }

  /** The sources of the tables: initialisers the rewrite drops. */
  function Dropped(tables: seq<QpTable>): set<string> {
    set i | 0 <= i < |tables| :: tables[i].source
  }

  function Rewritten(g: Graph, qs: seq<string>, rewires: map<string, string>, tables: seq<QpTable>): Graph {
    Graph(Without(g.inputs + seq(|tables|, i requires 0 <= i < |tables| => tables[i].name), g.inits.Keys, qs),
          g.inits - Dropped(tables), Kept(g.nodes, qs, rewires), g.outputs)
  }

  /** The inputs but for the indices. */
  function Without(inputs: seq<string>, inits: set<string>, qs: seq<string>): seq<string> {
    if inputs == [] then []
    else
      var n := |inputs| - 1;
      Without(inputs[..n], inits, qs) + if inputs[n] in inits || inputs[n] !in qs then [inputs[n]] else []
  }

  function OriginalEnv(g: Graph, qs: seq<string>, qv: nat, feed: Env): Env {
    g.inits + feed + map q | q in qs :: Index(qv)
  }

  function RewrittenEnv(g: Graph, tables: seq<QpTable>, qv: nat, feed: Env): Env
    requires forall i :: 0 <= i < |tables| ==> TableOf(g, tables[i]) && qv < tables[i].rows
  {
    (g.inits - Dropped(tables)) + feed + HostRows(g, tables, qv)
  }

  lemma {:induction false} HostRowsAre(g: Graph, tables: seq<QpTable>, qv: nat, n: string)
    requires forall i :: 0 <= i < |tables| ==> TableOf(g, tables[i]) && qv < tables[i].rows
    requires forall i, j :: 0 <= i < j < |tables| ==> tables[i].name != tables[j].name
    ensures n in HostRows(g, tables, qv) <==> exists i :: 0 <= i < |tables| && tables[i].name == n
    ensures forall i :: 0 <= i < |tables| && tables[i].name == n ==>
              HostRows(g, tables, qv)[n] == Row(g.inits[tables[i].source], qv)
  {
    if tables != [] {
      HostRowsAre(g, tables[1..], qv, n);
      assert TableOf(g, tables[0]);
      assert forall i :: 0 < i < |tables| ==> tables[i] == tables[1..][i - 1];
      if n == tables[0].name {
        assert exists i :: 0 <= i < |tables| && tables[i].name == n;
      }
    }
  }

  lemma MadeIsRight(g: Graph, qs: seq<string>, qv: nat, rewires: map<string, string>)
    requires Suitable(g, qs, qv) && RewiresMade(g, qs, rewires)
    ensures RewiresRight(g, qs, rewires)
  {
    forall k, o | 0 <= k < |g.nodes| && UsesQ(g.nodes[k], qs) && o in g.nodes[k].outputs && |g.nodes[k].inputs| > 0
      ensures o in rewires && rewires[o] == RowName(g.nodes[k].inputs[0])
    {
      assert IsLookedUp(g, qs, o) && MadeFrom(g, qs, o, rewires[o]);
      var j :| 0 <= j < |g.nodes| && UsesQ(g.nodes[j], qs) && o in g.nodes[j].outputs
               && |g.nodes[j].inputs| > 0 && rewires[o] == RowName(g.nodes[j].inputs[0]);
      assert OutputsFit(g, k, qs);
    }
  }

  lemma SourceFits(g: Graph, qs: seq<string>, qv: nat, t: string)
    requires Suitable(g, qs, qv) && IsSource(g, qs, t)
    ensures t in g.inits && t !in qs && IsTable(g.inits[t]) && qv < g.inits[t].dims[0]
  {
    var j :| 0 <= j < |g.nodes| && UsesQ(g.nodes[j], qs) && |g.nodes[j].inputs| > 0 && g.nodes[j].inputs[0] == t;
    assert LookUpFits(g, g.nodes[j], qs, qv);
  }

  lemma TablesFit(g: Graph, qs: seq<string>, qv: nat, tables: seq<QpTable>)
    requires Suitable(g, qs, qv) && TablesRight(g, qs, tables)
    ensures forall i :: 0 <= i < |tables| ==> TableOf(g, tables[i]) && qv < tables[i].rows
  {
    forall i | 0 <= i < |tables| ensures TableOf(g, tables[i]) && qv < tables[i].rows {
      SourceFits(g, qs, qv, tables[i].source);
    }
  }

  lemma StartTable(g: Graph, qs: seq<string>, qv: nat, tables: seq<QpTable>, feed: Env, t: string)
    requires Suitable(g, qs, qv) && TablesRight(g, qs, tables) && IsSource(g, qs, t)
    requires forall i :: 0 <= i < |tables| ==> TableOf(g, tables[i]) && qv < tables[i].rows
    requires forall n :: n in feed ==> !Hidden(g, qs, n)
    ensures HoldsTable(g, qv, t, OriginalEnv(g, qs, qv, feed), RewrittenEnv(g, tables, qv, feed))
  {
    SourceFits(g, qs, qv, t);
    var i :| 0 <= i < |tables| && tables[i].source == t;
    assert TableOf(g, tables[i]) && Hidden(g, qs, t);
    HostRowsAre(g, tables, qv, RowName(t));
  }

  lemma StartOrdinary(g: Graph, qs: seq<string>, qv: nat, tables: seq<QpTable>, feed: Env, n: string)
    requires TablesRight(g, qs, tables) && !Hidden(g, qs, n)
    requires forall i :: 0 <= i < |tables| ==> TableOf(g, tables[i]) && qv < tables[i].rows
    ensures Arg(OriginalEnv(g, qs, qv, feed), n) == Arg(RewrittenEnv(g, tables, qv, feed), n)
  {
    HostRowsAre(g, tables, qv, n);
    assert forall i :: 0 <= i < |tables| && tables[i].name == n ==> TableOf(g, tables[i]) && IsRow(g, qs, n);
  }

  lemma StartsAgree(g: Graph, qs: seq<string>, qv: nat, rewires: map<string, string>, tables: seq<QpTable>, feed: Env)
    requires Suitable(g, qs, qv) && TablesRight(g, qs, tables) && RewiresRight(g, qs, rewires)
    requires forall i :: 0 <= i < |tables| ==> TableOf(g, tables[i]) && qv < tables[i].rows
    requires forall n :: n in feed ==> !Hidden(g, qs, n)
    ensures Agree(g, qs, qv, rewires, g.inits.Keys + (set i | i in g.inputs),
                  OriginalEnv(g, qs, qv, feed), RewrittenEnv(g, tables, qv, feed))
  {
    var e, f := OriginalEnv(g, qs, qv, feed), RewrittenEnv(g, tables, qv, feed);
    forall n | !Hidden(g, qs, n) ensures Arg(e, n) == Arg(f, n) {
      StartOrdinary(g, qs, qv, tables, feed, n);
    }
    forall t | IsSource(g, qs, t) ensures HoldsTable(g, qv, t, e, f) {
      StartTable(g, qs, qv, tables, feed, t);
    }
    var known := g.inits.Keys + (set i | i in g.inputs);
    forall n | n in rewires ensures n !in known && n !in e {
      RewiredIsNew(g, qs, qv, rewires, feed, n);
    }
  }

  lemma RewiredIsNew(g: Graph, qs: seq<string>, qv: nat, rewires: map<string, string>, feed: Env, n: string)
    requires Suitable(g, qs, qv) && RewiresRight(g, qs, rewires) && n in rewires
    requires forall n :: n in feed ==> !Hidden(g, qs, n)
    ensures n !in g.inits.Keys + (set i | i in g.inputs) && n !in OriginalEnv(g, qs, qv, feed)
  {
    var j :| 0 <= j < |g.nodes| && UsesQ(g.nodes[j], qs) && n in g.nodes[j].outputs;
    assert OutputsFit(g, j, qs) && Hidden(g, qs, n);
  }

  lemma {:induction false} OutputsKnown(nodes: seq<Node>, known: set<string>, k: nat, o: string)
    requires o in known || (k < |nodes| && o in nodes[k].outputs)
    ensures o in KnownAfter(nodes, known)
    decreases |nodes|
  {
    if nodes != [] {
      var known' := known + (set o | o in nodes[0].outputs);
      OutputsKnown(nodes[1..], known', if k == 0 then 0 else k - 1, o);
    }
  }

  predicate NobodyWrites(nodes: seq<Node>, o: string) {
    forall k :: 0 <= k < |nodes| ==> o !in nodes[k].outputs
  }

  /** A name that no node writes is there after the run exactly when it was there before. */
  lemma {:induction false} RunLeaves(m: Meaning, nodes: seq<Node>, env: Env, o: string)
    requires NobodyWrites(nodes, o)
    ensures o in Run(m, nodes, env) <==> o in env
    decreases |nodes|
  {
    if nodes != [] {
      BindKeeps(env, nodes[0].outputs, m(nodes[0].op, Args(env, nodes[0].inputs)), o);
      RunLeaves(m, nodes[1..], Bind(env, nodes[0].outputs, m(nodes[0].op, Args(env, nodes[0].inputs))), o);
    }
  }

  lemma {:induction false} KeptWrites(nodes: seq<Node>, qs: seq<string>, rewires: map<string, string>, o: string)
    requires forall k :: 0 <= k < |nodes| && o in nodes[k].outputs ==> UsesQ(nodes[k], qs)
    ensures NobodyWrites(Kept(nodes, qs, rewires), o)
    decreases |nodes|
  {
    if nodes != [] {
      assert forall k :: 0 <= k < |nodes[1..]| ==> nodes[1..][k] == nodes[k + 1];
      KeptWrites(nodes[1..], qs, rewires, o);
      var n := nodes[0].(inputs := Renamed(nodes[0].inputs, rewires));
      assert NobodyWrites([], o) && (!UsesQ(nodes[0], qs) ==> NobodyWrites([n], o));
    }
  }

  /** No kept node writes an index, a table or what a look-up writes. */
  lemma HiddenUnwritten(g: Graph, qs: seq<string>, qv: nat, k: nat, o: string)
    requires Suitable(g, qs, qv) && Hidden(g, qs, o) && k < |g.nodes| && o in g.nodes[k].outputs
    ensures UsesQ(g.nodes[k], qs)
  {
    assert OutputsFit(g, k, qs);
  }

  /** Indices, tables and look-ups have a value before the rewrite and none after it. */
  lemma HiddenIsLost(m: Meaning, g: Graph, qs: seq<string>, qv: nat, rewires: map<string, string>,
                     tables: seq<QpTable>, feed: Env, o: string)
    requires Suitable(g, qs, qv) && RewiresRight(g, qs, rewires) && TablesRight(g, qs, tables)
    requires forall i :: 0 <= i < |tables| ==> TableOf(g, tables[i]) && qv < tables[i].rows
    requires (forall n :: n in feed ==> !Hidden(g, qs, n)) && (forall q :: q in qs ==> q !in g.inits)
    requires Hidden(g, qs, o) && !IsRow(g, qs, o)
    ensures Arg(Run(m, Kept(g.nodes, qs, rewires), RewrittenEnv(g, tables, qv, feed)), o) == None
  {
    forall k | 0 <= k < |g.nodes| && o in g.nodes[k].outputs ensures UsesQ(g.nodes[k], qs) {
      HiddenUnwritten(g, qs, qv, k, o);
    }
    KeptWrites(g.nodes, qs, rewires, o);
    HostRowsAre(g, tables, qv, o);
    if IsLookedUp(g, qs, o) {
      RewiredIsNew(g, qs, qv, rewires, feed, o);
    }
    RunLeaves(m, Kept(g.nodes, qs, rewires), RewrittenEnv(g, tables, qv, feed), o);
  }

  lemma HiddenHasValue(g: Graph, qs: seq<string>, qv: nat, rewires: map<string, string>, known: set<string>,
                       e: Env, f: Env, o: string)
    requires Suitable(g, qs, qv) && RewiresRight(g, qs, rewires)
    requires Agree(g, qs, qv, rewires, KnownAfter(g.nodes, known), e, f)
    requires Hidden(g, qs, o) && !IsRow(g, qs, o)
    ensures Arg(e, o).Some?
  {
    if IsLookedUp(g, qs, o) {
      var k :| 0 <= k < |g.nodes| && UsesQ(g.nodes[k], qs) && o in g.nodes[k].outputs;
      OutputsKnown(g.nodes, known, k, o);
      RewiredNamed(g, qs, qv, rewires, o);
    } else if IsSource(g, qs, o) {
      assert HoldsTable(g, qv, o, e, f);
    }
  }

  /**
   * The rewrite preserves meaning exactly when no graph output is an index, a table or a look-up:
   * with every row input bound to its table's row qv, the rewritten graph gives every output the
   * value the original gives it when all its indices are qv, for every graph of the form it is meant
   * for, every meaning of the other operators and all other inputs.
   */
  lemma RewriteKeepsMeaning(m: Meaning, g: Graph, qs: seq<string>, qv: nat, rewires: map<string, string>,
                            tables: seq<QpTable>, feed: Env)
    requires GathersRows(m) && Suitable(g, qs, qv) && RewiresMade(g, qs, rewires) && TablesRight(g, qs, tables)
    requires (forall n :: n in feed ==> !Hidden(g, qs, n)) && (forall q :: q in qs ==> q !in g.inits)
    ensures forall i :: 0 <= i < |tables| ==> TableOf(g, tables[i]) && qv < tables[i].rows
    ensures var h := Rewritten(g, qs, rewires, tables);
            && h.outputs == g.outputs
            && ((forall o :: o in g.outputs ==>
                   Arg(Run(m, g.nodes, OriginalEnv(g, qs, qv, feed)), o)
                   == Arg(Run(m, h.nodes, RewrittenEnv(g, tables, qv, feed)), o))
                <==> forall o :: o in g.outputs ==> !Hidden(g, qs, o))
  {
    MadeIsRight(g, qs, qv, rewires);
    TablesFit(g, qs, qv, tables);
    StartsAgree(g, qs, qv, rewires, tables, feed);
    assert g.nodes[0..] == g.nodes;
    var e, f := OriginalEnv(g, qs, qv, feed), RewrittenEnv(g, tables, qv, feed);
    var known := g.inits.Keys + (set i | i in g.inputs);
    RunsAgree(m, g, qs, qv, rewires, known, 0, e, f);
    forall o | o in g.outputs && Hidden(g, qs, o)
      ensures Arg(Run(m, g.nodes, e), o) != Arg(Run(m, Kept(g.nodes, qs, rewires), f), o)
    {
      HiddenHasValue(g, qs, qv, rewires, known, Run(m, g.nodes, e), Run(m, Kept(g.nodes, qs, rewires), f), o);
      HiddenIsLost(m, g, qs, qv, rewires, tables, feed, o);
    }
  }
}
