/** What the graph rewrite takes and makes, name by name, and what the evaluation of a graph means. */
module QpDynamicRules {
  import opened Words
  import opened QpDynamic
  import opened QpDynamicPass

  // ---------------------------------------------------------------- names and rows

  /** The input that stands for a table: what follows the last dot of the table's name, and "_row". */
  lemma {:induction false} RowNameIs(path: string, last: string)
    requires '.' !in last
    ensures RowName(last) == last + "_row" && RowName(path + "." + last) == last + "_row"
    decreases |path|
  {
    var name := path + "." + last;
    assert name[|path|] == '.';
    if path == [] {
      assert name[0] == '.' && name[1..] == last;
    } else {
      assert name[1..] == path[1..] + "." + last;
      assert '.' in name[1..] by { assert name[1..][|path| - 1] == '.'; }
      RowNameIs(path[1..], last);
    }
  }

  /** A row of a table is its C numbers from q * C on, and the host binds the same. */
  lemma RowIs(t: Tensor, q: nat, table: QpTable, j: nat)
    requires IsTable(t) && q < t.dims[0] && j < t.dims[1]
    requires table.rows == t.dims[0] && table.cols == t.dims[1] && table.data == t.data
    ensures Row(t, q).dims == [1, t.dims[1], 1, 1] && Row(t, q).half && |Row(t, q).data| == t.dims[1]
    ensures 0 <= q * t.dims[1] + j < |t.data| && Row(t, q).data[j] == t.data[q * t.dims[1] + j]
    ensures HostRow(table, q) == Row(t, q)
  {
    RowInTable(t, q);
  }

  // ---------------------------------------------------------------- what is accepted

  /** The indices are the graph inputs named like one that have no initialiser. */
  lemma {:induction false} IndicesAre(g: Graph, names: seq<string>, isQ: string -> bool, n: string)
    ensures n in QInputs(g, names, isQ) <==> n in names && n !in g.inits && isQ(n)
  {
    if names != [] {
      var k := |names| - 1;
      IndicesAre(g, names[..k], isQ, n);
      assert names == names[..k] + [names[k]];
    }
  }

  /** A look-up in plain terms: a gather by q from a half precision table [N, C, 1, 1] that only gathers read. */
  predicate PlainLookUp(g: Graph, n: Node, q: string) {
    && n.op.Gather? && |n.inputs| >= 2 && n.inputs[1] == q && n.inputs[0] in g.inits
    && var t := g.inits[n.inputs[0]];
       && |t.dims| == 4 && t.dims[2] == 1 && t.dims[3] == 1 && t.half && |t.data| == t.dims[0] * t.dims[1]
       && forall k :: 0 <= k < |g.nodes| && n.inputs[0] in g.nodes[k].inputs ==> g.nodes[k].op.Gather?
  }

  /** Two nodes read tables of different names with one row name. */
  predicate SameRowName(g: Graph, j: nat, k: nat)
    requires j < |g.nodes| && k < |g.nodes|
  {
    |g.nodes[j].inputs| > 0 && |g.nodes[k].inputs| > 0 && g.nodes[j].inputs[0] != g.nodes[k].inputs[0]
    && RowName(g.nodes[j].inputs[0]) == RowName(g.nodes[k].inputs[0])
  }

  predicate Reads(g: Graph, k: nat, qs: seq<string>)
    requires k < |g.nodes|
  {
    exists i :: 0 <= i < |g.nodes[k].inputs| && g.nodes[k].inputs[i] in qs
  }

  predicate IsRead(g: Graph, q: string) {
    exists k :: 0 <= k < |g.nodes| && q in g.nodes[k].inputs
  }

  predicate AllLookUps(g: Graph, q: string) {
    forall k :: 0 <= k < |g.nodes| && q in g.nodes[k].inputs ==> PlainLookUp(g, g.nodes[k], q)
  }

  predicate RowNamesDiffer(g: Graph, qs: seq<string>) {
    forall j: nat, k: nat :: j < |g.nodes| && k < |g.nodes| && Reads(g, j, qs) && Reads(g, k, qs) ==> !SameRowName(g, j, k)
  }

  lemma LookUpIs(g: Graph, n: Node, q: string)
    ensures PlainLookUp(g, n, q) <==> LookUpOk(g, n, q)
  {
    if |n.inputs| > 0 {
      assert forall k :: 0 <= k < |g.nodes| ==> (n.inputs[0] in g.nodes[k].inputs <==> Consumes(g.nodes[k], n.inputs[0]));
    }
  }

  lemma IndexTaken(g: Graph, q: string)
    ensures IsRead(g, q) <==> IsConsumed(g, q)
    ensures AllLookUps(g, q) <==> forall k :: 0 <= k < |g.nodes| && Consumes(g.nodes[k], q) ==> LookUpOk(g, g.nodes[k], q)
  {
    assert forall k :: 0 <= k < |g.nodes| ==> (q in g.nodes[k].inputs <==> Consumes(g.nodes[k], q));
    forall k | 0 <= k < |g.nodes| ensures PlainLookUp(g, g.nodes[k], q) <==> LookUpOk(g, g.nodes[k], q) {
      LookUpIs(g, g.nodes[k], q);
    }
  }

  lemma NamesDiffer(g: Graph, qs: seq<string>)
    ensures RowNamesDiffer(g, qs) <==>
              forall j, k :: 0 <= j < |g.nodes| && 0 <= k < |g.nodes| && UsesQ(g.nodes[j], qs) && UsesQ(g.nodes[k], qs) ==> !Clashes(g, j, k)
  {
    assert forall k: nat :: k < |g.nodes| ==> (Reads(g, k, qs) <==> UsesQ(g.nodes[k], qs));
    assert forall j: nat, k: nat :: j < |g.nodes| && k < |g.nodes| ==> (SameRowName(g, j, k) <==> Clashes(g, j, k));
  }

  /**
   * When the pass succeeds: there is an index, each is read, whatever reads one is a look-up by it, and no two
   * of the tables want the same row name.
   */
  lemma ConvertsExactly(g: Graph, qs: seq<string>)
    ensures Convertible(g, qs)
            <==> qs != [] && RowNamesDiffer(g, qs) && forall a :: 0 <= a < |qs| ==> IsRead(g, qs[a]) && AllLookUps(g, qs[a])
  {
    NamesDiffer(g, qs);
    forall a | 0 <= a < |qs|
      ensures IsRead(g, qs[a]) <==> IsConsumed(g, qs[a])
      ensures AllLookUps(g, qs[a]) <==> forall k :: 0 <= k < |g.nodes| && Consumes(g.nodes[k], qs[a]) ==> LookUpOk(g, g.nodes[k], qs[a])
    {
      IndexTaken(g, qs[a]);
    }
  }

  // ---------------------------------------------------------------- what is made

  lemma {:induction false} InputsKept(inputs: seq<string>, inits: set<string>, qs: seq<string>, n: string)
    ensures n in Without(inputs, inits, qs) <==> n in inputs && (n in inits || n !in qs)
  {
    if inputs != [] {
      var k := |inputs| - 1;
      InputsKept(inputs[..k], inits, qs, n);
      assert inputs == inputs[..k] + [inputs[k]];
    }
  }

  /** The node at i that stays, with its inputs renamed. */
  predicate Stays(nodes: seq<Node>, i: nat, qs: seq<string>, rewires: map<string, string>, n: Node)
    requires i < |nodes|
  {
    && (forall j :: 0 <= j < |nodes[i].inputs| ==> nodes[i].inputs[j] !in qs)
    && n.op == nodes[i].op && n.outputs == nodes[i].outputs && |n.inputs| == |nodes[i].inputs|
    && forall j :: 0 <= j < |n.inputs| ==>
         n.inputs[j] == if nodes[i].inputs[j] in rewires then rewires[nodes[i].inputs[j]] else nodes[i].inputs[j]
  }

  /** The places the kept nodes come from. */
  predicate KeptAt(nodes: seq<Node>, qs: seq<string>, rewires: map<string, string>, from: seq<nat>, kept: seq<Node>) {
    && |from| == |kept|
    && (forall a :: 0 <= a < |from| ==> from[a] < |nodes| && Stays(nodes, from[a], qs, rewires, kept[a]))
    && (forall a, b :: 0 <= a < b < |from| ==> from[a] < from[b])
    && (forall i :: 0 <= i < |nodes| ==> (UsesQ(nodes[i], qs) <==> i !in from))
  }

  /** The kept nodes are those that read no index, in their order, with look-ups replaced by row names. */
  lemma {:induction false} NodesKept(nodes: seq<Node>, qs: seq<string>, rewires: map<string, string>) returns (from: seq<nat>)
    ensures KeptAt(nodes, qs, rewires, from, Kept(nodes, qs, rewires))
    decreases |nodes|
  {
    from := [];
    if nodes != [] {
      var rest := NodesKept(nodes[1..], qs, rewires);
      var kept := Kept(nodes[1..], qs, rewires);
      from := KeptLater(nodes, qs, rewires, rest, kept);
      if !UsesQ(nodes[0], qs) {
        var n := nodes[0].(inputs := Renamed(nodes[0].inputs, rewires));
        from := KeptFirst(nodes, qs, rewires, from, kept, n);
        assert Kept(nodes, qs, rewires) == [n] + kept;
      } else {
        assert Kept(nodes, qs, rewires) == [] + kept == kept;
      }
    }
  }

  /** The same places counted in the longer list, leaving its first node open. */
  lemma KeptLater(nodes: seq<Node>, qs: seq<string>, rewires: map<string, string>, rest: seq<nat>, kept: seq<Node>) returns (later: seq<nat>)
    requires nodes != [] && KeptAt(nodes[1..], qs, rewires, rest, kept)
    ensures |later| == |kept| && 0 !in later
    ensures forall a :: 0 <= a < |later| ==> later[a] < |nodes| && Stays(nodes, later[a], qs, rewires, kept[a])
    ensures forall a, b :: 0 <= a < b < |later| ==> later[a] < later[b]
    ensures forall i :: 0 < i < |nodes| ==> (UsesQ(nodes[i], qs) <==> i !in later)
    ensures UsesQ(nodes[0], qs) ==> KeptAt(nodes, qs, rewires, later, kept)
  {
    later := seq(|rest|, a requires 0 <= a < |rest| => rest[a] + 1);
    forall a | 0 <= a < |later| ensures later[a] < |nodes| && Stays(nodes, later[a], qs, rewires, kept[a]) {
      assert nodes[later[a]] == nodes[1..][rest[a]];
      assert Stays(nodes[1..], rest[a], qs, rewires, kept[a]);
    }
    forall i | 0 < i < |nodes| ensures UsesQ(nodes[i], qs) <==> i !in later {
      assert nodes[i] == nodes[1..][i - 1];
      OneMore(rest, later, i);
    }
  }

  lemma OneMore(rest: seq<nat>, later: seq<nat>, i: nat)
    requires i > 0 && |later| == |rest| && forall a :: 0 <= a < |rest| ==> later[a] == rest[a] + 1
    ensures i in later <==> i - 1 in rest
  {
    if i in later {
      var a :| 0 <= a < |later| && later[a] == i;
      assert rest[a] == i - 1;
    }
    if i - 1 in rest {
      var a :| 0 <= a < |rest| && rest[a] == i - 1;
      assert later[a] == i;
    }
  }

  lemma KeptFirst(nodes: seq<Node>, qs: seq<string>, rewires: map<string, string>, later: seq<nat>, kept: seq<Node>, n: Node)
    returns (from: seq<nat>)
    requires nodes != [] && !UsesQ(nodes[0], qs) && n == nodes[0].(inputs := Renamed(nodes[0].inputs, rewires))
    requires |later| == |kept| && 0 !in later
    requires forall a :: 0 <= a < |later| ==> later[a] < |nodes| && Stays(nodes, later[a], qs, rewires, kept[a])
    requires forall a, b :: 0 <= a < b < |later| ==> later[a] < later[b]
    requires forall i :: 0 < i < |nodes| ==> (UsesQ(nodes[i], qs) <==> i !in later)
    ensures KeptAt(nodes, qs, rewires, from, [n] + kept)
  {
    from := [0] + later;
    assert Stays(nodes, 0, qs, rewires, n);
    hide Stays, UsesQ;
  }

  /** The rewritten graph: row inputs for indices, no tables, the kept nodes, the same outputs. */
  lemma RewrittenIs(g: Graph, qs: seq<string>, rewires: map<string, string>, tables: seq<QpTable>, n: string)
    ensures var h := Rewritten(g, qs, rewires, tables);
            && h.outputs == g.outputs && h.nodes == Kept(g.nodes, qs, rewires)
            && (n in h.inputs <==> (n in g.inputs || exists i :: 0 <= i < |tables| && tables[i].name == n) && (n in g.inits || n !in qs))
            && (n in h.inits <==> n in g.inits && forall i :: 0 <= i < |tables| ==> tables[i].source != n)
            && (n in h.inits ==> h.inits[n] == g.inits[n])
  {
    var names := seq(|tables|, i requires 0 <= i < |tables| => tables[i].name);
    InputsKept(g.inputs + names, g.inits.Keys, qs, n);
    assert n in names <==> exists i :: 0 <= i < |tables| && tables[i].name == n by {
      if n in names {
        var i :| 0 <= i < |names| && names[i] == n;
        assert tables[i].name == n;
      }
      if i :| 0 <= i < |tables| && tables[i].name == n {
        assert names[i] == n;
      }
    }
  }

  /** Every table the host gets carries its source's numbers, row after row, and no source is left without one. */
  lemma TablesCarry(g: Graph, qs: seq<string>, tables: seq<QpTable>, i: nat)
    requires TablesRight(g, qs, tables) && i < |tables|
    ensures var t := tables[i];
            && t.source in g.inits && t.name == RowName(t.source)
            && g.inits[t.source].dims == [t.rows, t.cols, 1, 1] && t.data == g.inits[t.source].data && |t.data| == t.rows * t.cols
  {
    assert TableOf(g, tables[i]);
  }

  // ---------------------------------------------------------------- what a graph computes

  lemma {:induction false} BindSets(env: Env, names: seq<string>, values: seq<Tensor>, i: nat)
    requires i < |names| && i < |values| && forall a, b :: 0 <= a < b < |names| ==> names[a] != names[b]
    ensures names[i] in Bind(env, names, values) && Bind(env, names, values)[names[i]] == values[i]
    decreases |names|
  {
    if i > 0 {
      BindSets(env[names[0] := values[0]], names[1..], values[1..], i - 1);
    } else {
      BindKeeps(env[names[0] := values[0]], names[1..], values[1..], names[0]);
    }
  }

  lemma {:induction false} RunAppend(m: Meaning, a: seq<Node>, b: seq<Node>, env: Env)
    ensures Run(m, a + b, env) == Run(m, b, Run(m, a, env))
    decreases |a|
  {
    if a == [] {
      assert a + b == b;
    } else {
      assert (a + b)[1..] == a[1..] + b && (a + b)[0] == a[0];
      RunAppend(m, a[1..], b, Bind(env, a[0].outputs, m(a[0].op, Args(env, a[0].inputs))));
    }
  }

  /**
   * A node computes its outputs, in order, from the values its inputs have when the nodes before it have run;
   * an empty or unknown name is an absent input; and it changes nothing else.
   */
  lemma NodeComputes(m: Meaning, nodes: seq<Node>, n: Node, env: Env, i: nat, other: string)
    requires forall a, b :: 0 <= a < b < |n.outputs| ==> n.outputs[a] != n.outputs[b]
    ensures var before, after := Run(m, nodes, env), Run(m, nodes + [n], env);
            var args := seq(|n.inputs|, j requires 0 <= j < |n.inputs| =>
                          if n.inputs[j] != "" && n.inputs[j] in before then Some(before[n.inputs[j]]) else None);
            && (i < |n.outputs| && i < |m(n.op, args)| ==> n.outputs[i] in after && after[n.outputs[i]] == m(n.op, args)[i])
            && (other !in n.outputs ==> (other in after <==> other in before) && (other in before ==> after[other] == before[other]))
  {
    var before := Run(m, nodes, env);
    var args := seq(|n.inputs|, j requires 0 <= j < |n.inputs| =>
                  if n.inputs[j] != "" && n.inputs[j] in before then Some(before[n.inputs[j]]) else None);
    RunAppend(m, nodes, [n], env);
    assert args == Args(before, n.inputs);
    var values := m(n.op, args);
    assert Run(m, [n], before) == Run(m, [], Bind(before, n.outputs, values)) == Bind(before, n.outputs, values);
    if i < |n.outputs| && i < |values| { BindSets(before, n.outputs, values, i); }
    if other !in n.outputs { BindKeeps(before, n.outputs, values, other); }
  }
}
