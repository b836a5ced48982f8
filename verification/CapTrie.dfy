/** The trie of `src/termbox2.h` that tells the key sequences of a terminal apart. */
module CapTrie {

  /** What a sequence means. */
  datatype Meaning = Meaning(key: nat, mod: nat)

  /** A node; its children are known by their places. */
  datatype Node = Node(c: char, children: seq<nat>, isLeaf: bool, meaning: Meaning)

  datatype Status = Ok | Collision

  const ROOT: Node := Node('\0', [], false, Meaning(0, 0))

  /** `x` begins one of the sequences. */
  predicate Begins(table: map<string, Meaning>, x: string) {
    exists cap :: cap in table && x <= cap
  }

  /** Some sequence goes on behind `x`. */
  predicate GoesOn(table: map<string, Meaning>, x: string) {
    exists cap :: cap in table && x <= cap && |x| < |cap|
  }

  predicate Linked(nodes: seq<Node>, paths: seq<string>, parents: seq<nat>, k: nat)
    requires 1 <= k < |nodes| == |paths| == |parents|
  {
    var p := parents[k];
    p < k && paths[k] == paths[p] + [nodes[k].c] && k in nodes[p].children
  }

  /** The places of the children of `i` are places of nodes below it. */
  predicate ChildrenOk(nodes: seq<Node>, parents: seq<nat>, i: nat)
    requires i < |nodes| == |parents|
  {
    forall j :: 0 <= j < |nodes[i].children| ==>
      1 <= nodes[i].children[j] < |nodes| && parents[nodes[i].children[j]] == i
  }

  predicate Distinct(paths: seq<string>) {
    forall i, j :: 0 <= i < j < |paths| ==> paths[i] != paths[j]
  }

  /** Every node but the root hangs below another one, and no two nodes stand for the same characters. */
  predicate Shape(nodes: seq<Node>, paths: seq<string>, parents: seq<nat>) {
    && |nodes| == |paths| == |parents| >= 1 && paths[0] == ""
    && (forall k :: 1 <= k < |nodes| ==> Linked(nodes, paths, parents, k))
    && (forall i :: 0 <= i < |nodes| ==> ChildrenOk(nodes, parents, i))
    && Distinct(paths)
  }

  predicate LeafOk(node: Node, path: string, table: map<string, Meaning>) {
    (node.isLeaf <==> path in table) && (node.isLeaf ==> node.meaning == table[path])
  }

  /** The leaves are the sequences that were added, and mean what these mean. */
  predicate Leaves(nodes: seq<Node>, paths: seq<string>, table: map<string, Meaning>) {
    && |nodes| == |paths|
    && (forall i :: 0 <= i < |nodes| ==> LeafOk(nodes[i], paths[i], table))
    && (forall cap :: cap in table ==> cap != "" && cap in paths)
  }

  /** There is no node that no sequence needs. */
  predicate Needed(paths: seq<string>, table: map<string, Meaning>) {
    forall k :: 1 <= k < |paths| ==> Begins(table, paths[k])
  }

  // ---------------------------------------------------------------- lemmas on the shape

  /** A node that is not the root has its parent among the nodes. */
  lemma {:induction false} ChildAt(nodes: seq<Node>, paths: seq<string>, parents: seq<nat>, p: nat, c: char, k: nat)
    requires Shape(nodes, paths, parents) && p < |nodes| && k < |nodes| && paths[k] == paths[p] + [c]
    ensures k in nodes[p].children && nodes[k].c == c
  {
    assert Linked(nodes, paths, parents, k);
    var q := parents[k];
    assert paths[k][..|paths[k]| - 1] == paths[q] == paths[p];
    assert q == p;
  }

  /** All beginnings of the path of a node are paths of nodes. */
  lemma {:induction false} PrefixIsPath(nodes: seq<Node>, paths: seq<string>, parents: seq<nat>, k: nat, n: nat)
    requires Shape(nodes, paths, parents) && k < |nodes| && n <= |paths[k]|
    ensures paths[k][..n] in paths
    decreases k
  {
    if n < |paths[k]| {
      assert Linked(nodes, paths, parents, k);
      PrefixIsPath(nodes, paths, parents, parents[k], n);
      assert paths[k][..n] == paths[parents[k]][..n];
    } else {
      assert paths[k][..n] == paths[k];
    }
  }

  function WithChild(nodes: seq<Node>, p: nat, c: char): (r: seq<Node>)
    requires p < |nodes|
    ensures |r| == |nodes| + 1
  {
    nodes[p := nodes[p].(children := nodes[p].children + [|nodes|])] + [ROOT.(c := c)]
  }

  /** Without a child for a character no node stands for the longer sequence. */
  lemma {:induction false} NoSuchPath(nodes: seq<Node>, paths: seq<string>, parents: seq<nat>, p: nat, c: char)
    requires Shape(nodes, paths, parents) && p < |nodes|
    requires forall j :: 0 <= j < |nodes[p].children| ==> NotNamed(nodes, nodes[p].children[j], c)
    ensures paths[p] + [c] !in paths
  {
    forall i | 0 <= i < |paths| ensures paths[i] != paths[p] + [c] {
      if paths[i] == paths[p] + [c] {
        ChildAt(nodes, paths, parents, p, c, i);
      }
    }
  }

  lemma {:induction false} WithChildShape(nodes: seq<Node>, paths: seq<string>, parents: seq<nat>, p: nat, c: char)
    requires Shape(nodes, paths, parents) && p < |nodes| && paths[p] + [c] !in paths
    ensures Shape(WithChild(nodes, p, c), paths + [paths[p] + [c]], parents + [p])
  {
    var ns, ps, qs := WithChild(nodes, p, c), paths + [paths[p] + [c]], parents + [p];
    var n := |nodes|;
    forall k | 1 <= k < |ns| ensures Linked(ns, ps, qs, k) {
      if k < n {
        assert Linked(nodes, paths, parents, k);
      } else {
        assert ns[p].children[|nodes[p].children|] == n;
      }
    }
    forall i | 0 <= i < |ns| ensures ChildrenOk(ns, qs, i) {
      if i < n { assert ChildrenOk(nodes, parents, i); }
    }
    assert forall i :: 0 <= i < n ==> ps[i] == paths[i];
  }

  predicate NotNamed(nodes: seq<Node>, k: nat, c: char) {
    k < |nodes| ==> nodes[k].c != c
  }

  lemma {:induction false} WithChildLeaves(nodes: seq<Node>, paths: seq<string>, table: map<string, Meaning>, p: nat, c: char)
    requires p < |nodes| && Leaves(nodes, paths, table) && paths[p] + [c] !in paths
    ensures Leaves(WithChild(nodes, p, c), paths + [paths[p] + [c]], table)
  {
    var ns, ps := WithChild(nodes, p, c), paths + [paths[p] + [c]];
    forall i | 0 <= i < |ns| ensures LeafOk(ns[i], ps[i], table) {
      if i < |nodes| { assert LeafOk(nodes[i], paths[i], table); }
    }
  }

  lemma {:induction false} MarkedShape(nodes: seq<Node>, paths: seq<string>, parents: seq<nat>, k: nat, m: Meaning)
    requires Shape(nodes, paths, parents) && k < |nodes|
    ensures Shape(nodes[k := nodes[k].(isLeaf := true, meaning := m)], paths, parents)
  {
    var ns := nodes[k := nodes[k].(isLeaf := true, meaning := m)];
    forall i | 1 <= i < |ns| ensures Linked(ns, paths, parents, i) {
      assert Linked(nodes, paths, parents, i);
    }
    forall i | 0 <= i < |ns| ensures ChildrenOk(ns, parents, i) {
      assert ChildrenOk(nodes, parents, i);
    }
  }

  lemma {:induction false} MarkedLeaves(nodes: seq<Node>, paths: seq<string>, table: map<string, Meaning>, k: nat, m: Meaning)
    requires Leaves(nodes, paths, table) && Distinct(paths) && k < |nodes| && paths[k] != ""
    ensures Leaves(nodes[k := nodes[k].(isLeaf := true, meaning := m)], paths, table[paths[k] := m])
  {
    var ns, t := nodes[k := nodes[k].(isLeaf := true, meaning := m)], table[paths[k] := m];
    forall i | 0 <= i < |ns| ensures LeafOk(ns[i], paths[i], t) {
      assert LeafOk(nodes[i], paths[i], table);
      assert i != k ==> paths[i] != paths[k];
    }
  }

  lemma {:induction false} AllNeeded(paths: seq<string>, table: map<string, Meaning>, cap: string, m: Meaning)
    requires forall k :: 1 <= k < |paths| ==> Begins(table, paths[k]) || paths[k] <= cap
    ensures Needed(paths, table[cap := m])
  {
    forall k | 1 <= k < |paths| ensures Begins(table[cap := m], paths[k]) {
      if Begins(table, paths[k]) {
        var known :| known in table && paths[k] <= known;
        assert known in table[cap := m];
      } else {
        assert cap in table[cap := m];
      }
    }
  }

  lemma {:induction false} PathBegins(nodes: seq<Node>, paths: seq<string>, parents: seq<nat>, table: map<string, Meaning>, k: nat)
    requires Shape(nodes, paths, parents) && Needed(paths, table) && k < |paths|
    ensures paths[k] == "" || Begins(table, paths[k])
  {
  }

  lemma {:induction false} WhereAdded(nodes: seq<Node>, paths: seq<string>, table: map<string, Meaning>, cap: string)
    requires Leaves(nodes, paths, table) && cap in table
    ensures cap in paths
  {
  }

  /** The paths are the beginnings of the sequences. */
  lemma {:induction false} PathsAreBeginnings(nodes: seq<Node>, paths: seq<string>, parents: seq<nat>, table: map<string, Meaning>, x: string)
    requires Shape(nodes, paths, parents) && Leaves(nodes, paths, table) && Needed(paths, table)
    ensures x in paths <==> x == "" || Begins(table, x)
  {
    hide Shape, Leaves, Needed;
    ShapeSizes(nodes, paths, parents);
    if x in paths {
      var k :| 0 <= k < |paths| && paths[k] == x;
      PathBegins(nodes, paths, parents, table, k);
    }
    if Begins(table, x) {
      var cap :| cap in table && x <= cap;
      WhereAdded(nodes, paths, table, cap);
      var k :| 0 <= k < |paths| && paths[k] == cap;
      PrefixIsPath(nodes, paths, parents, k, |x|);
      assert cap[..|x|] == x;
    }
  }

  // ---------------------------------------------------------------- the trie

  class CapTrie {
    var nodes: seq<Node>
    /** The characters that lead to a node, and the place of its parent. */
    ghost var paths: seq<string>
    ghost var parents: seq<nat>
    /** What was added. */
    ghost var table: map<string, Meaning>

    ghost predicate Valid()
      reads this
    {
      Shape(nodes, paths, parents) && Leaves(nodes, paths, table) && Needed(paths, table)
    }

    constructor ()
      ensures Valid() && table == map[]
    {
      nodes, paths, parents, table := [ROOT], [""], [0], map[];
    }

    /** The child of a node for a character, or -1. */
    method FindChild(node: nat, c: char) returns (next: int)
      requires Shape(nodes, paths, parents) && node < |nodes|
      ensures next == -1 ==> forall j :: 0 <= j < |nodes[node].children| ==> NotNamed(nodes, nodes[node].children[j], c)
      ensures next != -1 ==>
        0 <= next < |nodes| && paths[next] == paths[node] + [c] && next in nodes[node].children
    {
      assert ChildrenOk(nodes, parents, node);
      for j := 0 to |nodes[node].children|
        invariant forall i :: 0 <= i < j ==> NotNamed(nodes, nodes[node].children[i], c)
      {
        next := nodes[node].children[j];
        if nodes[next].c == c {
          assert Linked(nodes, paths, parents, next);
          return;
        }
      }
      next := -1;
    }

    method AddChild(node: nat, c: char) returns (next: nat)
      requires Shape(nodes, paths, parents) && Leaves(nodes, paths, table) && node < |nodes|
      requires forall j :: 0 <= j < |nodes[node].children| ==> NotNamed(nodes, nodes[node].children[j], c)
      modifies `nodes, `paths, `parents
      ensures Shape(nodes, paths, parents) && Leaves(nodes, paths, table)
      ensures next == |nodes| - 1 && paths == old(paths) + [old(paths)[node] + [c]]
      ensures !nodes[next].isLeaf && nodes[next].children == []
    {
      hide Shape, Leaves;
      ShapeSizes(nodes, paths, parents);
      NoSuchPath(nodes, paths, parents, node, c);
      WithChildShape(nodes, paths, parents, node, c);
      WithChildLeaves(nodes, paths, table, node, c);
      next := |nodes|;
      paths, parents := paths + [paths[node] + [c]], parents + [node];
      nodes := nodes[node := nodes[node].(children := nodes[node].children + [next])] + [ROOT.(c := c)];
    }

    /** Goes down along a sequence and makes the nodes that are missing. */
    method Walk(cap: string) returns (node: nat)
      requires Valid()
      modifies `nodes, `paths, `parents
      ensures Shape(nodes, paths, parents) && Leaves(nodes, paths, table)
      ensures forall k :: 1 <= k < |paths| ==> Begins(table, paths[k]) || paths[k] <= cap
      ensures node < |nodes| && |paths| == |nodes| && paths[node] == cap
      ensures nodes[node].isLeaf ==> (nodes, paths, parents) == old((nodes, paths, parents))
    {
      hide Shape, Leaves, Begins;
      ShapeSizes(nodes, paths, parents);
      node := 0;
      for i := 0 to |cap|
        invariant Shape(nodes, paths, parents) && Leaves(nodes, paths, table)
        invariant forall k :: 1 <= k < |paths| ==> Begins(table, paths[k]) || paths[k] <= cap
        invariant node < |nodes| && |paths| == |nodes| && paths[node] == cap[..i]
        invariant (nodes, paths, parents) == old((nodes, paths, parents))
          || (!nodes[node].isLeaf && nodes[node].children == [])
      {
        var next := FindChild(node, cap[i]);
        if next < 0 {
          next := AddChild(node, cap[i]);
          ShapeSizes(nodes, paths, parents);
        }
        node := next;
      }
    }

    /** Adds a sequence. The first meaning of a sequence stays; adding it again changes nothing. */
    method Add(cap: string, key: nat, mod: nat) returns (status: Status)
      requires Valid()
      modifies this
      ensures Valid()
      ensures status == Collision <==> cap in old(table)
      ensures table == if cap == "" || cap in old(table) then old(table) else old(table)[cap := Meaning(key, mod)]
      ensures cap == "" || cap in old(table) ==> nodes == old(nodes)
    {
      hide Shape, Needed, Begins;
      if |cap| <= 0 {
        return Ok;
      }
      var node := Walk(cap);
      assert LeafOk(nodes[node], paths[node], table);
      if nodes[node].isLeaf {
        return Collision;
      }
      hide Leaves;
      ShapeDistinct(nodes, paths, parents);
      MarkedShape(nodes, paths, parents, node, Meaning(key, mod));
      MarkedLeaves(nodes, paths, table, node, Meaning(key, mod));
      AllNeeded(paths, table, cap, Meaning(key, mod));
      nodes := nodes[node := nodes[node].(isLeaf := true, meaning := Meaning(key, mod))];
      table := table[cap := Meaning(key, mod)];
      return Ok;
    }

    /** Finds the longest beginning of the buffer that begins an added sequence, and the node for it. A
        sequence that was added whole is a leaf with its meaning. */
    method Find(buf: string) returns (last: nat, depth: nat)
      requires Valid()
      ensures last < |nodes| && depth <= |buf| && (depth == 0 || Begins(table, buf[..depth]))
      ensures forall d :: depth < d <= |buf| ==> !Begins(table, buf[..d])
      ensures |paths| == |nodes| && paths[last] == buf[..depth] && LeafOk(nodes[last], buf[..depth], table)
      ensures nodes[last].children != [] <==> GoesOn(table, buf[..depth])
    {
      hide Shape, Leaves, Needed, Begins, GoesOn;
      ShapeSizes(nodes, paths, parents);
      last, depth := 0, 0;
      for i := 0 to |buf|
        invariant depth == i && last < |nodes| && paths[last] == buf[..i]
      {
        var next := FindChild(last, buf[i]);
        if next < 0 {
          DeadEnd(nodes, paths, parents, table, last, buf, i);
          FoundNode(nodes, paths, parents, table, last);
          return;
        }
        last := next;
        depth := depth + 1;
        assert buf[..depth] == buf[..i] + [buf[i]];
        if nodes[last].isLeaf && |nodes[last].children| < 1 {
          if depth < |buf| { DeadEnd(nodes, paths, parents, table, last, buf, depth); }
          break;
        }
      }
      FoundNode(nodes, paths, parents, table, last);
    }
  }

  lemma {:induction false} ShapeSizes(nodes: seq<Node>, paths: seq<string>, parents: seq<nat>)
    requires Shape(nodes, paths, parents)
    ensures |nodes| == |paths| == |parents| >= 1 && paths[0] == ""
  {
  }

  lemma {:induction false} ShapeDistinct(nodes: seq<Node>, paths: seq<string>, parents: seq<nat>)
    requires Shape(nodes, paths, parents)
    ensures |nodes| == |paths| == |parents| >= 1 && Distinct(paths)
  {
  }

  lemma {:induction false} FoundNode(nodes: seq<Node>, paths: seq<string>, parents: seq<nat>, table: map<string, Meaning>, k: nat)
    requires Shape(nodes, paths, parents) && Leaves(nodes, paths, table) && Needed(paths, table) && k < |nodes|
    ensures LeafOk(nodes[k], paths[k], table) && (paths[k] == "" || Begins(table, paths[k]))
    ensures nodes[k].children != [] <==> GoesOn(table, paths[k])
  {
    hide Shape, Needed, Begins, GoesOn;
    PathsAreBeginnings(nodes, paths, parents, table, paths[k]);
    ChildrenIff(nodes, paths, parents, table, k);
  }

  lemma {:induction false} ChildPath(nodes: seq<Node>, paths: seq<string>, parents: seq<nat>, k: nat)
    requires Shape(nodes, paths, parents) && k < |nodes| && nodes[k].children != []
    ensures |paths| == |nodes| && exists c :: paths[k] + [c] in paths
  {
    var child := nodes[k].children[0];
    assert ChildrenOk(nodes, parents, k);
    assert Linked(nodes, paths, parents, child);
    assert paths[k] + [nodes[child].c] == paths[child];
  }

  /** A node has children exactly when some sequence goes on behind it. */
  lemma {:induction false} ChildrenIff(nodes: seq<Node>, paths: seq<string>, parents: seq<nat>, table: map<string, Meaning>, k: nat)
    requires Shape(nodes, paths, parents) && Leaves(nodes, paths, table) && Needed(paths, table) && k < |nodes|
    ensures |paths| == |nodes| && (nodes[k].children != [] <==> GoesOn(table, paths[k]))
  {
    hide Shape, Leaves, Needed;
    ShapeSizes(nodes, paths, parents);
    var x := paths[k];
    if nodes[k].children != [] {
      ChildPath(nodes, paths, parents, k);
      var c :| x + [c] in paths;
      PathsAreBeginnings(nodes, paths, parents, table, x + [c]);
      var cap :| cap in table && x + [c] <= cap;
      assert x <= cap && |x| < |cap|;
    }
    if GoesOn(table, x) {
      var cap :| cap in table && x <= cap && |x| < |cap|;
      assert x + [cap[|x|]] <= cap;
      assert Begins(table, x + [cap[|x|]]);
      PathsAreBeginnings(nodes, paths, parents, table, x + [cap[|x|]]);
      var i :| 0 <= i < |paths| && paths[i] == x + [cap[|x|]];
      ChildAt(nodes, paths, parents, k, cap[|x|], i);
    }
  }

  lemma {:induction false} BeginsShorter(table: map<string, Meaning>, x: string, n: nat)
    requires Begins(table, x) && n <= |x|
    ensures Begins(table, x[..n])
  {
    var cap :| cap in table && x <= cap;
    assert x[..n] <= cap;
  }

  /** Without a child for the next character no sequence begins with more of the buffer. */
  lemma {:induction false} DeadEnd(nodes: seq<Node>, paths: seq<string>, parents: seq<nat>, table: map<string, Meaning>,
                                   k: nat, buf: string, n: nat)
    requires Shape(nodes, paths, parents) && Leaves(nodes, paths, table) && Needed(paths, table)
    requires k < |nodes| && n < |buf| && paths[k] == buf[..n]
    requires forall j :: 0 <= j < |nodes[k].children| ==> NotNamed(nodes, nodes[k].children[j], buf[n])
    ensures forall d :: n < d <= |buf| ==> !Begins(table, buf[..d])
  {
    hide Leaves, Needed, Begins, Shape;
    NoSuchPath(nodes, paths, parents, k, buf[n]);
    forall d | n < d <= |buf| ensures !Begins(table, buf[..d]) {
      if Begins(table, buf[..d]) {
        BeginsShorter(table, buf[..d], n + 1);
        assert buf[..d][..n + 1] == buf[..n] + [buf[n]];
        PathsAreBeginnings(nodes, paths, parents, table, buf[..n] + [buf[n]]);
      }
    }
  }

  // ---------------------------------------------------------------- filling the trie

  datatype Cap = Cap(cap: string, key: nat, mod: nat)

  function Registered(table: map<string, Meaning>, caps: seq<Cap>): map<string, Meaning> {
    if caps == [] then table
    else
      var t, c := Registered(table, caps[..|caps| - 1]), caps[|caps| - 1];
      if c.cap == "" || c.cap in t then t else t[c.cap := Meaning(c.key, c.mod)]
  }

  predicate FirstAt(caps: seq<Cap>, cap: string, k: nat)
    requires k < |caps|
  {
    caps[k].cap == cap && forall j :: 0 <= j < k ==> caps[j].cap != cap
  }

  /** The table holds every sequence of the list that is not empty, with the meaning that comes first. */
  lemma {:induction false} FirstMeaningWins(caps: seq<Cap>, cap: string)
    ensures cap in Registered(map[], caps) <==> cap != "" && exists k :: 0 <= k < |caps| && caps[k].cap == cap
    ensures forall k :: 0 <= k < |caps| && cap != "" && FirstAt(caps, cap, k) ==>
      cap in Registered(map[], caps) && Registered(map[], caps)[cap] == Meaning(caps[k].key, caps[k].mod)
    decreases |caps|
  {
    if caps != [] {
      var n := |caps| - 1;
      var rest := caps[..n];
      FirstMeaningWins(rest, cap);
      assert forall j :: 0 <= j < n ==> rest[j] == caps[j];
      forall k | 0 <= k < n && FirstAt(caps, cap, k) ensures FirstAt(rest, cap, k) {
      }
    }
  }

  /** `init_cap_trie`: the sequences of the terminal first, then those with modifiers. Collisions are
      expected. */
  method InitCapTrie(caps: seq<Cap>, modCaps: seq<Cap>) returns (trie: CapTrie)
    ensures fresh(trie) && trie.Valid() && trie.table == Registered(map[], caps + modCaps)
  {
    hide Shape, Leaves, Needed;
    trie := new CapTrie();
    var all := caps + modCaps;
    assert all[..|caps|] == caps && all[..|all|] == all;
    for i := 0 to |caps|
      invariant fresh(trie) && trie.Valid() && trie.table == Registered(map[], all[..i])
    {
      assert all[..i + 1][..i] == all[..i];
      var status := trie.Add(caps[i].cap, caps[i].key, caps[i].mod);
    }
    for i := 0 to |modCaps|
      invariant fresh(trie) && trie.Valid() && trie.table == Registered(map[], all[..|caps| + i])
    {
      assert all[..|caps| + i + 1][..|caps| + i] == all[..|caps| + i];
      var status := trie.Add(modCaps[i].cap, modCaps[i].key, modCaps[i].mod);
    }
  }
}
