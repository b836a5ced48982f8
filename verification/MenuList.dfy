/** The list of menus, changed in place by `menu_setup`, `menu_close` and `menu_start`. */
module MenuList {
  import opened Menus

  class MenuList {
    var nodes: seq<Node>

    constructor ()
      ensures nodes == []
    {
      nodes := [];
    }

    /** Without `purgeThemAll` stops at the first menu that is not deleted. */
    method FreeDeletedMenus(purgeThemAll: bool)
      modifies this
      ensures nodes == if purgeThemAll then [] else FreeDeleted(old(nodes))
    {
      while nodes != [] && (purgeThemAll || nodes[|nodes| - 1].deleted)
        invariant |nodes| <= |old(nodes)| && nodes == old(nodes)[..|nodes|]
        invariant !purgeThemAll ==> TopLive(nodes) == TopLive(old(nodes))
        decreases |nodes|
      {
        nodes := nodes[..|nodes| - 1];
      }
    }

    method GetMenuDepth() returns (depth: nat)
      ensures depth == Depth(nodes)
    {
      depth := 0;
      assert nodes[..|nodes|] == nodes;
      var i := |nodes| - 1;
      while i >= 0 && !nodes[i].deleted
        invariant -1 <= i < |nodes| && Depth(nodes) == depth + Depth(nodes[..i + 1])
      {
        assert nodes[..i + 1][..i] == nodes[..i];
        depth := depth + 1;
        i := i - 1;
      }
    }

    method MenuSetup(menu: Menu, swallow: bool) returns (at: int)
      modifies this
      ensures nodes == Setup(old(nodes), menu, swallow) && at == |nodes| - 1
    {
      if swallow && nodes != [] {
        nodes := nodes[|nodes| - 1 := nodes[|nodes| - 1].(deleted := true)];
      }
      nodes := nodes + [Node(menu, false)];
      at := |nodes| - 1;
    }

    /** Deletes the topmost menu that is left and returns the place of the next one, or -1. */
    method MenuClose() returns (next: int)
      modifies this
      ensures nodes == Close(old(nodes)) && next == TopLive(nodes)
    {
      var i := FindLive();
      if i >= 0 {
        nodes := nodes[i := nodes[i].(deleted := true)];
      }
      next := FindLive();
      if next >= 0 {
        nodes := nodes[next := nodes[next].(menu := nodes[next].menu.(noSettings := true))];
        assert !nodes[next].deleted;
      }
    }

    method FindLive() returns (i: int)
      ensures i == TopLive(nodes)
    {
      i := |nodes| - 1;
      while i >= 0 && nodes[i].deleted
        invariant -1 <= i < |nodes| && TopLive(nodes) == TopLive(nodes[..i + 1])
      {
        assert nodes[..i + 1][..i] == nodes[..i];
        i := i - 1;
      }
    }

    /** The caller's menu must be the topmost one that is not deleted; then the assertion holds. `first`
        says that the view is reset. */
    method MenuStart(m: nat) returns (first: bool)
      requires m == TopLive(nodes)
      modifies this
      ensures var r := FreeDeleted(old(nodes));
        m == |r| - 1 && first == !r[m].menu.ready && nodes == r[m := r[m].(menu := r[m].menu.(ready := true))]
    {
      FreeDeletedMenus(false);
      assert m == |nodes| - 1;
      first := !nodes[m].menu.ready;
      nodes := nodes[m := nodes[m].(menu := nodes[m].menu.(ready := true))];
    }
  }
}
