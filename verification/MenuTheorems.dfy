/** The list of menus with tombstones refines a stack. */
module MenuTheorems {
  import opened Menus

  // ---------------------------------------------------------------- the list operations on the stack

  lemma {:induction false} LiveConcat(a: seq<Node>, b: seq<Node>)
    ensures Live(a + b) == Live(a) + Live(b)
    decreases |b|
  {
    if b == [] {
      assert a + b == a;
    } else {
      LiveConcat(a, b[..|b| - 1]);
      assert (a + b)[..|a + b| - 1] == a + b[..|b| - 1];
    }
  }

  lemma {:induction false} DeadAreNotLive(nodes: seq<Node>)
    requires forall k :: 0 <= k < |nodes| ==> nodes[k].deleted
    ensures Live(nodes) == []
    decreases |nodes|
  {
    if nodes != [] {
      DeadAreNotLive(nodes[..|nodes| - 1]);
    }
  }

  /** The stack seen from its topmost live node. */
  lemma {:induction false} LiveAtTop(nodes: seq<Node>)
    ensures var t := TopLive(nodes);
      Live(nodes) == if t < 0 then [] else Live(nodes[..t]) + [nodes[t].menu]
  {
    hide Live;
    var t := TopLive(nodes);
    DeadAreNotLive(nodes[t + 1..]);
    LiveConcat(nodes[..t + 1], nodes[t + 1..]);
    assert nodes == nodes[..t + 1] + nodes[t + 1..];
    if t < 0 {
      LiveOfNone();
    } else {
      LiveSnoc(nodes[..t], nodes[t]);
      assert nodes[..t + 1] == nodes[..t] + [nodes[t]];
    }
  }

  lemma {:induction false} LiveOfNone()
    ensures Live([]) == []
  {
  }

  lemma {:induction false} LiveSnoc(nodes: seq<Node>, node: Node)
    ensures Live(nodes + [node]) == Live(nodes) + if node.deleted then [] else [node.menu]
  {
    assert (nodes + [node])[..|nodes|] == nodes;
  }

  lemma {:induction false} LiveIsEmpty(nodes: seq<Node>)
    ensures Live(nodes) == [] <==> TopLive(nodes) < 0
  {
    LiveAtTop(nodes);
  }

  lemma {:induction false} SamePlaces(nodes: seq<Node>, r: seq<Node>)
    requires |r| == |nodes| && forall k :: 0 <= k < |nodes| ==> r[k].deleted == nodes[k].deleted
    ensures TopLive(r) == TopLive(nodes)
  {
  }

  lemma {:induction false} LiveDeleteTop(nodes: seq<Node>)
    ensures Live(DeleteTop(nodes)) == if Live(nodes) == [] then [] else Live(nodes)[..|Live(nodes)| - 1]
    ensures TopLive(DeleteTop(nodes)) <= TopLive(nodes)
  {
    hide Live;
    LiveAtTop(nodes);
    var t := TopLive(nodes);
    if t >= 0 {
      var r := DeleteTop(nodes);
      assert r == nodes[..t] + r[t..];
      LiveConcat(nodes[..t], r[t..]);
      DeadAreNotLive(r[t..]);
    }
  }

  lemma {:induction false} LiveMarkTop(nodes: seq<Node>)
    ensures TopLive(MarkTop(nodes)) == TopLive(nodes)
    ensures Live(MarkTop(nodes)) == if Live(nodes) == [] then []
      else Live(nodes)[|Live(nodes)| - 1 := Live(nodes)[|Live(nodes)| - 1].(noSettings := true)]
  {
    hide Live;
    SamePlaces(nodes, MarkTop(nodes));
    LiveAtTop(nodes);
    LiveAtTop(MarkTop(nodes));
    var t := TopLive(nodes);
    if t >= 0 {
      assert MarkTop(nodes)[..t] == nodes[..t];
    }
  }

  /** Closing a menu pops the stack, wherever tombstones are. */
  lemma {:induction false} CloseIsPop(nodes: seq<Node>)
    ensures Live(Close(nodes)) == Pop(Live(nodes))
    ensures TopLive(Close(nodes)) >= 0 ==> nodes != [] && Close(nodes)[TopLive(Close(nodes))].menu.noSettings
  {
    hide Live, DeleteTop;
    LiveDeleteTop(nodes);
    LiveMarkTop(DeleteTop(nodes));
  }

  /** Setting up a menu without tombstones above pushes it, or replaces the top. */
  lemma {:induction false} SetupIsPush(nodes: seq<Node>, menu: Menu, swallow: bool)
    requires nodes == [] || !nodes[|nodes| - 1].deleted
    ensures Live(Setup(nodes, menu, swallow)) == if swallow then Replace(Live(nodes), menu) else Live(nodes) + [menu]
  {
    SetupOnLive(nodes, menu, swallow);
  }

  lemma {:induction false} SetupOnLive(nodes: seq<Node>, menu: Menu, swallow: bool)
    ensures Live(Setup(nodes, menu, swallow)) ==
      (if swallow && nodes != [] then Live(nodes[..|nodes| - 1]) else Live(nodes)) + [menu]
    ensures nodes != [] ==>
      Live(nodes) == Live(nodes[..|nodes| - 1]) + if nodes[|nodes| - 1].deleted then [] else [nodes[|nodes| - 1].menu]
  {
    hide Live;
    if nodes != [] {
      var n := |nodes| - 1;
      LiveSnoc(nodes[..n], nodes[n]);
      LiveSnoc(nodes[..n], nodes[n].(deleted := true));
      assert nodes == nodes[..n] + [nodes[n]];
      assert nodes[n := nodes[n].(deleted := true)] == nodes[..n] + [nodes[n].(deleted := true)];
      LiveSnoc(nodes[n := nodes[n].(deleted := true)], Node(menu, false));
    }
    LiveSnoc(nodes, Node(menu, false));
    if nodes == [] { LiveOfNone(); }
  }

  /** Swallowing is replacing exactly when no tombstone is on top: that is why a menu that is entered
      again must not make detours. */
  lemma {:induction false} SwallowReplacesIff(nodes: seq<Node>, menu: Menu)
    requires Live(nodes) != []
    ensures Live(Setup(nodes, menu, true)) == Replace(Live(nodes), menu) <==> !nodes[|nodes| - 1].deleted
  {
    SetupOnLive(nodes, menu, true);
  }

  lemma {:induction false} FreeKeepsLive(nodes: seq<Node>)
    ensures Live(FreeDeleted(nodes)) == Live(nodes)
    ensures TopLive(FreeDeleted(nodes)) == TopLive(nodes) == |FreeDeleted(nodes)| - 1
  {
    hide Live;
    var t := TopLive(nodes);
    LiveAtTop(nodes);
    LiveAtTop(FreeDeleted(nodes));
    if t >= 0 {
      assert FreeDeleted(nodes)[..t] == nodes[..t];
    }
  }

  /** The depth that is counted is the number of open menus exactly when no open menu lies below a
      tombstone. */
  lemma {:induction false} DepthCountsIff(nodes: seq<Node>)
    ensures Depth(nodes) <= |Live(nodes)|
    ensures Depth(nodes) == |Live(nodes)| <==>
      forall j, k :: 0 <= j < k < |nodes| && nodes[k].deleted ==> nodes[j].deleted
    decreases |nodes|
  {
    if nodes != [] {
      var n := |nodes| - 1;
      DepthCountsIff(nodes[..n]);
      LiveSnoc(nodes[..n], nodes[n]);
      assert nodes == nodes[..n] + [nodes[n]];
      if nodes[n].deleted {
        LiveIsEmpty(nodes[..n]);
        assert TopLive(nodes[..n]) < 0 <==> forall j :: 0 <= j < n ==> nodes[j].deleted by {
          assert forall j :: 0 <= j < n ==> nodes[..n][j] == nodes[j];
        }
      } else {
        assert forall j :: 0 <= j < n ==> nodes[..n][j] == nodes[j];
      }
    }
  }

  // ---------------------------------------------------------------- what the menu loops keep

  /** The list of items that the pager at `k` shows an item of: open as long as the pager is, with only
      closed pagers between. */
  predicate Origin(nodes: seq<Node>, k: nat, j: nat)
    requires j < k < |nodes|
  {
    && nodes[j].menu.kind.Items? && (nodes[j].deleted ==> nodes[k].deleted)
    && (forall i :: j < i < k ==> nodes[i].menu.kind.ItemPager? && nodes[i].deleted)
  }

  /** Menus that are set up on sections or feeds without swallowing them. */
  predicate IsAttached(m: Menu) {
    PlainExplore(m) || m.kind.ErrorsPager?
  }

  /** Sections are at the bottom, feeds right above them, a plain explore menu and a pager of errors are
      closed before the menu that they were opened from, and an item pager before the list of its item. */
  predicate NodeOk(nodes: seq<Node>, k: nat)
    requires k < |nodes|
  {
    && (nodes[k].menu.kind.Sections? <==> k == 0)
    && (nodes[k].menu.kind.Feeds? ==> k == 1)
    && (IsAttached(nodes[k].menu) ==> k > 0 && nodes[k - 1].menu.kind in {Sections, Feeds} &&
                                      (nodes[k - 1].deleted ==> nodes[k].deleted))
    && (nodes[k].menu.kind.ItemPager? ==> exists j :: 0 <= j < k && Origin(nodes, k, j))
  }

  predicate NodesOk(nodes: seq<Node>) {
    forall k :: 0 <= k < |nodes| ==> NodeOk(nodes, k)
  }

  /** The menu that runs is the top of the stack. With tombstones above it, it makes no detours. */
  predicate PlaceOk(s: State) {
    !s.phase.Over? ==>
      && s.at == TopLive(s.nodes) && s.at >= 0
      && (s.phase.Reading? ==> s.at == |s.nodes| - 1)
      && (s.at < |s.nodes| - 1 ==> s.nodes[s.at].menu.noSettings)
  }

  predicate Inv(s: State) {
    NodesOk(s.nodes) && PlaceOk(s)
  }

  predicate SameMenu(a: Menu, b: Menu) {
    a == b.(noSettings := a.noSettings, ready := a.ready)
  }

  /** Flags may change, the topmost open menu may be closed, and what is above it may be freed. */
  lemma {:induction false} FlagsKeepNodes(nodes: seq<Node>, r: seq<Node>, t: nat)
    requires NodesOk(nodes) && |r| <= |nodes| && t < |nodes|
    requires forall k :: t < k < |nodes| ==> nodes[k].deleted
    requires forall k :: 0 <= k < |r| ==> SameMenu(r[k].menu, nodes[k].menu)
    requires forall k :: 0 <= k < |r| && k != t ==> r[k].deleted == nodes[k].deleted
    requires t < |r| && nodes[t].deleted ==> r[t].deleted
    ensures NodesOk(r)
  {
    forall k | 0 <= k < |r| ensures NodeOk(r, k) {
      assert NodeOk(nodes, k);
      assert SameMenu(r[k].menu, nodes[k].menu);
      if nodes[k].menu.kind.ItemPager? {
        var j :| 0 <= j < k && Origin(nodes, k, j);
        assert SameMenu(r[j].menu, nodes[j].menu);
        assert forall i :: j < i < k ==> SameMenu(r[i].menu, nodes[i].menu);
        assert Origin(r, k, j);
      }
    }
  }

  lemma {:induction false} CloseKeepsNodes(nodes: seq<Node>)
    requires NodesOk(nodes)
    ensures NodesOk(Close(nodes))
  {
    hide NodesOk;
    var m := DeleteTop(nodes);
    if TopLive(nodes) >= 0 { FlagsKeepNodes(nodes, m, TopLive(nodes)); }
    if TopLive(m) >= 0 { FlagsKeepNodes(m, MarkTop(m), TopLive(m)); }
  }

  /** What the loops put on top of which menu. */
  lemma {:induction false} PutFits(m: Menu, depth: nat, i: Input, menu: Menu, swallow: bool)
    requires Decide(m, depth, i) == Put(menu, swallow)
    ensures !menu.kind.Sections? && (menu.kind.Feeds? ==> m.kind.Sections?)
    ensures IsAttached(menu) ==> m.kind in {Sections, Feeds} && !swallow
    ensures menu.kind.ItemPager? ==> if swallow then m.kind.ItemPager? else m.kind.Items?
    ensures i.Entered? ==> !m.noSettings
  {
  }

  lemma {:induction false} PutKeepsNodes(nodes: seq<Node>, menu: Menu, swallow: bool)
    requires NodesOk(nodes) && nodes != [] && !nodes[|nodes| - 1].deleted
    requires var m := nodes[|nodes| - 1].menu;
      && !menu.kind.Sections? && (menu.kind.Feeds? ==> m.kind.Sections?)
      && (IsAttached(menu) ==> m.kind in {Sections, Feeds} && !swallow)
      && (menu.kind.ItemPager? ==> if swallow then m.kind.ItemPager? else m.kind.Items?)
    ensures NodesOk(Setup(nodes, menu, swallow))
  {
    var r, n := Setup(nodes, menu, swallow), |nodes| - 1;
    assert NodeOk(nodes, n);
    forall k | 0 <= k < |r| ensures NodeOk(r, k) {
      if k <= n {
        assert NodeOk(nodes, k) && r[k].menu == nodes[k].menu;
        if nodes[k].menu.kind.ItemPager? {
          var j :| 0 <= j < k && Origin(nodes, k, j);
          assert Origin(r, k, j);
        }
      } else if menu.kind.ItemPager? {
        if swallow {
          var j :| 0 <= j < n && Origin(nodes, n, j);
          assert Origin(r, k, j);
        } else {
          assert Origin(r, k, n);
        }
      }
    }
  }

  // ---------------------------------------------------------------- one step

  /** The menu that runs and the depth are seen the same way on both sides. */
  lemma {:induction false} SameDecision(s: State, i: Input)
    requires Inv(s) && Expects(s.phase, i)
    ensures Live(s.nodes) != [] && Live(s.nodes)[|Live(s.nodes)| - 1] == s.nodes[s.at].menu
    ensures Decide(s.nodes[s.at].menu, Depth(s.nodes), i) == Decide(s.nodes[s.at].menu, |Live(s.nodes)|, i)
  {
    hide Live, NodesOk;
    LiveAtTop(s.nodes);
    if i.NavigateBack? && (s.nodes[s.at].menu.kind.Feeds? || PlainExplore(s.nodes[s.at].menu)) {
      DepthWhereAsked(s.nodes);
    }
  }

  /** The depth is right in the menus that ask for it. */
  lemma {:induction false} DepthWhereAsked(nodes: seq<Node>)
    requires NodesOk(nodes) && nodes != [] && !nodes[|nodes| - 1].deleted
    requires nodes[|nodes| - 1].menu.kind.Feeds? || PlainExplore(nodes[|nodes| - 1].menu)
    ensures Depth(nodes) == |Live(nodes)|
  {
    hide Live;
    var n := |nodes| - 1;
    assert NodeOk(nodes, n);
    assert n > 0 ==> NodeOk(nodes, n - 1);
    assert n <= 2;
    DepthCountsIff(nodes);
  }

  lemma {:induction false} StepStart(s: State, i: Input)
    requires Inv(s) && Expects(s.phase, i) && Decide(s.nodes[s.at].menu, Depth(s.nodes), i) == Start
    ensures Inv(Step(s, i)) && StartsOnTop(s) && Live(s.nodes) != []
    ensures Abstract(Step(s, i)) == SpecStep(Abstract(s), i)
  {
    hide Live, NodesOk, TopLive, Decide;
    SameDecision(s, i);
    var nodes, t := FreeDeleted(s.nodes), Step(s, i);
    FreeKeepsLive(s.nodes);
    TopLiveIs(s.nodes);
    FlagsKeepNodes(s.nodes, t.nodes, s.at);
    SamePlaces(nodes, t.nodes);
    LiveAtTop(nodes);
    LiveAtTop(t.nodes);
    assert t.nodes[..s.at] == nodes[..s.at];
  }

  lemma {:induction false} TopLiveIs(nodes: seq<Node>)
    ensures TopLive(nodes) < |nodes|
    ensures TopLive(nodes) >= 0 ==> !nodes[TopLive(nodes)].deleted
    ensures forall k :: 0 <= k < |nodes| && k > TopLive(nodes) ==> nodes[k].deleted
  {
  }

  lemma {:induction false} StepPut(s: State, i: Input)
    requires Inv(s) && Expects(s.phase, i) && Decide(s.nodes[s.at].menu, Depth(s.nodes), i).Put?
    ensures Inv(Step(s, i)) && Live(s.nodes) != []
    ensures Abstract(Step(s, i)) == SpecStep(Abstract(s), i)
  {
    hide Live, NodesOk, Decide;
    SameDecision(s, i);
    var v := Decide(s.nodes[s.at].menu, Depth(s.nodes), i);
    PutFits(s.nodes[s.at].menu, Depth(s.nodes), i, v.menu, v.swallow);
    SetupIsPush(s.nodes, v.menu, v.swallow);
    PutKeepsNodes(s.nodes, v.menu, v.swallow);
  }

  lemma {:induction false} StepClose(s: State, i: Input)
    requires Inv(s) && Expects(s.phase, i) && Decide(s.nodes[s.at].menu, Depth(s.nodes), i) == CloseIt
    ensures Inv(Step(s, i)) && Live(s.nodes) != []
    ensures Abstract(Step(s, i)) == SpecStep(Abstract(s), i)
  {
    hide Live, NodesOk, Decide, Close, TopLive;
    SameDecision(s, i);
    CloseIsPop(s.nodes);
    CloseKeepsNodes(s.nodes);
    LiveIsEmpty(Close(s.nodes));
  }

  lemma {:induction false} StepCloseTwo(s: State, i: Input)
    requires Inv(s) && Expects(s.phase, i) && Decide(s.nodes[s.at].menu, Depth(s.nodes), i) == CloseTwo
    ensures Inv(Step(s, i)) && Live(s.nodes) != []
    ensures Abstract(Step(s, i)) == SpecStep(Abstract(s), i)
  {
    hide Live, NodesOk, Decide, Close, TopLive;
    SameDecision(s, i);
    CloseIsPop(s.nodes);
    CloseIsPop(Close(s.nodes));
    CloseKeepsNodes(s.nodes);
    CloseKeepsNodes(Close(s.nodes));
    LiveIsEmpty(Close(Close(s.nodes)));
  }

  /** Every step does to the list what it does to the stack, and a menu that starts is on top. */
  lemma {:induction false} StepRefines(s: State, i: Input)
    requires Inv(s) && Expects(s.phase, i)
    ensures Inv(Step(s, i)) && Live(s.nodes) != []
    ensures Abstract(Step(s, i)) == SpecStep(Abstract(s), i)
    ensures Decide(s.nodes[s.at].menu, Depth(s.nodes), i) == Start ==> StartsOnTop(s)
  {
    hide Live, NodesOk, Decide, TopLive;
    SameDecision(s, i);
    match Decide(s.nodes[s.at].menu, Depth(s.nodes), i)
    case Start => StepStart(s, i);
    case Put(_, _) => StepPut(s, i);
    case CloseIt => StepClose(s, i);
    case CloseTwo => StepCloseTwo(s, i);
    case Stay =>
    case Leave =>
  }

  // ---------------------------------------------------------------- whole runs

  /** The inputs come when they are expected. */
  predicate Legal(s: State, run: seq<Input>)
    decreases |run|
  {
    run == [] || (Expects(s.phase, run[0]) && 0 <= s.at < |s.nodes| && Legal(Step(s, run[0]), run[1..]))
  }

  function Run(s: State, run: seq<Input>): State
    requires Legal(s, run)
    decreases |run|
  {
    if run == [] then s else Run(Step(s, run[0]), run[1..])
  }

  predicate SpecLegal(s: Spec, run: seq<Input>)
    decreases |run|
  {
    run == [] || (Expects(s.phase, run[0]) && s.stack != [] && SpecLegal(SpecStep(s, run[0]), run[1..]))
  }

  function SpecRun(s: Spec, run: seq<Input>): Spec
    requires SpecLegal(s, run)
    decreases |run|
  {
    if run == [] then s else SpecRun(SpecStep(s, run[0]), run[1..])
  }

  lemma {:induction false} RunRefines(s: State, run: seq<Input>)
    requires Inv(s)
    ensures Legal(s, run) <==> SpecLegal(Abstract(s), run)
    ensures Legal(s, run) ==> Inv(Run(s, run)) && Abstract(Run(s, run)) == SpecRun(Abstract(s), run)
    decreases |run|
  {
    hide Inv, Step, SpecStep, Live;
    if run != [] && Expects(s.phase, run[0]) {
      StepRefines(s, run[0]);
      PlaceIsThere(s);
      RunRefines(Step(s, run[0]), run[1..]);
    }
  }

  lemma {:induction false} PlaceIsThere(s: State)
    requires Inv(s) && !s.phase.Over?
    ensures 0 <= s.at < |s.nodes|
  {
  }

  /** Over all runs the open menus are a stack, and the menu whose loop runs is the top of it. */
  lemma {:induction false} MenusAreAStack(feeds: nat, run: seq<Input>)
    requires Legal(Begin(feeds), run)
    ensures SpecLegal(SpecBegin(feeds), run)
    ensures Abstract(Run(Begin(feeds), run)) == SpecRun(SpecBegin(feeds), run)
    ensures var s := Run(Begin(feeds), run);
      !s.phase.Over? ==> 0 <= s.at < |s.nodes| && Live(s.nodes) != [] &&
                         s.nodes[s.at].menu == Live(s.nodes)[|Live(s.nodes)| - 1]
  {
    hide Step, SpecStep, Live;
    BeginInv(feeds);
    RunRefines(Begin(feeds), run);
    LiveAtTop(Run(Begin(feeds), run).nodes);
  }

  /** Whenever a menu starts, it is on top of the list: the assertion in `menu_start` never fails. */
  lemma {:induction false} MenusStartOnTop(feeds: nat, run: seq<Input>, i: Input)
    requires Legal(Begin(feeds), run) && Expects(Run(Begin(feeds), run).phase, i)
    ensures var s := Run(Begin(feeds), run);
      0 <= s.at < |s.nodes| && (Decide(s.nodes[s.at].menu, Depth(s.nodes), i) == Start ==> StartsOnTop(s))
  {
    hide Inv, Step, SpecStep, Live, Decide, StartsOnTop;
    BeginInv(feeds);
    RunRefines(Begin(feeds), run);
    PlaceIsThere(Run(Begin(feeds), run));
    StepRefines(Run(Begin(feeds), run), i);
  }

  lemma {:induction false} BeginInv(feeds: nat)
    ensures Inv(Begin(feeds)) && Abstract(Begin(feeds)) == SpecBegin(feeds)
  {
    var s := Begin(feeds);
    assert NodeOk(s.nodes, 0);
    LiveOfNone();
    LiveSnoc([], s.nodes[0]);
    assert [] + [s.nodes[0]] == s.nodes;
  }

  /** `item_pager_loop` looks below itself for a menu with items: it finds the open list of items that
      is next on the stack. */
  lemma {:induction false} PagerFindsItems(s: State, j: nat)
    requires Inv(s) && !s.phase.Over? && s.nodes[s.at].menu.kind.ItemPager?
    requires j < s.at && s.nodes[j].menu.kind.Items?
    requires forall k :: j < k < s.at ==> !s.nodes[k].menu.kind.Items?
    ensures !s.nodes[j].deleted && |Live(s.nodes)| >= 2
    ensures Live(s.nodes)[|Live(s.nodes)| - 2] == s.nodes[j].menu
  {
    hide Live;
    assert NodeOk(s.nodes, s.at);
    var o :| 0 <= o < s.at && Origin(s.nodes, s.at, o);
    assert o == j;
    LiveAtTop(s.nodes);
    DeadAreNotLive(s.nodes[j + 1..s.at]);
    LiveConcat(s.nodes[..j + 1], s.nodes[j + 1..s.at]);
    assert s.nodes[..s.at] == s.nodes[..j + 1] + s.nodes[j + 1..s.at];
    LiveSnoc(s.nodes[..j], s.nodes[j]);
    assert s.nodes[..j + 1] == s.nodes[..j] + [s.nodes[j]];
  }

  // ---------------------------------------------------------------- leaving the program

  /** Only a list of items can be the last menu to which going back applies. */
  lemma {:induction false} LastMenu(s: State)
    requires Inv(s) && !s.phase.Over? && |Live(s.nodes)| == 1
    ensures !IsAttached(s.nodes[s.at].menu) && !s.nodes[s.at].menu.kind.ItemPager?
  {
    hide Live;
    var k := s.at;
    LiveAtTop(s.nodes);
    LiveIsEmpty(s.nodes[..k]);
    assert NodeOk(s.nodes, k);
    assert forall j :: 0 <= j < k ==> s.nodes[..k][j] == s.nodes[j];
    assert TopLive(s.nodes[..k]) < 0;
    assert forall j :: 0 <= j < k ==> s.nodes[..k][j].deleted;
  }

  /** Going back leaves the program exactly from a list of items that is the only open menu. Everywhere
      else a menu stays open. */
  lemma {:induction false} BackLeavesIff(s: State)
    requires Inv(s) && s.phase == Reading
    ensures Step(s, NavigateBack).phase == Over <==>
      |Live(s.nodes)| == 1 && s.nodes[s.at].menu.kind.Items?
  {
    hide Live, NodesOk, TopLive, Close, Depth, Setup;
    SameDecision(s, NavigateBack);
    StepRefines(s, NavigateBack);
    if |Live(s.nodes)| == 1 { LastMenu(s); }
  }

  lemma {:induction false} SpecCons(s: Spec, i: Input, rest: seq<Input>)
    requires Expects(s.phase, i) && s.stack != []
    ensures SpecLegal(s, [i] + rest) <==> SpecLegal(SpecStep(s, i), rest)
    ensures SpecLegal(s, [i] + rest) ==> SpecRun(s, [i] + rest) == SpecRun(SpecStep(s, i), rest)
  {
    hide SpecStep;
    assert ([i] + rest)[1..] == rest;
  }

  lemma {:induction false} SpecNil(s: Spec)
    ensures SpecLegal(s, []) && SpecRun(s, []) == s
  {
  }

  const ONE_FEED: Input := Entered(false, true, true, true)
  const ONE_FEED_MENU: Menu := Menus.Fresh(Feeds, false, false, false, 1)
  const ITS_ITEMS: Menu := Menus.Fresh(Items, false, false, false, 1)

  lemma {:induction false} SingleFeedSteps()
    ensures SpecStep(SpecBegin(1), ONE_FEED) == Spec([ONE_FEED_MENU], Entering)
    ensures SpecStep(Spec([ONE_FEED_MENU], Entering), ONE_FEED) == Spec([ITS_ITEMS], Entering)
    ensures SpecStep(Spec([ITS_ITEMS], Entering), ONE_FEED) == Spec([ITS_ITEMS.(ready := true)], Reading)
    ensures SpecStep(Spec([ITS_ITEMS.(ready := true)], Reading), NavigateBack) == Spec([], Over)
  {
  }

  /** That happens with a single section of a single feed, whose sections and feeds were swallowed. */
  lemma {:induction false} SingleFeedLeaves()
    ensures var run := [ONE_FEED] + ([ONE_FEED] + ([ONE_FEED] + ([NavigateBack] + [])));
      SpecLegal(SpecBegin(1), run) && SpecRun(SpecBegin(1), run).phase == Over
  {
    hide SpecLegal, SpecRun, SpecStep;
    SingleFeedSteps();
    SpecNil(Spec([], Over));
    SpecCons(Spec([ITS_ITEMS.(ready := true)], Reading), NavigateBack, []);
    SpecCons(Spec([ITS_ITEMS], Entering), ONE_FEED, [NavigateBack] + []);
    SpecCons(Spec([ONE_FEED_MENU], Entering), ONE_FEED, [ONE_FEED] + ([NavigateBack] + []));
    SpecCons(SpecBegin(1), ONE_FEED, [ONE_FEED] + ([ONE_FEED] + ([NavigateBack] + [])));
  }
}
