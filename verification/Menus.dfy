/** The menus of `src/interface-list.c`: a linked list in which closed menus stay as tombstones until
    the next menu starts, and the menu loops that work with it. It behaves as a stack. */
module Menus {

  datatype Kind = Sections | Feeds | Items | ItemPager | ErrorsPager

  /** `find` says that the menu has a find filter; `feeds` is the number of feeds it is about; `noSettings` is MENU_DISABLE_SETTINGS; `ready`
      is set by the first start. */
  datatype Menu = Menu(kind: Kind, explore: bool, search: bool, find: bool, feeds: nat, noSettings: bool, ready: bool)

  datatype Node = Node(menu: Menu, deleted: bool)

  function Fresh(kind: Kind, explore: bool, search: bool, find: bool, feeds: nat): Menu {
    Menu(kind, explore, search, find, feeds, false, false)
  }

  // ---------------------------------------------------------------- the list; its last node is on top

  /** The place of the topmost menu that is not deleted, or -1. */
  function TopLive(nodes: seq<Node>): (t: int)
    ensures -1 <= t < |nodes|
    ensures t >= 0 ==> !nodes[t].deleted
    ensures forall k :: t < k < |nodes| ==> nodes[k].deleted
  {
    if nodes == [] then -1
    else if !nodes[|nodes| - 1].deleted then |nodes| - 1
    else TopLive(nodes[..|nodes| - 1])
  }

  function Setup(nodes: seq<Node>, menu: Menu, swallow: bool): seq<Node> {
    var n := |nodes| - 1;
    (if swallow && nodes != [] then nodes[n := nodes[n].(deleted := true)] else nodes) + [Node(menu, false)]
  }

  function DeleteTop(nodes: seq<Node>): (r: seq<Node>)
    ensures |r| == |nodes|
  {
    var t := TopLive(nodes);
    if t < 0 then nodes else nodes[t := nodes[t].(deleted := true)]
  }

  function MarkTop(nodes: seq<Node>): (r: seq<Node>)
    ensures |r| == |nodes|
  {
    var t := TopLive(nodes);
    if t < 0 then nodes else nodes[t := nodes[t].(menu := nodes[t].menu.(noSettings := true))]
  }

  /** `menu_close`; the menu to run next is the topmost one left. */
  function Close(nodes: seq<Node>): (r: seq<Node>)
    ensures |r| == |nodes|
  {
    MarkTop(DeleteTop(nodes))
  }

  /** `free_deleted_menus`. */
  function FreeDeleted(nodes: seq<Node>): seq<Node> {
    nodes[..TopLive(nodes) + 1]
  }

  /** `get_menu_depth` counts from the top to the first tombstone. */
  function Depth(nodes: seq<Node>): nat {
    if nodes == [] || nodes[|nodes| - 1].deleted then 0 else Depth(nodes[..|nodes| - 1]) + 1
  }

  // ---------------------------------------------------------------- the stack

  function Live(nodes: seq<Node>): (r: seq<Menu>) {
    if nodes == [] then []
    else Live(nodes[..|nodes| - 1]) + if nodes[|nodes| - 1].deleted then [] else [nodes[|nodes| - 1].menu]
  }

  function Pop(stack: seq<Menu>): seq<Menu> {
    if |stack| < 2 then []
    else stack[..|stack| - 1][|stack| - 2 := stack[|stack| - 2].(noSettings := true)]
  }

  function Replace(stack: seq<Menu>, menu: Menu): seq<Menu> {
    (if stack == [] then [] else stack[..|stack| - 1]) + [menu]
  }

  function Ready(stack: seq<Menu>): seq<Menu> {
    if stack == [] then [] else stack[|stack| - 1 := stack[|stack| - 1].(ready := true)]
  }

  // ---------------------------------------------------------------- the menu loops

  /** What a menu gets: its loop is entered, under what the configuration and the database say, or the
      user gives a command. */
  datatype Input =
    | Entered(paramount: bool, single: bool, hasItems: bool, loaded: bool)
    | Enter(feeds: nat)
    | ToggleExplore
    | Search
    | Find
    | ViewErrors(feeds: nat)
    | GotoFeed
    | Jump(moved: bool)
    | ToggleAndClose
    | NavigateBack
    | QuitSoft
    | QuitHard

  datatype Verdict = Start | Put(menu: Menu, swallow: bool) | CloseIt | CloseTwo | Stay | Leave

  /** The heads of the menu loops, up to `menu_start`. `settings` decide on a detour, but only for a
      menu that is new. */
  function OnEntry(m: Menu, i: Input): Verdict
    requires i.Entered?
  {
    match m.kind
    case Sections =>
      if !m.noSettings && i.paramount && i.hasItems then Put(Fresh(Items, true, false, false, m.feeds), false)
      else if !m.noSettings && i.single then Put(Fresh(Feeds, false, false, false, m.feeds), true)
      else Start
    case Feeds =>
      if m.feeds < 1 then CloseIt
      else if !m.noSettings && i.paramount && i.hasItems then Put(Fresh(Items, true, false, false, m.feeds), false)
      else if !m.noSettings && m.feeds == 1 && i.hasItems then Put(Fresh(Items, false, false, false, m.feeds), true)
      else Start
    case Items => if !m.ready && !i.loaded then CloseIt else Start
    case ItemPager => if i.loaded then Start else CloseIt
    case ErrorsPager => if m.feeds < 1 || !i.loaded then CloseIt else Start
  }

  function OnList(m: Menu, i: Input): Verdict {
    match i
    case Enter(feeds) =>
      if m.kind.Sections? then Put(Fresh(Feeds, false, false, false, feeds), false)
      else Put(Fresh(Items, false, false, false, 1), false)
    case ToggleExplore => Put(Fresh(Items, true, false, false, m.feeds), false)
    case Search => Put(Fresh(Items, true, true, false, m.feeds), false)
    case Find => Put(Fresh(Items, true, false, true, m.feeds), false)
    case ViewErrors(feeds) => Put(Fresh(ErrorsPager, false, false, false, if m.kind.Sections? then feeds else 1), false)
    case QuitSoft => if m.kind.Sections? then Leave else CloseIt
    case QuitHard => Leave
    case _ => Stay
  }

  function OnItems(m: Menu, depth: nat, i: Input): Verdict {
    match i
    case Enter(_) => Put(Fresh(ItemPager, false, false, false, 0), false)
    case ToggleExplore => if m.explore then CloseIt else Stay
    case Search => Put(Fresh(Items, true, true, m.find, m.feeds), false)
    case Find => Put(Fresh(Items, true, false, true, m.feeds), m.find)
    case GotoFeed => if m.explore then Put(Fresh(Items, false, false, false, 1), false) else Stay
    case NavigateBack => if PlainExplore(m) then (if depth < 3 then Stay else CloseTwo) else CloseIt
    case QuitSoft => if PlainExplore(m) then CloseTwo else CloseIt
    case QuitHard => Leave
    case _ => Stay
  }

  /** Leaving the explore mode leaves the menu that it was entered from as well. */
  predicate PlainExplore(m: Menu) {
    m.kind.Items? && m.explore && !m.search && !m.find
  }

  function OnPager(m: Menu, i: Input): Verdict {
    match i
    case Jump(moved) => if m.kind.ItemPager? && moved then Put(Fresh(ItemPager, false, false, false, 0), true) else Stay
    case ToggleAndClose => if m.kind.ItemPager? then CloseIt else Stay
    case NavigateBack => CloseIt
    case QuitSoft => CloseIt
    case QuitHard => Leave
    case _ => Stay
  }

  /** What the loop of the menu makes of the input, when the program believes that `depth` menus are open. */
  function Decide(m: Menu, depth: nat, i: Input): Verdict {
    if i.Entered? then OnEntry(m, i)
    else match m.kind
      case Items => OnItems(m, depth, i)
      case ItemPager => OnPager(m, i)
      case ErrorsPager => OnPager(m, i)
      case Feeds => if i.NavigateBack? then (if depth < 2 then Stay else CloseIt) else OnList(m, i)
      case Sections => OnList(m, i)
  }

  datatype Phase = Entering | Reading | Over

  /** The program: the list, and the place of the menu whose loop runs. */
  datatype State = State(nodes: seq<Node>, at: int, phase: Phase)

  /** `run_menu_loop` begins with the sections, which are about all feeds. */
  function Begin(feeds: nat): State {
    State(Setup([], Fresh(Sections, false, false, false, feeds), false), 0, Entering)
  }

  function SpecBegin(feeds: nat): Spec {
    Spec([Fresh(Sections, false, false, false, feeds)], Entering)
  }

  predicate Expects(phase: Phase, i: Input) {
    !phase.Over? && (phase.Entering? <==> i.Entered?)
  }

  /** A menu that was returned is entered next; none ends the loop. */
  function EnterNext(nodes: seq<Node>, at: int): State {
    State(nodes, at, if at < 0 then Over else Entering)
  }

  /** `assert(m == menus)` in `menu_start`. */
  predicate StartsOnTop(s: State) {
    FreeDeleted(s.nodes) != [] && s.at == |FreeDeleted(s.nodes)| - 1
  }

  function Step(s: State, i: Input): State
    requires Expects(s.phase, i) && 0 <= s.at < |s.nodes|
  {
    match Decide(s.nodes[s.at].menu, Depth(s.nodes), i)
    case Start =>
      var nodes := FreeDeleted(s.nodes);
      if s.at < |nodes| then
        State(nodes[s.at := nodes[s.at].(menu := nodes[s.at].menu.(ready := true))], s.at, Reading)
      else s.(phase := Over)
    case Put(menu, swallow) =>
      var nodes := Setup(s.nodes, menu, swallow);
      EnterNext(nodes, |nodes| - 1)
    case CloseIt => EnterNext(Close(s.nodes), TopLive(Close(s.nodes)))
    case CloseTwo => EnterNext(Close(Close(s.nodes)), TopLive(Close(Close(s.nodes))))
    case Stay => s
    case Leave => State(s.nodes, -1, Over)
  }

  /** The same program with a stack of menus. */
  datatype Spec = Spec(stack: seq<Menu>, phase: Phase)

  function Enters(stack: seq<Menu>): Spec {
    Spec(stack, if stack == [] then Over else Entering)
  }

  function SpecStep(s: Spec, i: Input): Spec
    requires Expects(s.phase, i) && s.stack != []
  {
    match Decide(s.stack[|s.stack| - 1], |s.stack|, i)
    case Start => Spec(Ready(s.stack), Reading)
    case Put(menu, swallow) => Enters(if swallow then Replace(s.stack, menu) else s.stack + [menu])
    case CloseIt => Enters(Pop(s.stack))
    case CloseTwo => Enters(Pop(Pop(s.stack)))
    case Stay => s
    case Leave => s.(phase := Over)
  }

  function Abstract(s: State): Spec {
    Spec(Live(s.nodes), s.phase)
  }
}
