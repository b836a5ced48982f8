/** What the commands of the menus are for, said of the stack of open menus. */
module MenuCommands {
  import opened Menus
  import opened MenuTheorems

  function Top(s: Spec): Menu
    requires s.stack != []
  {
    s.stack[|s.stack| - 1]
  }

  function Below(s: Spec): seq<Menu>
    requires s.stack != []
  {
    s.stack[..|s.stack| - 1]
  }

  predicate ReadsIn(s: Spec, kinds: set<Kind>) {
    s.phase == Reading && s.stack != [] && Top(s).kind in kinds
  }

  /** The program is back in the topmost of these menus, which makes no detours any more. Without a menu it
      is over. */
  function BackIn(stack: seq<Menu>): Spec {
    if stack == [] then Spec([], Over)
    else Spec(stack[|stack| - 1 := stack[|stack| - 1].(noSettings := true)], Entering)
  }

  /** The menus below are as they were, and a new one on top of them reads commands. */
  predicate OpenAbove(t: Spec, stack: seq<Menu>, kind: Kind) {
    && t.phase == Reading && |t.stack| == |stack| + 1 && t.stack[..|stack|] == stack
    && t.stack[|stack|].kind == kind && t.stack[|stack|].ready
  }

  /** One input after another. */
  predicate Goes(s: Spec, run: seq<Input>, t: Spec) {
    SpecLegal(s, run) && SpecRun(s, run) == t
  }

  lemma {:induction false} GoesOn(s: Spec, i: Input, rest: seq<Input>, t: Spec)
    requires Expects(s.phase, i) && s.stack != [] && Goes(SpecStep(s, i), rest, t)
    ensures Goes(s, [i] + rest, t)
  {
    hide SpecStep;
    SpecCons(s, i, rest);
  }

  lemma {:induction false} GoesTwo(s: Spec, a: Input, b: Input, t: Spec)
    requires Expects(s.phase, a) && s.stack != []
    requires var u := SpecStep(s, a); Expects(u.phase, b) && u.stack != [] && SpecStep(u, b) == t
    ensures Goes(s, [a, b], t)
  {
    hide SpecStep;
    SpecNil(t);
    GoesOn(SpecStep(s, a), b, [], t);
    assert [b] + [] == [b];
    GoesOn(s, a, [b], t);
    assert [a] + [b] == [a, b];
  }

  lemma {:induction false} GoesThree(s: Spec, a: Input, b: Input, c: Input, t: Spec)
    requires Expects(s.phase, a) && s.stack != []
    requires var u := SpecStep(s, a);
      && Expects(u.phase, b) && u.stack != []
      && var v := SpecStep(u, b); Expects(v.phase, c) && v.stack != [] && SpecStep(v, c) == t
    ensures Goes(s, [a, b, c], t)
  {
    hide SpecStep;
    GoesTwo(SpecStep(s, a), b, c, t);
    GoesOn(s, a, [b, c], t);
    assert [a] + [b, c] == [a, b, c];
  }

  // ---------------------------------------------------------------- the explore mode

  /** Leaving the explore mode leaves the list below it as well: the stack is the one that closing that list
      alone would have left. Going back does so only while three menus are open; otherwise it does
      nothing. */
  lemma {:induction false} ExploreAndQuit(s: Spec, e: Input)
    requires ReadsIn(s, {Sections, Feeds}) && e.Entered? && e.loaded
    ensures Goes(s, [ToggleExplore, e, QuitSoft], BackIn(Below(s)))
    ensures |s.stack| >= 2 ==> Goes(s, [ToggleExplore, e, NavigateBack], BackIn(Below(s)))
    ensures |s.stack| == 1 ==>
      exists t :: OpenAbove(t, s.stack, Items) && Goes(s, [ToggleExplore, e, NavigateBack], t)
  {
    hide SpecLegal, SpecRun, Goes, SpecStep;
    ExploreOpens(s, e);
    var v := SpecStep(SpecStep(s, ToggleExplore), e);
    ExploreIsLeft(v, s.stack);
    GoesThree(s, ToggleExplore, e, QuitSoft, BackIn(Below(s)));
    GoesThree(s, ToggleExplore, e, NavigateBack, if |s.stack| >= 2 then BackIn(Below(s)) else v);
  }

  lemma {:induction false} ExploreOpens(s: Spec, e: Input)
    requires ReadsIn(s, {Sections, Feeds}) && e.Entered? && e.loaded
    ensures var u := SpecStep(s, ToggleExplore);
      && Expects(u.phase, e) && u.stack != []
      && var v := SpecStep(u, e); OpenAbove(v, s.stack, Items) && PlainExplore(Top(v))
  {
    assert SpecStep(SpecStep(s, ToggleExplore), e).stack[..|s.stack|] == s.stack;
  }

  lemma {:induction false} ExploreIsLeft(v: Spec, stack: seq<Menu>)
    requires stack != [] && OpenAbove(v, stack, Items) && PlainExplore(Top(v))
    ensures SpecStep(v, QuitSoft) == BackIn(stack[..|stack| - 1])
    ensures SpecStep(v, NavigateBack) == if |stack| >= 2 then BackIn(stack[..|stack| - 1]) else v
  {
  }

  /** Leaving it with the command that entered it goes back to the list. */
  lemma {:induction false} ExploreTwice(s: Spec, e: Input)
    requires ReadsIn(s, {Sections, Feeds}) && e.Entered? && e.loaded
    ensures Goes(s, [ToggleExplore, e, ToggleExplore], BackIn(s.stack))
  {
    hide SpecLegal, SpecRun, Goes;
    assert SpecStep(SpecStep(s, ToggleExplore), e).stack[..|s.stack|] == s.stack;
    GoesThree(s, ToggleExplore, e, ToggleExplore, BackIn(s.stack));
  }

  /** From the explore mode one goes to the feed of an item and back to the explore mode. */
  lemma {:induction false} GotoFeedAndBack(s: Spec, e: Input, back: Input)
    requires ReadsIn(s, {Items}) && e.Entered? && e.loaded && (back.NavigateBack? || back.QuitSoft?)
    ensures if Top(s).explore then Goes(s, [GotoFeed, e, back], BackIn(s.stack)) else Goes(s, [GotoFeed], s)
  {
    hide SpecLegal, SpecRun, Goes;
    if Top(s).explore {
      assert SpecStep(SpecStep(s, GotoFeed), e).stack[..|s.stack|] == s.stack;
      GoesThree(s, GotoFeed, e, back, BackIn(s.stack));
    } else {
      GoesOne(s, GotoFeed, s);
    }
  }

  lemma {:induction false} GoesOne(s: Spec, a: Input, t: Spec)
    requires Expects(s.phase, a) && s.stack != [] && SpecStep(s, a) == t
    ensures Goes(s, [a], t)
  {
    hide SpecStep;
    SpecNil(t);
    GoesOn(s, a, [], t);
    assert [a] + [] == [a];
  }

  // ---------------------------------------------------------------- searching and finding

  /** The result of a search is left like any other menu, although it is an explore mode. */
  lemma {:induction false} SearchAndBack(s: Spec, e: Input, back: Input)
    requires ReadsIn(s, {Sections, Feeds, Items}) && e.Entered? && e.loaded && (back.NavigateBack? || back.QuitSoft?)
    ensures Goes(s, [Search, e, back], BackIn(s.stack))
  {
    hide SpecLegal, SpecRun, Goes;
    assert SpecStep(SpecStep(s, Search), e).stack[..|s.stack|] == s.stack;
    GoesThree(s, Search, e, back, BackIn(s.stack));
  }

  /** A search among items that were found counts as found as well. */
  lemma {:induction false} SearchOpens(s: Spec, e: Input)
    requires ReadsIn(s, {Sections, Feeds, Items}) && e.Entered? && e.loaded
    ensures exists t ::
      && OpenAbove(t, s.stack, Items) && Goes(s, [Search, e], t)
      && Top(t).search && (Top(t).find <==> Top(s).kind.Items? && Top(s).find)
  {
    hide SpecLegal, SpecRun, Goes;
    var t := SpecStep(SpecStep(s, Search), e);
    assert t.stack[..|s.stack|] == s.stack;
    GoesTwo(s, Search, e, t);
    assert OpenAbove(t, s.stack, Items);
  }

  /** Where the items that are found are shown: finding again replaces what was found before. */
  function FoundAbove(s: Spec): seq<Menu>
    requires s.stack != []
  {
    if Top(s).kind.Items? && Top(s).find then Below(s) else s.stack
  }

  lemma {:induction false} FindOpens(s: Spec, e: Input)
    requires ReadsIn(s, {Sections, Feeds, Items}) && e.Entered? && e.loaded
    ensures var u := SpecStep(s, Find);
      && Expects(u.phase, e) && u.stack != []
      && var t := SpecStep(u, e); OpenAbove(t, FoundAbove(s), Items) && Top(t).find && Top(t).explore && !Top(t).search
  {
    var t := SpecStep(SpecStep(s, Find), e);
    assert t.stack[..|FoundAbove(s)|] == FoundAbove(s);
  }

  /** What was found is left like any other menu; having found several times, one goes back to where it was
      asked for first. */
  lemma {:induction false} FindAndBack(s: Spec, e: Input, back: Input)
    requires ReadsIn(s, {Sections, Feeds, Items}) && e.Entered? && e.loaded && (back.NavigateBack? || back.QuitSoft?)
    ensures exists t ::
      && OpenAbove(t, FoundAbove(s), Items) && Top(t).find && Top(t).explore && !Top(t).search
      && Goes(s, [Find, e], t)
      && Goes(t, [back], BackIn(FoundAbove(s)))
  {
    hide SpecLegal, SpecRun, Goes, SpecStep;
    FindOpens(s, e);
    var t := SpecStep(SpecStep(s, Find), e);
    GoesTwo(s, Find, e, t);
    FoundIsLeft(t, FoundAbove(s), back);
    assert OpenAbove(t, FoundAbove(s), Items);
  }

  lemma {:induction false} FoundIsLeft(t: Spec, stack: seq<Menu>, back: Input)
    requires OpenAbove(t, stack, Items) && Top(t).find && (back.NavigateBack? || back.QuitSoft?)
    ensures Goes(t, [back], BackIn(stack))
  {
    hide SpecLegal, SpecRun, Goes;
    GoesOne(t, back, BackIn(stack));
  }

  // ---------------------------------------------------------------- entering and going back

  /** An entry is entered without a detour: something is there to be shown, and no setting and no sole feed
      leads on. */
  predicate Plain(m: Menu, i: Input, e: Input) {
    && i.Enter? && e.Entered? && e.loaded
    && (m.kind.Sections? ==> i.feeds >= 1 && !(e.hasItems && (e.paramount || i.feeds == 1)))
  }

  /** Going back undoes entering. */
  lemma {:induction false} EnterAndBack(s: Spec, i: Input, e: Input)
    requires ReadsIn(s, {Sections, Feeds, Items}) && Plain(Top(s), i, e)
    ensures exists t ::
      && OpenAbove(t, s.stack, match Top(s).kind case Sections => Feeds case Feeds => Items case _ => ItemPager)
      && Goes(s, [i, e], t) && Goes(t, [NavigateBack], BackIn(s.stack))
      && !Top(t).explore && !Top(t).search && !Top(t).find
  {
    hide SpecLegal, SpecRun, Goes;
    var t := SpecStep(SpecStep(s, i), e);
    assert t.stack[..|s.stack|] == s.stack;
    GoesTwo(s, i, e, t);
    GoesOne(t, NavigateBack, BackIn(s.stack));
    var kind := match Top(s).kind case Sections => Feeds case Feeds => Items case _ => ItemPager;
    assert OpenAbove(t, s.stack, kind);
  }

  /** The list of a sole feed is swallowed by its items: going back from them leads to the sections. */
  lemma {:induction false} SoleFeedIsSkipped(s: Spec, e: Input, f: Input)
    requires ReadsIn(s, {Sections}) && e.Entered? && e.hasItems && !e.paramount && f.Entered? && f.loaded
    ensures exists t ::
      && OpenAbove(t, s.stack, Items) && Goes(s, [Enter(1), e, f], t)
      && Goes(t, [NavigateBack], BackIn(s.stack))
  {
    hide SpecLegal, SpecRun, Goes;
    var t := SpecStep(SpecStep(SpecStep(s, Enter(1)), e), f);
    assert SpecStep(SpecStep(s, Enter(1)), e).stack == s.stack + [Fresh(Items, false, false, false, 1)];
    assert t.stack[..|s.stack|] == s.stack;
    GoesThree(s, Enter(1), e, f, t);
    GoesOne(t, NavigateBack, BackIn(s.stack));
    assert OpenAbove(t, s.stack, Items);
  }

  /** When the explore mode is paramount, entering a section opens it above the list of feeds. Going back
      leads to the sections at once, and leaving the mode leads to the list of feeds, which is then shown. */
  lemma {:induction false} ParamountExplore(s: Spec, feeds: nat, e: Input, f: Input)
    requires ReadsIn(s, {Sections}) && feeds >= 1 && e.Entered? && e.paramount && e.hasItems && f.Entered? && f.loaded
    ensures exists t: Spec ::
      && |t.stack| == |s.stack| + 2 && t.stack[|s.stack|].kind.Feeds? && Top(t).kind.Items?
      && Goes(s, [Enter(feeds), e, f], t)
      && Goes(t, [NavigateBack], BackIn(s.stack)) && Goes(t, [ToggleExplore], BackIn(Below(t)))
  {
    hide SpecLegal, SpecRun, Goes;
    var list := Menus.Fresh(Feeds, false, false, false, feeds);
    var t := SpecStep(SpecStep(SpecStep(s, Enter(feeds)), e), f);
    assert t.stack[..|t.stack| - 1] == s.stack + [list];
    assert (s.stack + [list])[..|s.stack|] == s.stack;
    GoesThree(s, Enter(feeds), e, f, t);
    GoesOne(t, NavigateBack, BackIn(s.stack));
    GoesOne(t, ToggleExplore, BackIn(Below(t)));
  }

  /** When the explore mode is paramount, the program begins with it, above the sections. */
  lemma {:induction false} BeginInExplore(feeds: nat, e: Input, f: Input)
    requires e.Entered? && e.paramount && e.hasItems && f.Entered? && f.loaded
    ensures exists t ::
      && OpenAbove(t, SpecBegin(feeds).stack, Items) && Goes(SpecBegin(feeds), [e, f], t)
      && Goes(t, [ToggleExplore], BackIn(SpecBegin(feeds).stack)) && Goes(t, [QuitSoft], Spec([], Over))
  {
    hide SpecLegal, SpecRun, Goes;
    var s := SpecBegin(feeds);
    var t := SpecStep(SpecStep(s, e), f);
    assert t.stack[..1] == s.stack;
    GoesTwo(s, e, f, t);
    GoesOne(t, ToggleExplore, BackIn(s.stack));
    GoesOne(t, QuitSoft, Spec([], Over));
    assert OpenAbove(t, s.stack, Items);
  }

  /** A sole section is skipped: the program begins with its feeds and ends with them. */
  lemma {:induction false} SoleSectionIsSkipped(feeds: nat, e: Input, f: Input)
    requires feeds >= 1 && e.Entered? && e.single && !(e.paramount && e.hasItems)
    requires f.Entered? && !(f.hasItems && (f.paramount || feeds == 1))
    ensures exists t ::
      && OpenAbove(t, [], Feeds) && Goes(SpecBegin(feeds), [e, f], t)
      && Goes(t, [QuitSoft], Spec([], Over)) && Goes(t, [NavigateBack], t)
  {
    hide SpecLegal, SpecRun, Goes;
    var s := SpecBegin(feeds);
    var t := SpecStep(SpecStep(s, e), f);
    assert t.stack[..0] == [];
    GoesTwo(s, e, f, t);
    GoesOne(t, QuitSoft, Spec([], Over));
    GoesOne(t, NavigateBack, t);
    assert OpenAbove(t, [], Feeds);
  }

  /** A list to which one came back shows itself, whatever the settings are. */
  lemma {:induction false} BackIsShown(stack: seq<Menu>, e: Input)
    requires stack != [] && e.Entered? && stack[|stack| - 1].kind in {Sections, Feeds}
    requires stack[|stack| - 1].kind.Feeds? ==> stack[|stack| - 1].feeds >= 1
    ensures exists t :: OpenAbove(t, stack[..|stack| - 1], stack[|stack| - 1].kind) && Goes(BackIn(stack), [e], t)
  {
    hide SpecLegal, SpecRun, Goes;
    var t := SpecStep(BackIn(stack), e);
    GoesOne(BackIn(stack), e, t);
    assert OpenAbove(t, stack[..|stack| - 1], stack[|stack| - 1].kind);
  }

  /** A list is left for the menu below it. Going back keeps the only menu open if that is a list of
      feeds. */
  lemma {:induction false} ListIsLeft(s: Spec, back: Input)
    requires ReadsIn(s, {Feeds, Items}) && (back.NavigateBack? || back.QuitSoft?)
    requires Top(s).kind.Items? ==> !Top(s).explore
    ensures Goes(s, [back], if Top(s).kind.Feeds? && back.NavigateBack? && |s.stack| == 1 then s else BackIn(Below(s)))
  {
    hide SpecLegal, SpecRun, Goes;
    GoesOne(s, back, if Top(s).kind.Feeds? && back.NavigateBack? && |s.stack| == 1 then s else BackIn(Below(s)));
  }

  /** When there is nothing to show, the menu closes at once. */
  lemma {:induction false} NothingToShow(s: Spec, i: Input, e: Input)
    requires s.phase == Reading && s.stack != [] && e.Entered?
    requires match Top(s).kind
      case Sections => (i.Enter? && i.feeds == 0) || (i.ViewErrors? && i.feeds == 0)
                       || ((i.ToggleExplore? || i.Search? || i.Find?) && !e.loaded)
      case Feeds => (i.Enter? || i.ToggleExplore? || i.Search? || i.Find? || i.ViewErrors?) && !e.loaded
      case Items => (i.Enter? || i.Search? || (i.Find? && !Top(s).find) || (i.GotoFeed? && Top(s).explore)) && !e.loaded
      case _ => false
    ensures Goes(s, [i, e], BackIn(s.stack))
  {
    hide SpecLegal, SpecRun, Goes;
    assert SpecStep(s, i).stack[..|s.stack|] == s.stack;
    GoesTwo(s, i, e, BackIn(s.stack));
  }

  // ---------------------------------------------------------------- pagers

  /** Errors are looked at and left. */
  lemma {:induction false} ErrorsAndBack(s: Spec, feeds: nat, e: Input, back: Input)
    requires ReadsIn(s, {Sections, Feeds}) && feeds >= 1 && e.Entered? && e.loaded && (back.NavigateBack? || back.QuitSoft?)
    ensures Goes(s, [ViewErrors(feeds), e, back], BackIn(s.stack))
  {
    hide SpecLegal, SpecRun, Goes;
    assert SpecStep(SpecStep(s, ViewErrors(feeds)), e).stack[..|s.stack|] == s.stack;
    GoesThree(s, ViewErrors(feeds), e, back, BackIn(s.stack));
  }

  /** A jump shows another item in place of the one that is shown, and one that leads nowhere does nothing. */
  lemma {:induction false} JumpReplaces(s: Spec, e: Input)
    requires ReadsIn(s, {ItemPager}) && e.Entered? && e.loaded
    ensures exists t :: OpenAbove(t, Below(s), ItemPager) && Goes(s, [Jump(true), e], t)
    ensures Goes(s, [Jump(false)], s)
  {
    hide SpecLegal, SpecRun, Goes;
    var t := SpecStep(SpecStep(s, Jump(true)), e);
    assert OpenAbove(t, Below(s), ItemPager);
    GoesTwo(s, Jump(true), e, t);
    GoesOne(s, Jump(false), s);
  }

  /** An item is left by going back, by quitting, and by what marks it and closes it. */
  lemma {:induction false} ItemIsLeft(s: Spec, back: Input)
    requires ReadsIn(s, {ItemPager}) && (back.NavigateBack? || back.QuitSoft? || back.ToggleAndClose?)
    ensures Goes(s, [back], BackIn(Below(s)))
  {
    hide SpecLegal, SpecRun, Goes;
    GoesOne(s, back, BackIn(Below(s)));
  }

  /** Quitting for good leaves the program from everywhere, quitting softly from the sections. */
  lemma {:induction false} QuitLeaves(s: Spec)
    requires s.phase == Reading && s.stack != []
    ensures exists t: Spec :: t.phase == Over && Goes(s, [QuitHard], t)
    ensures Top(s).kind.Sections? ==> exists t: Spec :: t.phase == Over && Goes(s, [QuitSoft], t)
  {
    hide SpecLegal, SpecRun, Goes;
    GoesOne(s, QuitHard, SpecStep(s, QuitHard));
    GoesOne(s, QuitSoft, SpecStep(s, QuitSoft));
  }
}
