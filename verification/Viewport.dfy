/** The window that a list or a pager shows of its entries: `src/interface-list.c`. */
module Viewport {

  /** The entries from `min` to `max` are shown; `sel` is selected. */
  datatype View = View(min: nat, sel: nat, max: nat)

  const SIZE_T: nat := 0x1_0000_0000_0000_0000

  /** Subtraction of unsigned numbers wraps around. */
  function Minus(a: nat, b: nat): nat {
    if b <= a then a - b else (a - b) % SIZE_T
  }

  function Min(a: nat, b: nat): nat {
    if a < b then a else b
  }

  function Max(a: nat, b: nat): nat {
    if a > b then a else b
  }

  /** The `scrolloff` setting is cut to half of the height. */
  function Scrolloff(setting: nat, h: nat): (s: nat)
    ensures if 2 * setting <= h then s == setting else 2 * s <= h < 2 * s + 2
  {
    if setting > h / 2 then h / 2 else setting
  }

  /** The last shown row goes back to the last entry, but not before the first page is full. */
  function Shrunk(max: nat, n: nat, h: nat): nat
    requires h >= 1
  {
    if max < h || max < n then max else Max(h, n) - 1
  }

  // ---------------------------------------------------------------- specification

  /** `adjust_view_range_unprotected` for a list of `n` entries. */
  function Adjusted(v: View, n: nat, h: nat, s: nat): View
    requires h >= 1
  {
    var limit := if v.sel > s then v.sel - s else 0;
    var min := Min(v.min, limit);
    var max := Shrunk(Max(min + (h - 1), v.sel + s), n, h);
    View(Minus(max, h - 1), v.sel, max)
  }

  /** The entry that a command goes to. `wraps` says that it may wrap around, and that this is set. */
  function Target(sel: nat, newSel: nat, n: nat, wraps: bool): (t: nat)
    requires n >= 1
    ensures t < n
  {
    var t :=
      if wraps && newSel > sel && sel == n - 1 then 0
      else if wraps && newSel == 0 && sel == 0 then n
      else newSel;
    Min(t, n - 1)
  }

  /** The window moves when the entry `t` would be too close to one of its ends. */
  function Moved(v: View, t: nat, n: nat, h: nat, s: nat): View
    requires h >= 1
  {
    if t + s > v.max then
      var max := Shrunk(t + s, n, h);
      View(Minus(max, h - 1), t, max)
    else if t >= s && t - s < v.min then
      var min := t - s + if 2 * s == h then 1 else 0;
      View(min, t, min + (h - 1))
    else if t < s && v.min > 0 then View(0, t, h - 1)
    else v.(sel := t)
  }

  /** `change_list_view_unprotected`. */
  function Changed(v: View, newSel: nat, n: nat, h: nat, s: nat, wraps: bool): View {
    if h < 1 || n < 1 then v else Moved(v, Target(v.sel, newSel, n, wraps), n, h, s)
  }

  datatype Command = Next | Prev | NextPage | PrevPage | NextHalf | PrevHalf | First | Last

  function NewSel(c: Command, sel: nat, n: nat, h: nat): nat {
    match c
    case Next => sel + 1
    case Prev => if sel > 1 then sel - 1 else 0
    case NextPage => sel + h
    case PrevPage => if sel > h then sel - h else 0
    case NextHalf => sel + h / 2
    case PrevHalf => if sel > h / 2 then sel - h / 2 else 0
    case First => 0
    case Last => n
  }

  predicate Wrappable(c: Command) {
    !c.First? && !c.Last?
  }

  /** `handle_list_menu_control`. */
  function Commanded(v: View, c: Command, n: nat, h: nat, s: nat, scrollwrap: bool): View {
    Changed(v, NewSel(c, v.sel, n, h), n, h, s, Wrappable(c) && scrollwrap)
  }

  /** `change_pager_view_unprotected`. */
  function PagerChanged(v: View, newSel: nat, n: nat, h: nat): View {
    if h < 1 || n < 1 then v
    else
      var t := Min(newSel, n - 1);
      var t := if n - t < h then (if n > h then n - h else 0) else t;
      if t == v.min then v else v.(min := t, max := t + (h - 1))
  }

  // ---------------------------------------------------------------- what a good window is

  /** The window has one row per entry, it shows the selected entry, and no row beyond the last entry
      unless the first is shown as well. */
  predicate Fits(v: View, n: nat, h: nat) {
    v.min <= v.sel <= v.max && v.sel < n && v.max + 1 == v.min + h && v.max < Max(n, h)
  }

  /** The selected entry keeps away from both ends, except at the ends of the list. One row less will do
      above when the distance is half of the height. */
  predicate Margins(v: View, n: nat, h: nat, s: nat) {
    && (v.min == 0 || v.sel >= v.min + s || (2 * s == h && v.sel + 1 == v.min + s))
    && (v.max + 1 >= n || v.max >= v.sel + s)
  }

  predicate Good(v: View, n: nat, h: nat, s: nat) {
    Fits(v, n, h) && Margins(v, n, h, s)
  }

  // ---------------------------------------------------------------- theorems

  lemma {:induction false} ChangeKeepsGood(v: View, newSel: nat, n: nat, h: nat, s: nat, wraps: bool)
    requires Good(v, n, h, s) && 2 * s <= h
    ensures Good(Changed(v, newSel, n, h, s, wraps), n, h, s)
    ensures Changed(v, newSel, n, h, s, wraps).sel == Target(v.sel, newSel, n, wraps)
  {
  }

  /** Whatever the window was before, it is good after an adjustment. */
  lemma {:induction false} AdjustmentHeals(v: View, n: nat, h: nat, s: nat)
    requires h >= 1 && v.sel < n && 2 * s <= h
    ensures Good(Adjusted(v, n, h, s), n, h, s) && Adjusted(v, n, h, s).sel == v.sel
  {
  }

  /** A good window stays where it is as long as the new entry keeps its distance. */
  lemma {:induction false} WindowStaysIff(v: View, newSel: nat, n: nat, h: nat, s: nat, wraps: bool)
    requires Good(v, n, h, s) && 2 * s <= h
    ensures var t := Target(v.sel, newSel, n, wraps);
      Changed(v, newSel, n, h, s, wraps) == v.(sel := t) <==>
        (v.min <= t <= v.max && Margins(v.(sel := t), n, h, s))
  {
  }

  function Distance(a: nat, b: nat): nat {
    if a < b then b - a else a - b
  }

  /** A command moves the window no further than it must: of all good windows that show the new entry, the
      new one is the nearest to the old one, and the only nearest one. */
  lemma {:induction false} ChangeIsNearest(v: View, newSel: nat, n: nat, h: nat, s: nat, wraps: bool, w: View)
    requires Good(v, n, h, s) && 2 * s <= h
    requires Good(w, n, h, s) && w.sel == Target(v.sel, newSel, n, wraps)
    ensures var u := Changed(v, newSel, n, h, s, wraps);
      u == w || Distance(u.min, v.min) < Distance(w.min, v.min)
  {
  }

  /** So does an adjustment, whatever the window was before. */
  lemma {:induction false} AdjustmentIsNearest(v: View, n: nat, h: nat, s: nat, w: View)
    requires h >= 1 && v.sel < n && 2 * s <= h
    requires Good(w, n, h, s) && w.sel == v.sel
    ensures var u := Adjusted(v, n, h, s);
      u == w || Distance(u.min, v.min) < Distance(w.min, v.min)
  {
  }

  /** The last subtraction has wrapped around: the window begins near the largest number. */
  predicate Wrapped(v: View, h: nat) {
    v.max + 1 < h && v.min == v.max + SIZE_T - (h - 1)
  }

  /** Exactly when the subtraction in `change_list_view_unprotected` wraps around, whatever the window is
      that an adjustment has not seen: when the new entry with its distance is below the old window, but
      on the first page. A window that wrapped before does so again or is repaired. */
  lemma {:induction false} UnderflowIff(v: View, newSel: nat, n: nat, h: nat, s: nat, wraps: bool)
    requires n >= 1 && v.sel < n && h >= 1 && 2 * s <= h && n + h <= SIZE_T
    ensures Wrapped(Changed(v, newSel, n, h, s, wraps), h) <==>
      v.max < Target(v.sel, newSel, n, wraps) + s && Target(v.sel, newSel, n, wraps) + s + 1 < h
  {
  }

  /** It does happen: jumping to the next item from a pager after the terminal has grown. The list of
      items is not the menu that is shown, so its window was not adjusted. */
  lemma {:induction false} JumpUnderPagerUnderflows()
    ensures Good(View(0, 1, 2), 20, 3, Scrolloff(1, 3))
    ensures Commanded(View(0, 1, 2), Next, 20, 10, Scrolloff(1, 10), false) == View(SIZE_T - 6, 2, 3)
  {
  }

  // ---------------------------------------------------------------- a list over its whole life

  /** A list menu as its commands come in. `covered` means that a pager runs on top of it. */
  datatype List = List(view: View, n: nat, h: nat, setting: nat, covered: bool)

  /** `Reloaded` is a refresh with `n` entries that selects the entry `sel`, which may be gone. */
  datatype Event =
    | Control(c: Command, scrollwrap: bool)
    | Jumped(newSel: nat)
    | Resized(h: nat)
    | Reloaded(n: nat, sel: nat)
    | Cover
    | Uncover

  predicate Possible(l: List, e: Event) {
    match e
    case Reloaded(n, _) => n >= 1 && !l.covered
    case Cover => !l.covered
    case Uncover => l.covered
    case _ => true
  }

  /** `redraw_list_menu_unprotected`: without any height nothing is done. */
  function Redrawn(l: List): List {
    if l.h < 1 then l else l.(view := Adjusted(l.view, l.n, l.h, Scrolloff(l.setting, l.h)))
  }

  /** `reset_list_menu_unprotected`: when the selected entry is gone the first one is selected. */
  function Reset(l: List): List {
    Redrawn(if l.view.sel < l.n then l else l.(view := View(0, 0, l.view.max)))
  }

  function After(l: List, e: Event): List
    requires Possible(l, e)
  {
    match e
    case Control(c, scrollwrap) =>
      l.(view := Commanded(l.view, c, l.n, l.h, Scrolloff(l.setting, l.h), scrollwrap))
    case Jumped(newSel) => l.(view := Changed(l.view, newSel, l.n, l.h, Scrolloff(l.setting, l.h), false))
    case Resized(h) => if l.covered then l.(h := h) else Redrawn(l.(h := h))
    case Reloaded(n, sel) => Reset(l.(n := n, view := l.view.(sel := sel)))
    case Cover => l.(covered := true)
    case Uncover => Redrawn(l.(covered := false))
  }

  /** The selection is always an entry. While the list is shown in a window of some height, the window is
      good. */
  predicate ListOk(l: List) {
    l.view.sel < l.n && (l.h >= 1 && !l.covered ==> Good(l.view, l.n, l.h, Scrolloff(l.setting, l.h)))
  }

  lemma {:induction false} RedrawIsOk(l: List)
    requires l.view.sel < l.n
    ensures ListOk(Redrawn(l)) && Redrawn(l).view.sel == l.view.sel
  {
    hide Adjusted, Good;
    if l.h >= 1 { AdjustmentHeals(l.view, l.n, l.h, Scrolloff(l.setting, l.h)); }
  }

  /** Through everything that happens to a list. A reload keeps the selection that it is asked for, if
      that is still an entry. */
  lemma {:induction false} EventKeepsList(l: List, e: Event)
    requires ListOk(l) && Possible(l, e)
    ensures ListOk(After(l, e))
    ensures After(l, e).covered <==> e.Cover? || (l.covered && !e.Uncover?)
    ensures e.Reloaded? ==> After(l, e).view.sel == if e.sel < e.n then e.sel else 0
  {
    hide Adjusted, Moved, Target, Good;
    match e
    case Control(c, scrollwrap) => ChangeKeepsList(l, NewSel(c, l.view.sel, l.n, l.h), Wrappable(c) && scrollwrap);
    case Jumped(newSel) => ChangeKeepsList(l, newSel, false);
    case Resized(h) => RedrawIsOk(l.(h := h));
    case Reloaded(n, sel) =>
      var m := l.(n := n, view := l.view.(sel := sel));
      RedrawIsOk(if sel < n then m else m.(view := View(0, 0, l.view.max)));
    case Cover =>
    case Uncover => RedrawIsOk(l.(covered := false));
  }

  lemma {:induction false} ChangeKeepsList(l: List, newSel: nat, wraps: bool)
    requires ListOk(l)
    ensures ListOk(l.(view := Changed(l.view, newSel, l.n, l.h, Scrolloff(l.setting, l.h), wraps)))
  {
    if !l.covered && l.h >= 1 {
      ChangeKeepsGood(l.view, newSel, l.n, l.h, Scrolloff(l.setting, l.h), wraps);
    }
  }

  function Run(l: List, run: seq<Event>): (r: List)
    requires ListOk(l)
    ensures ListOk(r)
    decreases |run|
  {
    if run == [] || !Possible(l, run[0]) then l
    else
      EventKeepsList(l, run[0]);
      Run(After(l, run[0]), run[1..])
  }

  // ---------------------------------------------------------------- where the commands go

  lemma {:induction false} OneAhead(sel: nat, n: nat)
    requires sel < n
    ensures (sel + 1) % n == if sel == n - 1 then 0 else sel + 1
  {
  }

  lemma {:induction false} OneBehind(sel: nat, n: nat)
    requires sel < n
    ensures (sel + n - 1) % n == if sel == 0 then n - 1 else sel - 1
  {
    if sel > 0 {
      Reduced(sel - 1, n);
      assert sel + n - 1 == (sel - 1) + n;
    }
  }

  lemma {:induction false} Reduced(a: nat, n: nat)
    requires a < n
    ensures (a + n) % n == a
  {
  }

  lemma {:induction false} NextAndPrevSteps(v: View, n: nat, h: nat, s: nat)
    requires h >= 1 && v.sel < n
    ensures Commanded(v, Next, n, h, s, true).sel == if v.sel == n - 1 then 0 else v.sel + 1
    ensures Commanded(v, Prev, n, h, s, true).sel == if v.sel == 0 then n - 1 else v.sel - 1
  {
  }

  /** With `scrollwrap` the next and the previous entry are taken around the list, and undo each other. */
  lemma {:induction false} NextAndPrevAreShifts(v: View, n: nat, h: nat, s: nat)
    requires h >= 1 && v.sel < n
    ensures var next, prev := Commanded(v, Next, n, h, s, true), Commanded(v, Prev, n, h, s, true);
      && next.sel == (v.sel + 1) % n && prev.sel == (v.sel + n - 1) % n
      && Commanded(next, Prev, n, h, s, true).sel == v.sel
      && Commanded(prev, Next, n, h, s, true).sel == v.sel
  {
    hide Commanded;
    OneAhead(v.sel, n);
    OneBehind(v.sel, n);
    NextAndPrevSteps(v, n, h, s);
    NextAndPrevSteps(Commanded(v, Next, n, h, s, true), n, h, s);
    NextAndPrevSteps(Commanded(v, Prev, n, h, s, true), n, h, s);
  }

  /** Without it all commands stop at the ends of the list. */
  lemma {:induction false} CommandsClamp(v: View, c: Command, n: nat, h: nat, s: nat)
    requires Good(v, n, h, s) && 2 * s <= h
    ensures var t := Commanded(v, c, n, h, s, false).sel;
      match c
      case Next => t == Min(v.sel + 1, n - 1)
      case Prev => t == Max(v.sel, 1) - 1
      case NextPage => t == Min(v.sel + h, n - 1)
      case PrevPage => t == Max(v.sel, h) - h
      case NextHalf => t == Min(v.sel + h / 2, n - 1)
      case PrevHalf => t == Max(v.sel, h / 2) - h / 2
      case First => t == 0
      case Last => t == n - 1
  {
  }

  /** With it a page forward from the last entry goes to the first, and a page back from the first goes
      to the last. Half a page of one row is no step at all, and then a half page forward goes back as
      well. */
  lemma {:induction false} PagesWrap(v: View, c: Command, n: nat, h: nat, s: nat)
    requires Good(v, n, h, s) && 2 * s <= h && c in {NextPage, PrevPage, NextHalf, PrevHalf}
    ensures var t, clamped := Commanded(v, c, n, h, s, true).sel, Commanded(v, c, n, h, s, false).sel;
      var forward := c == NextPage || (c == NextHalf && h > 1);
      t == if forward then (if v.sel == n - 1 then 0 else clamped)
           else if v.sel == 0 then n - 1 else clamped
  {
  }

  /** The first and the last entry are where they are, with it as without it. */
  lemma {:induction false} EndsDoNotWrap(v: View, n: nat, h: nat, s: nat, scrollwrap: bool)
    requires n >= 1 && h >= 1
    ensures Commanded(v, First, n, h, s, scrollwrap).sel == 0
    ensures Commanded(v, Last, n, h, s, scrollwrap).sel == n - 1
  {
  }

  // ---------------------------------------------------------------- pagers

  predicate PagerFits(v: View, n: nat, h: nat) {
    v.max + 1 == v.min + h && v.max < Max(n, h)
  }

  /** A pager goes where it is told to, but the last page stays full. */
  lemma {:induction false} PagerGoesTo(v: View, newSel: nat, n: nat, h: nat)
    requires h >= 1 && n >= 1 && PagerFits(v, n, h)
    ensures var w := PagerChanged(v, newSel, n, h);
      w.min == Min(newSel, Max(n, h) - h) && w.max + 1 == w.min + h && w.max < Max(n, h) && w.sel == v.sel
  {
  }
}
