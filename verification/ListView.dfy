/** The window of a menu, changed in place. A menu's entries are numbered from 0; the enumerator of the
    menu says of a number whether it is an entry. */
module ListView {
  import opened Viewport

  /** The `d`-th entry after `sel`, around the list. */
  function Ahead(sel: nat, d: nat, n: nat): nat
    requires sel < n && d <= n
  {
    if sel + d < n then sel + d else sel + d - n
  }

  function Behind(sel: nat, d: nat, n: nat): nat
    requires sel < n && d <= n
  {
    if d <= sel then sel - d else sel + n - d
  }

  function Way(sel: nat, d: nat, n: nat, forward: bool): nat
    requires sel < n && d <= n
  {
    if forward then Ahead(sel, d, n) else Behind(sel, d, n)
  }

  /** How far a jump may go: around the list, or to its end. */
  function Reach(sel: nat, n: nat, scrollwrap: bool, forward: bool): (r: nat)
    requires sel < n
    ensures r <= n
  {
    if scrollwrap then n else if forward then n - 1 - sel else sel
  }

  /** `t` is the nearest marked entry in the direction of the jump, `d` steps away. */
  predicate NearestAt(marks: seq<bool>, sel: nat, scrollwrap: bool, forward: bool, t: nat, d: nat)
    requires sel < |marks|
  {
    && 1 <= d <= Reach(sel, |marks|, scrollwrap, forward)
    && t == Way(sel, d, |marks|, forward) && marks[t]
    && (forall e :: 1 <= e < d ==> !marks[Way(sel, e, |marks|, forward)])
  }

  predicate Nearest(marks: seq<bool>, sel: nat, scrollwrap: bool, forward: bool, t: nat)
    requires sel < |marks|
  {
    exists d :: 1 <= d <= |marks| && NearestAt(marks, sel, scrollwrap, forward, t, d)
  }

  /** There is one nearest marked entry, if any is marked. */
  lemma {:induction false} NearestIsUnique(marks: seq<bool>, sel: nat, scrollwrap: bool, forward: bool, t: nat, u: nat)
    requires sel < |marks| && Nearest(marks, sel, scrollwrap, forward, t) && Nearest(marks, sel, scrollwrap, forward, u)
    ensures t == u
  {
    var d :| 1 <= d <= |marks| && NearestAt(marks, sel, scrollwrap, forward, t, d);
    var e :| 1 <= e <= |marks| && NearestAt(marks, sel, scrollwrap, forward, u, e);
  }

  class MenuView {
    var min: nat
    var sel: nat
    var max: nat

    ghost function Window(): View
      reads this
    {
      View(min, sel, max)
    }

    constructor ()
      ensures Window() == View(0, 0, 0)
    {
      min, sel, max := 0, 0, 0;
    }

    static method Subtract(a: nat, b: nat) returns (r: nat)
      ensures r == Minus(a, b)
    {
      r := if b <= a then a - b else (a - b) % SIZE_T;
    }

    /** The common tail: the last row goes back to an entry. */
    method ShrinkMax(n: nat, h: nat)
      requires h >= 1
      modifies `max
      ensures max == Shrunk(old(max), n, h)
    {
      while max >= h && !(max < n)
        invariant max <= old(max) && Shrunk(max, n, h) == Shrunk(old(max), n, h)
      {
        max := max - 1;
      }
    }

    method AdjustViewRange(pager: bool, n: nat, h: nat, s: nat)
      requires h >= 1
      modifies this
      ensures !pager ==> Window() == Adjusted(old(Window()), n, h, s)
      ensures pager ==> sel == old(sel) && PagerFits(Window(), n, h) && min == Min(old(min), Max(n, h) - h)
    {
      if pager {
        max := min + (h - 1);
      } else {
        var limit := if sel > s then sel - s else 0;
        if min > limit {
          min := limit;
        }
        max := min + (h - 1);
        if sel + s > max {
          max := sel + s;
        }
      }
      ShrinkMax(n, h);
      min := Subtract(max, h - 1);
    }

    static method CountEntries(n: nat) returns (i: nat)
      ensures i == n
    {
      i := 0;
      while i < n
        invariant i <= n
      {
        i := i + 1;
      }
    }

    /** Where to go: around the list if this is wanted, and then back to an entry. */
    static method PickEntry(sel: nat, newSel: nat, isWrappable: bool, scrollwrap: bool, n: nat) returns (t: nat)
      requires n >= 1 ==> sel < n
      ensures n >= 1 ==> t == Target(sel, newSel, n, isWrappable && scrollwrap)
    {
      t := newSel;
      if isWrappable && scrollwrap {
        if t > sel {
          if sel < n && !(sel + 1 < n) {
            t := 0;
          }
        } else if t == 0 && sel == 0 {
          t := CountEntries(n);
        }
      }
      while !(t < n) && t > 0
        invariant n >= 1 ==> Min(t, n - 1) == Target(sel, newSel, n, isWrappable && scrollwrap)
      {
        t := t - 1;
      }
    }

    method ChangeListView(newSel: nat, isWrappable: bool, scrollwrap: bool, n: nat, h: nat, s: nat)
      requires 2 * s <= h && (n >= 1 ==> sel < n)
      modifies this
      ensures Window() == Changed(old(Window()), newSel, n, h, s, isWrappable && scrollwrap)
    {
      hide Target, Shrunk;
      if h < 1 {
        return;
      }
      var t: nat := PickEntry(sel, newSel, isWrappable, scrollwrap, n);
      if !(t < n) {
        return;
      }
      if t + s > max {
        max := t + s;
        ShrinkMax(n, h);
        min := Subtract(max, h - 1);
        sel := t;
      } else if (t >= s && t - s < min) || (t < s && min > 0) {
        if t >= s {
          min := t - s;
          if s == h / 2 && h % 2 == 0 {
            min := min + 1;
          }
        } else {
          min := 0;
        }
        max := min + (h - 1);
        sel := t;
      } else if t != sel {
        sel := t;
      }
    }

    static method FindAhead(marks: seq<bool>, sel: nat, scrollwrap: bool) returns (found: bool, i: nat)
      requires sel < |marks|
      ensures found ==> Nearest(marks, sel, scrollwrap, true, i)
      ensures !found ==> Unmarked(marks, sel, true, Reach(sel, |marks|, scrollwrap, true) + 1)
    {
      hide Nearest;
      i := sel + 1;
      var j := 0;
      while j < 2
        invariant 0 <= j <= 2 && (j > 0 ==> scrollwrap) && i == if j == 0 then sel + 1 else 0
        invariant Unmarked(marks, sel, true, if j == 0 then 1 else if j == 1 then |marks| - sel else |marks| + 1)
      {
        while i < |marks|
          invariant i <= |marks| && (j == 0 ==> i > sel)
          invariant Unmarked(marks, sel, true, if j == 0 then i - sel else |marks| - sel + i)
        {
          if marks[i] {
            NearestFrom(marks, sel, scrollwrap, true, i, if j == 0 then i - sel else |marks| - sel + i);
            return true, i;
          }
          i := i + 1;
        }
        if !scrollwrap {
          break;
        }
        i := 0;
        j := j + 1;
      }
      return false, 0;
    }

    static method FindBehind(marks: seq<bool>, sel: nat, scrollwrap: bool) returns (found: bool, i: nat)
      requires sel < |marks|
      ensures found ==> Nearest(marks, sel, scrollwrap, false, i)
      ensures !found ==> Unmarked(marks, sel, false, Reach(sel, |marks|, scrollwrap, false) + 1)
    {
      hide Nearest;
      i := sel;
      var j := 0;
      while j < 2
        invariant 0 <= j <= 2 && (j > 0 ==> scrollwrap) && i == if j == 0 then sel else |marks|
        invariant Unmarked(marks, sel, false, if j == 0 then 1 else if j == 1 then sel + 1 else |marks| + 1)
      {
        while i > 0 && i - 1 < |marks|
          invariant 0 <= i <= |marks| && (j == 0 ==> i <= sel)
          invariant Unmarked(marks, sel, false, if j == 0 then sel - i + 1 else sel + |marks| - i + 1)
        {
          if marks[i - 1] {
            NearestFrom(marks, sel, scrollwrap, false, i - 1, if j == 0 then sel - i + 1 else sel + |marks| - i + 1);
            return true, i - 1;
          }
          i := i - 1;
        }
        i := CountEntries(|marks|);
        if !scrollwrap {
          break;
        }
        j := j + 1;
      }
      return false, 0;
    }

    /** Jumps to the nearest marked entry; without one nothing changes. */
    method ChangeListViewFiltered(marks: seq<bool>, isForward: bool, scrollwrap: bool, h: nat, s: nat)
      requires h >= 1 && 2 * s <= h && sel < |marks|
      modifies this
      ensures forall t :: 0 <= t < |marks| && Nearest(marks, old(sel), scrollwrap, isForward, t) ==>
        Window() == Moved(old(Window()), t, |marks|, h, s)
      ensures (forall t :: 0 <= t < |marks| ==> !Nearest(marks, old(sel), scrollwrap, isForward, t)) ==>
        Window() == old(Window())
    {
      hide Nearest, Unmarked, Moved;
      var found, i;
      if isForward {
        found, i := FindAhead(marks, sel, scrollwrap);
      } else {
        found, i := FindBehind(marks, sel, scrollwrap);
      }
      if found {
        IsEntry(marks, sel, scrollwrap, isForward, i);
        ChangeListView(i, false, scrollwrap, |marks|, h, s);
        forall t | 0 <= t < |marks| && Nearest(marks, old(sel), scrollwrap, isForward, t) ensures t == i {
          NearestIsUnique(marks, old(sel), scrollwrap, isForward, t, i);
        }
      } else {
        NoneNearest(marks, sel, scrollwrap, isForward);
      }
    }

    method ChangePagerView(newSel: nat, n: nat, h: nat)
      requires PagerFits(Window(), n, h)
      modifies `min, `max
      ensures Window() == PagerChanged(old(Window()), newSel, n, h)
    {
      if h < 1 {
        return;
      }
      var t: nat := newSel;
      while !(t < n) && t > 0
        invariant n >= 1 ==> Min(t, n - 1) == Min(newSel, n - 1)
      {
        t := t - 1;
      }
      if !(t < n) {
        return;
      }
      var count := CountEntries(n);
      if count - t < h {
        t := if count > h then count - h else 0;
      }
      if t != min {
        max := t + (h - 1);
        ShrinkMax(n, h);
        min := Subtract(max, h - 1);
      }
    }
  }

  /** The first steps of the way meet no marked entry. */
  predicate Unmarked(marks: seq<bool>, sel: nat, forward: bool, k: int)
    requires sel < |marks|
  {
    forall e :: 1 <= e < k && e <= |marks| ==> !marks[Way(sel, e, |marks|, forward)]
  }

  lemma {:induction false} NearestFrom(marks: seq<bool>, sel: nat, scrollwrap: bool, forward: bool, t: nat, d: nat)
    requires sel < |marks| && Unmarked(marks, sel, forward, d) && d >= 1 && t < |marks| && marks[t]
    requires d <= |marks| ==> d <= Reach(sel, |marks|, scrollwrap, forward) && t == Way(sel, d, |marks|, forward)
    requires d > |marks| ==> d <= 2 * |marks| && t == Way(sel, d - |marks|, |marks|, forward)
    ensures Nearest(marks, sel, scrollwrap, forward, t)
  {
    if d <= |marks| {
      assert NearestAt(marks, sel, scrollwrap, forward, t, d);
    }
  }

  lemma {:induction false} IsEntry(marks: seq<bool>, sel: nat, scrollwrap: bool, forward: bool, t: nat)
    requires sel < |marks| && Nearest(marks, sel, scrollwrap, forward, t)
    ensures t < |marks|
  {
  }

  lemma {:induction false} NoneNearest(marks: seq<bool>, sel: nat, scrollwrap: bool, forward: bool)
    requires sel < |marks| && Unmarked(marks, sel, forward, Reach(sel, |marks|, scrollwrap, forward) + 1)
    ensures forall t :: 0 <= t < |marks| ==> !Nearest(marks, sel, scrollwrap, forward, t)
  {
  }
}
