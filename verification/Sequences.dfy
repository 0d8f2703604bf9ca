/** Loops that pass over some items and keep what the others give. */
module Sequences {
  import opened Wrappers

  /** What `f` gives for the items, in order, without those for which it gives nothing. */
  function FilterMap<T, U>(f: T -> Option<U>, items: seq<T>): (picked: seq<U>)
    ensures |picked| <= |items|
  {
    if items == [] then []
    else
      var init, last := FilterMap(f, items[..|items| - 1]), f(items[|items| - 1]);
      if last.Some? then init + [last.value] else init
  }

  /** `picked[k]` comes from item number `from[k]`; every item that gives something is there, once and
      in its place. */
  ghost predicate Selected<T, U>(f: T -> Option<U>, items: seq<T>, picked: seq<U>, from: seq<nat>) {
    && |from| == |picked|
    && (forall k :: 0 <= k < |from| ==> from[k] < |items| && f(items[from[k]]) == Some(picked[k]))
    && (forall j, k :: 0 <= j < k < |from| ==> from[j] < from[k])
    && (forall i :: 0 <= i < |items| && f(items[i]).Some? ==> i in from)
  }

  lemma SelectedNext<T, U>(f: T -> Option<U>, items: seq<T>, picked: seq<U>, from: seq<nat>, next: T)
    requires Selected(f, items, picked, from)
    ensures f(next).Some? ==> Selected(f, items + [next], picked + [f(next).value], from + [|items|])
    ensures f(next).None? ==> Selected(f, items + [next], picked, from)
  {
    if f(next).Some? {
      assert forall i :: i in from + [|items|] <==> i in from || i == |items|;
    }
  }

  lemma FirstPick<T, U>(f: T -> Option<U>, items: seq<T>, picked: seq<U>, from: seq<nat>)
    requires Selected(f, items, picked, from) && picked != []
    ensures from != [] && from[0] < |items|
  {
  }

  /** The last item gives the last pick. */
  lemma LastIsPicked<T, U>(f: T -> Option<U>, items: seq<T>, picked: seq<U>, from: seq<nat>)
    requires items != [] && Selected(f, items, picked, from) && f(items[|items| - 1]).Some?
    ensures from != [] && Selected(f, items[..|items| - 1], picked[..|from| - 1], from[..|from| - 1])
    ensures picked == picked[..|from| - 1] + [f(items[|items| - 1]).value]
  {
    var n, m := |items| - 1, |from| - 1;
    assert n in from;
    assert from[m] == n;
    forall i | 0 <= i < n && f(items[i]).Some? ensures i in from[..m] {
      assert i in from && from == from[..m] + [n];
    }
  }

  /** Or it gives nothing. */
  lemma LastIsPassedOver<T, U>(f: T -> Option<U>, items: seq<T>, picked: seq<U>, from: seq<nat>)
    requires items != [] && Selected(f, items, picked, from) && f(items[|items| - 1]).None?
    ensures Selected(f, items[..|items| - 1], picked, from)
  {
    assert forall k :: 0 <= k < |from| ==> from[k] != |items| - 1;
  }

  /** There is one selection. */
  lemma {:induction false} SelectionIsUnique<T, U>(f: T -> Option<U>, items: seq<T>, picked: seq<U>, from: seq<nat>)
    requires Selected(f, items, picked, from)
    ensures picked == FilterMap(f, items)
    decreases |items|
  {
    if items == [] {
      if picked != [] {
        FirstPick(f, items, picked, from);
        assert false;
      }
    } else if f(items[|items| - 1]).Some? {
      LastIsPicked(f, items, picked, from);
      SelectionIsUnique(f, items[..|items| - 1], picked[..|from| - 1], from[..|from| - 1]);
    } else {
      LastIsPassedOver(f, items, picked, from);
      SelectionIsUnique(f, items[..|items| - 1], picked, from);
    }
  }

  lemma {:induction false} FirstIsPicked<T, U>(f: T -> Option<U>, items: seq<T>)
    requires items != [] && f(items[0]).Some?
    ensures FilterMap(f, items) != [] && FilterMap(f, items)[0] == f(items[0]).value
    decreases |items|
  {
    if |items| == 1 {
      assert items[..0] == [];
    } else {
      FirstIsPicked(f, items[..|items| - 1]);
    }
  }

  /** There is a selection, and it is the one computed. */
  lemma {:induction false} SelectionExists<T, U>(f: T -> Option<U>, items: seq<T>) returns (from: seq<nat>)
    ensures Selected(f, items, FilterMap(f, items), from)
    decreases |items|
  {
    from := [];
    if items != [] {
      var init, last := items[..|items| - 1], items[|items| - 1];
      from := SelectionExists(f, init);
      SelectedNext(f, init, FilterMap(f, init), from, last);
      assert items == init + [last];
      if f(last).Some? {
        from := from + [|init|];
      }
    }
  }

  lemma {:induction false} SameSelection<T, U>(f: T -> Option<U>, g: T -> Option<U>, items: seq<T>)
    requires forall t :: f(t) == g(t)
    ensures FilterMap(f, items) == FilterMap(g, items)
    decreases |items|
  {
    if items != [] {
      SameSelection(f, g, items[..|items| - 1]);
    }
  }

  /** One pass after another is one pass. */
  lemma {:induction false} FilterMapTwice<T, U, V>(f: T -> Option<U>, g: U -> Option<V>, both: T -> Option<V>,
                                                   items: seq<T>)
    requires forall t :: both(t) == if f(t).Some? then g(f(t).value) else None
    ensures FilterMap(g, FilterMap(f, items)) == FilterMap(both, items)
    decreases |items|
  {
    if items != [] {
      var init, last := items[..|items| - 1], items[|items| - 1];
      FilterMapTwice(f, g, both, init);
      if f(last).Some? {
        assert (FilterMap(f, init) + [f(last).value])[..|FilterMap(f, init)|] == FilterMap(f, init);
      }
    }
  }
}
