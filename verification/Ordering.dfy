/** Python's order on strings and `sorted` on sets of strings. */
module Ordering {

  /** Lexicographic order by code point. */
  predicate Less(a: string, b: string) {
    b != "" && (a == "" || a[0] < b[0] || (a[0] == b[0] && Less(a[1..], b[1..])))
  }

  /** What comes first is the proper prefix, or the string with the lesser character where the two first differ. */
  ghost predicate ComesBefore(a: string, b: string) {
    || (|a| < |b| && b[..|a|] == a)
    || (exists i: nat :: i < |a| && i < |b| && a[..i] == b[..i] && a[i] < b[i])
  }

  lemma {:induction false} LessIsComesBefore(a: string, b: string)
    ensures Less(a, b) <==> ComesBefore(a, b)
    decreases a
  {
    if a != "" && b != "" {
      LessIsComesBefore(a[1..], b[1..]);
      if a[0] == b[0] {
        SameHead(a, b);
      } else {
        assert a[..0] == b[..0];
        assert forall i :: 0 < i < |a| && i < |b| ==> a[..i][0] != b[..i][0];
        assert |a| < |b| ==> b[..|a|][0] != a[0];
      }
    } else if b != "" {
      assert b[..0] == a;
    }
  }

  lemma SameHead(a: string, b: string)
    requires a != "" && b != "" && a[0] == b[0]
    ensures ComesBefore(a, b) <==> ComesBefore(a[1..], b[1..])
  {
    if |a| < |b| {
      assert b[..|a|] == [b[0]] + b[1..][..|a| - 1] && a == [a[0]] + a[1..];
    }
    if i: nat :| i < |a| && i < |b| && a[..i] == b[..i] && a[i] < b[i] {
      assert i > 0;
      assert a[1..][..i - 1] == a[..i][1..] && b[1..][..i - 1] == b[..i][1..];
      assert a[1..][i - 1] < b[1..][i - 1];
    }
    if i: nat :| i < |a[1..]| && i < |b[1..]| && a[1..][..i] == b[1..][..i] && a[1..][i] < b[1..][i] {
      assert a[..i + 1] == [a[0]] + a[1..][..i] && b[..i + 1] == [b[0]] + b[1..][..i];
      assert a[i + 1] < b[i + 1];
    }
  }

  lemma {:induction false} LessIsTransitive(a: string, b: string, c: string)
    requires Less(a, b) && Less(b, c)
    ensures Less(a, c)
  {
    if a != "" && a[0] == b[0] == c[0] {
      LessIsTransitive(a[1..], b[1..], c[1..]);
    }
  }

  lemma {:induction false} LessIsTotal(a: string, b: string)
    ensures Less(a, b) || a == b || Less(b, a)
  {
    if a != "" && b != "" && a[0] == b[0] {
      LessIsTotal(a[1..], b[1..]);
      assert a == [a[0]] + a[1..] && b == [b[0]] + b[1..];
    }
  }

  lemma {:induction false} LessIsIrreflexive(a: string)
    ensures !Less(a, a)
  {
    if a != "" {
      LessIsIrreflexive(a[1..]);
    }
  }

  /** Strictly ascending, hence without repetitions. */
  predicate Ascending(xs: seq<string>) {
    forall i, j :: 0 <= i < j < |xs| ==> Less(xs[i], xs[j])
  }

  function Elements(xs: seq<string>): set<string> {
    set x | x in xs
  }

  ghost predicate IsSorted(xs: seq<string>, elements: set<string>) {
    Ascending(xs) && Elements(xs) == elements
  }

  function Insert(x: string, xs: seq<string>): seq<string> {
    if xs == [] then [x]
    else if Less(x, xs[0]) then [x] + xs
    else [xs[0]] + Insert(x, xs[1..])
  }

  lemma {:induction false} InsertKeepsOrder(x: string, xs: seq<string>)
    requires Ascending(xs) && x !in xs
    ensures IsSorted(Insert(x, xs), Elements(xs) + {x})
  {
    if xs != [] {
      assert xs == [xs[0]] + xs[1..];
      if Less(x, xs[0]) {
        forall j | 0 <= j < |xs| ensures Less(x, xs[j]) {
          if j > 0 { LessIsTransitive(x, xs[0], xs[j]); }
        }
      } else {
        LessIsTotal(x, xs[0]);
        var rest := Insert(x, xs[1..]);
        InsertKeepsOrder(x, xs[1..]);
        forall j | 0 <= j < |rest| ensures Less(xs[0], rest[j]) {
          assert rest[j] in Elements(rest);
        }
        assert Elements([xs[0]] + rest) == {xs[0]} + Elements(rest);
      }
    }
  }

  /** `sorted(elements)`. */
  ghost function SortedOf(elements: set<string>): (xs: seq<string>)
    ensures IsSorted(xs, elements)
  {
    if elements == {} then []
    else
      var x :| x in elements;
      var rest := SortedOf(elements - {x});
      assert x !in Elements(rest);
      InsertKeepsOrder(x, rest);
      Insert(x, rest)
  }

  /** `sorted` over a list. */
  function SortList(xs: seq<string>): seq<string> {
    if xs == [] then [] else Insert(xs[0], SortList(xs[1..]))
  }

  lemma {:induction false} SortListSorts(xs: seq<string>)
    requires forall i, j :: 0 <= i < j < |xs| ==> xs[i] != xs[j]
    ensures IsSorted(SortList(xs), Elements(xs))
  {
    if xs != [] {
      SortListSorts(xs[1..]);
      assert xs[0] !in Elements(xs[1..]);
      assert xs[0] !in Elements(SortList(xs[1..]));
      InsertKeepsOrder(xs[0], SortList(xs[1..]));
      assert Elements(xs) == Elements(xs[1..]) + {xs[0]};
    }
  }

  /** There is one way to sort a set. */
  lemma {:induction false} SortedIsUnique(xs: seq<string>, ys: seq<string>)
    requires Ascending(xs) && Ascending(ys) && Elements(xs) == Elements(ys)
    ensures xs == ys
  {
    AscendingLength(xs);
    AscendingLength(ys);
    if xs != [] {
      HeadIsLeast(xs, ys);
      HeadIsLeast(ys, xs);
      assert xs[0] == ys[0] by {
        if Less(xs[0], ys[0]) && Less(ys[0], xs[0]) {
          LessIsTransitive(xs[0], ys[0], xs[0]);
          LessIsIrreflexive(xs[0]);
        }
      }
      TailElements(xs);
      TailElements(ys);
      SortedIsUnique(xs[1..], ys[1..]);
      assert xs == [xs[0]] + xs[1..] && ys == [ys[0]] + ys[1..];
    }
  }

  lemma HeadIsLeast(xs: seq<string>, ys: seq<string>)
    requires xs != [] && ys != [] && Ascending(xs) && Elements(ys) <= Elements(xs)
    ensures xs[0] == ys[0] || Less(xs[0], ys[0])
  {
    assert ys[0] in Elements(ys);
    var i :| 0 <= i < |xs| && xs[i] == ys[0];
  }

  lemma TailElements(xs: seq<string>)
    requires xs != [] && Ascending(xs)
    ensures Elements(xs[1..]) == Elements(xs) - {xs[0]}
  {
    LessIsIrreflexive(xs[0]);
    assert xs == [xs[0]] + xs[1..];
  }

  lemma {:induction false} AscendingLength(xs: seq<string>)
    requires Ascending(xs)
    ensures |xs| == |Elements(xs)|
  {
    if xs == [] {
      assert Elements(xs) == {};
    } else {
      TailElements(xs);
      AscendingLength(xs[1..]);
    }
  }

  /** `sorted` over a set, one insertion at a time. */
  method Sort(elements: set<string>) returns (xs: seq<string>)
    ensures xs == SortedOf(elements)
    ensures Ascending(xs) && Elements(xs) == elements && |xs| == |elements|
  {
    xs := [];
    var left := elements;
    while left != {}
      invariant left <= elements && IsSorted(xs, elements - left)
      decreases left
    {
      var x :| x in left;
      assert x !in Elements(xs);
      InsertKeepsOrder(x, xs);
      xs := Insert(x, xs);
      left := left - {x};
      assert elements - left == elements - (left + {x}) + {x};
    }
    assert elements - left == elements;
    SortedIsUnique(xs, SortedOf(elements));
    AscendingLength(xs);
  }
}
