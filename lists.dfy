/**
 * The array operations the UI handlers apply to their lists: `filter`, kept
 * in order, and the "remove it if present, else append it" toggle used for
 * selected part types and expanded library categories.
 */
module Lists {

  /** `array.filter(keep)`, keeping order. */
  function Filter<T(!new)>(s: seq<T>, keep: T -> bool): (r: seq<T>)
    ensures |r| <= |s|
    ensures forall x :: x in r <==> x in s && keep(x)
    decreases |s|
  {
    if |s| == 0 then []
    else Filter(s[..|s| - 1], keep) + (if keep(s[|s| - 1]) then [s[|s| - 1]] else [])
  }

  /** Filtering a list with one more entry at the end. */
  lemma FilterSnoc<T(!new)>(s: seq<T>, x: T, keep: T -> bool)
    ensures Filter(s + [x], keep) == Filter(s, keep) + (if keep(x) then [x] else [])
  {
    assert (s + [x])[..|s|] == s;
  }

  /** Everything kept, nothing is removed. */
  lemma {:induction false} FilterAll<T(!new)>(s: seq<T>, keep: T -> bool)
    requires forall i :: 0 <= i < |s| ==> keep(s[i])
    ensures Filter(s, keep) == s
    decreases |s|
  {
    if |s| > 0 {
      var init, x := s[..|s| - 1], s[|s| - 1];
      assert init + [x] == s;
      FilterAll(init, keep);
      FilterSnoc(init, x, keep);
    }
  }

  /** Nothing kept, nothing is left. */
  lemma {:induction false} FilterNone<T(!new)>(s: seq<T>, keep: T -> bool)
    requires forall i :: 0 <= i < |s| ==> !keep(s[i])
    ensures Filter(s, keep) == []
    decreases |s|
  {
    if |s| > 0 {
      FilterNone(s[..|s| - 1], keep);
    }
  }

  /** Filtering distributes over concatenation. */
  lemma {:induction false} FilterConcat<T(!new)>(a: seq<T>, b: seq<T>, keep: T -> bool)
    ensures Filter(a + b, keep) == Filter(a, keep) + Filter(b, keep)
    decreases |b|
  {
    if |b| == 0 {
      assert a + b == a;
    } else {
      var n := |b| - 1;
      assert (a + b)[..|a + b| - 1] == a + b[..n];
      FilterConcat(a, b[..n], keep);
    }
  }

  /** `r` keeps some of the entries of `s`, in their order. */
  ghost predicate SubList<T>(r: seq<T>, s: seq<T>)
    decreases |s|
  {
    if |r| == 0 then true
    else if |s| == 0 then false
    else if r[|r| - 1] == s[|s| - 1] then SubList(r[..|r| - 1], s[..|s| - 1])
    else SubList(r, s[..|s| - 1])
  }

  /** Filtering keeps each kept value as often as it occurs, and no other value. */
  lemma {:induction false} FilterMultiset<T(!new)>(s: seq<T>, keep: T -> bool)
    ensures forall x :: multiset(Filter(s, keep))[x] == if keep(x) then multiset(s)[x] else 0
    decreases |s|
  {
    if |s| > 0 {
      var n := |s| - 1;
      FilterMultiset(s[..n], keep);
      assert s == s[..n] + [s[n]];
    }
  }

  /** A filtered list is a sub-list of the original: filtering never reorders. */
  lemma {:induction false} FilterSubList<T(!new)>(s: seq<T>, keep: T -> bool)
    ensures SubList(Filter(s, keep), s)
    decreases |s|
  {
    if |s| > 0 {
      var n := |s| - 1;
      FilterSubList(s[..n], keep);
      if keep(s[n]) {
        assert Filter(s, keep) == Filter(s[..n], keep) + [s[n]];
      } else {
        assert Filter(s, keep) == Filter(s[..n], keep);
        SkipLast(Filter(s[..n], keep), s);
      }
    }
  }

  /** A sub-list of all but the last entry is a sub-list of the whole. */
  lemma {:induction false} SkipLast<T>(r: seq<T>, s: seq<T>)
    requires |s| > 0 && SubList(r, s[..|s| - 1])
    ensures SubList(r, s)
    decreases |s|, 0
  {
    if |r| > 0 && r[|r| - 1] == s[|s| - 1] {
      SubListDrop(r, s[..|s| - 1]);
    }
  }

  /** Dropping the last entry of a sub-list leaves a sub-list. */
  lemma {:induction false} SubListDrop<T>(r: seq<T>, s: seq<T>)
    requires |r| > 0 && SubList(r, s)
    ensures SubList(r[..|r| - 1], s)
    decreases |s|, 1
  {
    var n := |s| - 1;
    if r[|r| - 1] != s[n] {
      SubListDrop(r, s[..n]);
    }
    SkipLast(r[..|r| - 1], s);
  }

  /** A sub-list stays one when the list grows by an entry, kept or not. */
  lemma {:induction false} SubListSnoc<T>(r: seq<T>, s: seq<T>, x: T, keep: bool)
    requires SubList(r, s)
    ensures SubList(r + (if keep then [x] else []), s + [x])
  {
    assert (s + [x])[..|s|] == s;
    if keep {
      assert (r + [x])[..|r|] == r;
      assert SubList(r + [x], s + [x]);
    } else {
      assert r + [] == r;
      SkipLast(r, s + [x]);
    }
  }

  /** Filtering twice a list with one more entry at the end. */
  lemma FilterTwiceSnoc<T(!new)>(s: seq<T>, x: T, f: T -> bool, g: T -> bool)
    ensures Filter(Filter(s + [x], f), g) == Filter(Filter(s, f), g) + (if f(x) && g(x) then [x] else [])
  {
    FilterSnoc(s, x, f);
    if f(x) {
      FilterSnoc(Filter(s, f), x, g);
    } else {
      assert Filter(s, f) + [] == Filter(s, f);
    }
  }

  /** Filtering twice also leaves a sub-list of the original. */
  lemma {:induction false} FilterTwiceSubList<T(!new)>(s: seq<T>, f: T -> bool, g: T -> bool)
    ensures SubList(Filter(Filter(s, f), g), s)
    decreases |s|
  {
    if |s| > 0 {
      var init, x := s[..|s| - 1], s[|s| - 1];
      assert init + [x] == s;
      FilterTwiceSubList(init, f, g);
      FilterTwiceSnoc(init, x, f, g);
      SubListSnoc(Filter(Filter(init, f), g), init, x, f(x) && g(x));
    }
  }

  /** `list.includes(x) ? list.filter(y => y !== x) : [...list, x]` */
  function Toggle<T(==,!new)>(s: seq<T>, x: T): (r: seq<T>) {
    if x in s then Filter(s, (y: T) => y != x) else s + [x]
  }

  /**
   * A present entry is removed (every occurrence); an absent one is appended at
   * the end. No other entry comes or goes.
   */
  lemma ToggleEffect<T(!new)>(s: seq<T>, x: T)
    ensures x in Toggle(s, x) <==> x !in s
    ensures forall y :: y != x ==> (y in Toggle(s, x) <==> y in s)
    ensures x !in s ==> Toggle(s, x) == s + [x]
  {
  }

  /** Toggling an absent entry twice gives back the original list. */
  lemma ToggleTwiceAbsent<T(!new)>(s: seq<T>, x: T)
    requires x !in s
    ensures Toggle(Toggle(s, x), x) == s
  {
    var t := s + [x];
    assert x in t;
    FilterConcat(s, [x], (y: T) => y != x);
    FilterAll(s, (y: T) => y != x);
    assert Filter([x], (y: T) => y != x) == Filter([x][..0], (y: T) => y != x);
  }

  /** Toggling a present entry twice moves it, once, to the end. */
  lemma ToggleTwicePresent<T(!new)>(s: seq<T>, x: T)
    requires x in s
    ensures Toggle(Toggle(s, x), x) == Filter(s, (y: T) => y != x) + [x]
  {
  }
}
