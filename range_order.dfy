/**
  * The order `updateIfNeeded` and `updateExpansion` list the entries of
  * `rangeToFrame` in: ascending range start. Dictionary order decides
  * between two ranges with the same start; the model breaks such ties by
  * length, which makes the order total on distinct ranges.
  */
module RangeOrder {
  import opened LayoutLines

  /** `a` is listed before `b`. */
  predicate Before(a: NsRange, b: NsRange)
  {
    a.location < b.location || (a.location == b.location && a.length < b.length)
  }

  predicate StrictlySorted(s: seq<NsRange>)
  {
    forall i, j :: 0 <= i < j < |s| ==> Before(s[i], s[j])
  }

  /** `m` is listed before every other range of `keys`. */
  predicate IsFirst(m: NsRange, keys: set<NsRange>)
  {
    m in keys && forall y :: y in keys && y != m ==> Before(m, y)
  }

  /** Every non-empty set of ranges has a first one. */
  lemma {:induction false} FirstExists(keys: set<NsRange>)
    requires keys != {}
    ensures exists m :: IsFirst(m, keys)
    decreases |keys|
  {
    var x :| x in keys;
    if keys == {x} {
      assert IsFirst(x, keys);
    } else {
      var rest := keys - {x};
      FirstExists(rest);
      var m :| IsFirst(m, rest);
      if !Before(x, m) {
        forall y | y in keys && y != m
          ensures Before(m, y)
        {
          if y != x {
            assert y in rest;
          }
        }
        assert IsFirst(m, keys);
      } else {
        forall y | y in keys && y != x
          ensures Before(x, y)
        {
          if y != m {
            assert y in rest;
          }
        }
        assert IsFirst(x, keys);
      }
    }
  }

  /** The ranges of `keys`, each once, in ascending order. */
  ghost function SortedKeys(keys: set<NsRange>): (r: seq<NsRange>)
    ensures |r| == |keys|
    ensures forall i :: 0 <= i < |r| ==> r[i] in keys
    decreases |keys|
  {
    if keys == {} then []
    else
      FirstExists(keys);
      var m :| IsFirst(m, keys);
      [m] + SortedKeys(keys - {m})
  }

  /** `SortedKeys` lists every range of `keys`. */
  lemma {:induction false} SortedKeysMembers(keys: set<NsRange>)
    ensures forall x :: x in SortedKeys(keys) <==> x in keys
    decreases |keys|
  {
    if keys != {} {
      var r := SortedKeys(keys);
      var m := r[0];
      assert r == [m] + SortedKeys(keys - {m}) by {
        FirstExists(keys);
      }
      SortedKeysMembers(keys - {m});
    }
  }

  /** The list `SortedKeys` builds is ascending. */
  lemma {:induction false} SortedKeysSorted(keys: set<NsRange>)
    ensures StrictlySorted(SortedKeys(keys))
    decreases |keys|
  {
    if keys != {} {
      var r := SortedKeys(keys);
      var m := r[0];
      var rest := keys - {m};
      assert r == [m] + SortedKeys(rest) by {
        FirstExists(keys);
      }
      SortedKeysSorted(rest);
      forall i, j | 0 <= i < j < |r|
        ensures Before(r[i], r[j])
      {
        if i == 0 {
          assert r[j] in SortedKeys(rest);
        } else {
          assert r[i] == SortedKeys(rest)[i - 1] && r[j] == SortedKeys(rest)[j - 1];
        }
      }
    }
  }

  lemma HeadIsMember(s: seq<NsRange>)
    ensures |s| > 0 ==> s[0] in s
  {
  }

  /** Two ascending lists of the same ranges are the same list. */
  lemma {:induction false} SortedIsUnique(a: seq<NsRange>, b: seq<NsRange>)
    requires StrictlySorted(a) && StrictlySorted(b)
    requires forall x :: x in a <==> x in b
    ensures a == b
    decreases |a|
  {
    if |a| > 0 {
      assert a[0] in b;
      var j :| 0 <= j < |b| && b[j] == a[0];
      assert b[0] in a;
      var i :| 0 <= i < |a| && a[i] == b[0];
      assert a[0] == b[0];
      forall x
        ensures x in a[1..] <==> x in b[1..]
      {
        if x in a[1..] {
          var i :| 1 <= i < |a| && a[i] == x;
          assert Before(a[0], x);
          assert x in b && x != b[0];
        }
        if x in b[1..] {
          var j :| 1 <= j < |b| && b[j] == x;
          assert Before(b[0], x);
          assert x in a && x != a[0];
        }
      }
      SortedIsUnique(a[1..], b[1..]);
      assert a == [a[0]] + a[1..] && b == [b[0]] + b[1..];
    } else {
      HeadIsMember(b);
    }
  }

  /** Ascending order lists the range starts in ascending order, as `sorted(by: location <)` does. */
  lemma SortedKeysByLocation(keys: set<NsRange>)
    ensures var r := SortedKeys(keys);
            forall i, j :: 0 <= i < j < |r| ==> r[i].location <= r[j].location
  {
    var r := SortedKeys(keys);
    SortedKeysSorted(keys);
    forall i, j | 0 <= i < j < |r|
      ensures r[i].location <= r[j].location
    {
      assert Before(r[i], r[j]);
    }
  }

  /** Places `x` among the ascending ranges `s`. */
  function Insert(s: seq<NsRange>, x: NsRange): (r: seq<NsRange>)
    requires StrictlySorted(s) && x !in s
    ensures StrictlySorted(r) && |r| == |s| + 1
    ensures forall y :: y in r <==> y in s || y == x
  {
    if |s| == 0 || Before(x, s[0]) then [x] + s
    else
      assert forall y :: y in s[1..] ==> Before(s[0], y);
      [s[0]] + Insert(s[1..], x)
  }

  /** `rangeToFrame.sorted(by:)`, keys only. */
  method SortRanges(keys: set<NsRange>) returns (r: seq<NsRange>)
    ensures r == SortedKeys(keys)
  {
    r := [];
    var rest := keys;
    while rest != {}
      invariant StrictlySorted(r)
      invariant forall y :: y in keys <==> y in r || y in rest
      invariant forall y :: y in r ==> y !in rest
      decreases |rest|
    {
      var x :| x in rest;
      r := Insert(r, x);
      rest := rest - {x};
    }
    SortedKeysSorted(keys);
    SortedKeysMembers(keys);
    SortedIsUnique(r, SortedKeys(keys));
  }
}
