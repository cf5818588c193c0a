/**
 * The order in which the engine keeps and scans its keys: lexicographic
 * order on byte strings (Go's `bytes.Compare`), and the ascending listing of
 * a finite set of keys.
 */
module ByteOrder {
  import opened ByteStrings

  /** `bytes.Compare(a, b) < 0`: a proper prefix comes first, otherwise the first differing byte decides. */
  predicate Less(a: Bytes, b: Bytes)
    decreases |a|
  {
    if a == [] then b != []
    else if b == [] then false
    else a[0] < b[0] || (a[0] == b[0] && Less(a[1..], b[1..]))
  }

  predicate LessEq(a: Bytes, b: Bytes)
  {
    a == b || Less(a, b)
  }

  lemma {:induction false} LessIrreflexive(a: Bytes)
    ensures !Less(a, a)
    decreases |a|
  {
    if a != [] {
      LessIrreflexive(a[1..]);
    }
  }

  lemma {:induction false} LessTransitive(a: Bytes, b: Bytes, c: Bytes)
    requires Less(a, b) && Less(b, c)
    ensures Less(a, c)
    decreases |a|
  {
    if a != [] && b != [] && c != [] && a[0] == b[0] && b[0] == c[0] {
      LessTransitive(a[1..], b[1..], c[1..]);
    }
  }

  lemma {:induction false} LessTotal(a: Bytes, b: Bytes)
    ensures a == b || Less(a, b) || Less(b, a)
    decreases |a|
  {
    if a != [] && b != [] && a[0] == b[0] {
      LessTotal(a[1..], b[1..]);
      assert a == [a[0]] + a[1..];
      assert b == [b[0]] + b[1..];
    }
  }

  /** Each key comes strictly before the next: ascending and without repeats. */
  predicate StrictlyAscending(s: seq<Bytes>)
  {
    forall i, j :: 0 <= i < j < |s| ==> Less(s[i], s[j])
  }

  /** `m` is the smallest key of `s`. */
  predicate IsLeast(m: Bytes, s: set<Bytes>)
  {
    m in s && forall k :: k in s ==> LessEq(m, k)
  }

  lemma {:induction false} LeastExists(s: set<Bytes>)
    requires s != {}
    ensures exists m :: IsLeast(m, s)
    decreases |s|
  {
    var x :| x in s;
    if s == {x} {
      assert IsLeast(x, s);
    } else {
      LeastExists(s - {x});
      var m :| IsLeast(m, s - {x});
      LessTotal(m, x);
      if Less(x, m) {
        forall k | k in s
          ensures LessEq(x, k)
        {
          if k != x && k != m {
            assert k in s - {x};
            LessTransitive(x, m, k);
          }
        }
        assert IsLeast(x, s);
      } else {
        assert IsLeast(m, s);
      }
    }
  }

  lemma LeastUnique(m1: Bytes, m2: Bytes, s: set<Bytes>)
    requires IsLeast(m1, s) && IsLeast(m2, s)
    ensures m1 == m2
  {
    if m1 != m2 {
      LessTransitive(m1, m2, m1);
      LessIrreflexive(m1);
    }
  }

  /** The keys of `s`, each once, in ascending order: the order of an ordered scan. */
  ghost function Ascending(s: set<Bytes>): (r: seq<Bytes>)
    ensures |r| == |s|
    decreases |s|
  {
    if s == {} then []
    else
      LeastExists(s);
      var m :| IsLeast(m, s);
      [m] + Ascending(s - {m})
  }

  /** The listing of a set is strictly ascending and holds exactly the keys of the set. */
  lemma {:induction false} AscendingLists(s: set<Bytes>)
    ensures StrictlyAscending(Ascending(s))
    ensures forall k :: k in Ascending(s) <==> k in s
    decreases |s|
  {
    if s != {} {
      var r := Ascending(s);
      var m := r[0];
      assert IsLeast(m, s) && r == [m] + Ascending(s - {m});
      var rest := Ascending(s - {m});
      AscendingLists(s - {m});
      forall j | 0 <= j < |rest|
        ensures Less(m, rest[j])
      {
        assert rest[j] in s - {m};
      }
    }
  }

  /** Walks a set of keys smallest first, as an ordered index is walked. */
  method ListAscending(s: set<Bytes>) returns (keys: seq<Bytes>)
    ensures keys == Ascending(s)
  {
    var rest := s;
    keys := [];
    while rest != {}
      invariant keys + Ascending(rest) == Ascending(s)
      decreases rest
    {
      LeastExists(rest);
      var k :| IsLeast(k, rest);
      AscendingFirst(rest, k);
      keys := keys + [k];
      rest := rest - {k};
    }
  }

  /** An ascending listing starts with the least key and continues with the listing of the others. */
  lemma AscendingFirst(s: set<Bytes>, m: Bytes)
    requires IsLeast(m, s)
    ensures Ascending(s) == [m] + Ascending(s - {m})
  {
    var r := Ascending(s);
    AscendingLists(s);
    assert r[0] in s;
    forall k | k in s
      ensures LessEq(r[0], k)
    {
      var j :| 0 <= j < |r| && r[j] == k;
    }
    LeastUnique(r[0], m, s);
  }

  /** The ascending listing is the only strictly ascending enumeration of a set. */
  lemma {:induction false} AscendingUnique(r: seq<Bytes>, s: set<Bytes>)
    requires StrictlyAscending(r)
    requires forall k :: k in r <==> k in s
    ensures Ascending(s) == r
    decreases |r|
  {
    if r == [] {
      assert s == {};
    } else {
      forall k | k in s
        ensures LessEq(r[0], k)
      {
        var j :| 0 <= j < |r| && r[j] == k;
      }
      AscendingFirst(s, r[0]);
      AscendingLists(s);
      forall k
        ensures k in r[1..] <==> k in s - {r[0]}
      {
        if k in r[1..] {
          var j :| 1 <= j < |r| && r[j] == k;
          if k == r[0] {
            LessIrreflexive(k);
          }
        }
      }
      AscendingUnique(r[1..], s - {r[0]});
    }
  }
}
