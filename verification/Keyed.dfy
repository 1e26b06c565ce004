/** Sorting object members by key, in UTF-16 code unit order (section 3.2.3 of RFC 8785). */
module Keyed {
  import opened Encoding

  datatype Keyed<+T> = Keyed(key: Text, item: T)

  /** The order `compareCodeUnits` induces: first difference, then length. */
  predicate Less(a: Text, b: Text)
  {
    if b == [] then false
    else if a == [] then true
    else a[0] < b[0] || (a[0] == b[0] && Less(a[1..], b[1..]))
  }

  lemma {:induction false} LessIrreflexive(a: Text)
    ensures !Less(a, a)
  {
    if a != [] {
      LessIrreflexive(a[1..]);
    }
  }

  lemma {:induction false} LessTransitive(a: Text, b: Text, c: Text)
    requires Less(a, b) && Less(b, c)
    ensures Less(a, c)
  {
    if a != [] && a[0] == b[0] == c[0] {
      LessTransitive(a[1..], b[1..], c[1..]);
    }
  }

  lemma {:induction false} LessTotal(a: Text, b: Text)
    ensures Less(a, b) || a == b || Less(b, a)
  {
    if a != [] && b != [] && a[0] == b[0] {
      LessTotal(a[1..], b[1..]);
      assert a == [a[0]] + a[1..] && b == [b[0]] + b[1..];
    }
  }

  lemma LessAsymmetric(a: Text, b: Text)
    requires Less(a, b)
    ensures !Less(b, a) && a != b
  {
    LessIrreflexive(a);
    if Less(b, a) {
      LessTransitive(a, b, a);
    }
  }

  /** Up to i both are the same, and there a ends first or has the smaller code unit. */
  predicate Precedes(a: Text, b: Text, i: nat)
  {
    && i <= |a| && i <= |b| && a[..i] == b[..i]
    && ((i == |a| && i < |b|) || (i < |a| && i < |b| && a[i] < b[i]))
  }

  /** In the order of code units. */
  ghost predicate Before(a: Text, b: Text) { exists i :: Precedes(a, b, i) }

  lemma {:induction false} LessHasPlace(a: Text, b: Text) returns (i: nat)
    requires Less(a, b)
    ensures Precedes(a, b, i)
  {
    if a == [] || a[0] < b[0] {
      i := 0;
    } else {
      var j := LessHasPlace(a[1..], b[1..]);
      i := j + 1;
      assert a[..i] == [a[0]] + a[1..][..j] && b[..i] == [b[0]] + b[1..][..j];
    }
  }

  lemma PlaceMeansLess(a: Text, b: Text, i: nat)
    requires Precedes(a, b, i)
    ensures Less(a, b)
  {
    LessAfterPrefix(a, b, i);
  }

  /** The order is ascending: the smaller unit first, and a prefix before what it begins. */
  lemma LessIff(a: Text, b: Text)
    ensures Less(a, b) <==> Before(a, b)
  {
    if Less(a, b) {
      var i := LessHasPlace(a, b);
    }
    if i :| Precedes(a, b, i) {
      PlaceMeansLess(a, b, i);
    }
  }

  /** A common prefix does not change the comparison. */
  lemma {:induction false} LessAfterPrefix(a: Text, b: Text, i: nat)
    requires i <= |a| && i <= |b| && a[..i] == b[..i]
    ensures Less(a, b) <==> Less(a[i..], b[i..])
  {
    if i > 0 {
      assert a[0] == a[..i][0] == b[..i][0] == b[0];
      assert a[1..][..i - 1] == a[..i][1..] && b[1..][..i - 1] == b[..i][1..];
      LessAfterPrefix(a[1..], b[1..], i - 1);
      assert a[1..][i - 1..] == a[i..] && b[1..][i - 1..] == b[i..];
    } else {
      assert a[0..] == a && b[0..] == b;
    }
  }

  method CompareCodeUnits(a: Text, b: Text) returns (r: int)
    ensures r < 0 <==> Less(a, b)
    ensures r == 0 <==> a == b
    ensures r > 0 <==> Less(b, a)
    ensures r < 0 <==> Before(a, b)
    ensures r > 0 <==> Before(b, a)
  {
    LessIff(a, b);
    LessIff(b, a);
    var len := if |a| < |b| then |a| else |b|;
    for i := 0 to len
      invariant a[..i] == b[..i]
    {
      var ca: int, cb: int := a[i], b[i];
      if ca != cb {
        LessAfterPrefix(a, b, i);
        LessAfterPrefix(b, a, i);
        assert a[i..][0] == ca && b[i..][0] == cb;
        return ca - cb;
      }
    }
    LessAfterPrefix(a, b, len);
    LessAfterPrefix(b, a, len);
    assert a == a[..len] + a[len..] && b == b[..len] + b[len..];
    return |a| - |b|;
  }

  // ---------- sorting ----------

  predicate DistinctKeys<T>(s: seq<Keyed<T>>)
  {
    forall i, j :: 0 <= i < j < |s| ==> s[i].key != s[j].key
  }

  predicate Sorted<T>(s: seq<Keyed<T>>)
  {
    forall i, j :: 0 <= i < j < |s| ==> Less(s[i].key, s[j].key)
  }

  function Insert<T>(m: Keyed<T>, s: seq<Keyed<T>>): seq<Keyed<T>>
  {
    if s == [] || Less(m.key, s[0].key) then [m] + s else [s[0]] + Insert(m, s[1..])
  }

  function Sort<T>(s: seq<Keyed<T>>): seq<Keyed<T>>
  {
    if s == [] then [] else Insert(s[0], Sort(s[1..]))
  }

  lemma {:induction false} InsertElements<T(!new)>(m: Keyed<T>, s: seq<Keyed<T>>)
    ensures |Insert(m, s)| == |s| + 1
    ensures forall x :: x in Insert(m, s) <==> x == m || x in s
  {
    if s != [] && !Less(m.key, s[0].key) {
      InsertElements(m, s[1..]);
      assert s == [s[0]] + s[1..];
    }
  }

  lemma {:induction false} InsertSorted<T(!new)>(m: Keyed<T>, s: seq<Keyed<T>>)
    requires Sorted(s) && forall x :: x in s ==> x.key != m.key
    ensures Sorted(Insert(m, s))
  {
    if s == [] {
    } else if Less(m.key, s[0].key) {
      forall i | 0 <= i < |s| ensures Less(m.key, s[i].key) {
        if i > 0 {
          LessTransitive(m.key, s[0].key, s[i].key);
        }
      }
    } else {
      LessTotal(m.key, s[0].key);
      assert s[0] in s;
      forall x | x in s[1..] ensures x.key != m.key {
        assert x in s;
      }
      InsertSorted(m, s[1..]);
      InsertElements(m, s[1..]);
      var rest := Insert(m, s[1..]);
      forall i | 0 <= i < |rest| ensures Less(s[0].key, rest[i].key) {
        var x := rest[i];
        assert x in rest;
        assert x == m || x in s[1..];
        if x != m {
          var j :| 0 <= j < |s[1..]| && s[1..][j] == x;
          assert s[j + 1] == x;
        }
      }
    }
  }

  lemma {:induction false} SortElements<T(!new)>(s: seq<Keyed<T>>)
    ensures |Sort(s)| == |s|
    ensures forall x :: x in Sort(s) <==> x in s
  {
    if s != [] {
      SortElements(s[1..]);
      InsertElements(s[0], Sort(s[1..]));
      assert s == [s[0]] + s[1..];
    }
  }

  lemma {:induction false} SortSorted<T(!new)>(s: seq<Keyed<T>>)
    requires DistinctKeys(s)
    ensures Sorted(Sort(s))
  {
    if s != [] {
      SortSorted(s[1..]);
      SortElements(s[1..]);
      var tail := Sort(s[1..]);
      forall x | x in tail ensures x.key != s[0].key {
        var j :| 0 <= j < |s[1..]| && s[1..][j] == x;
        assert s[j + 1] == x;
      }
      InsertSorted(s[0], tail);
    }
  }

  /** Sorted lists with the same elements are the same list: the order leaves no choice. */
  lemma {:induction false} SortedUnique<T(!new)>(s: seq<Keyed<T>>, t: seq<Keyed<T>>)
    requires Sorted(s) && Sorted(t) && |s| == |t| && forall x :: x in s <==> x in t
    ensures s == t
  {
    if s != [] {
      assert s[0] in t && t[0] in s;
      HeadsAgree(s, t);
      TailElements(s, t);
      TailElements(t, s);
      SortedUnique(s[1..], t[1..]);
      assert s == [s[0]] + s[1..] && t == [t[0]] + t[1..];
    }
  }

  lemma HeadsAgree<T(!new)>(s: seq<Keyed<T>>, t: seq<Keyed<T>>)
    requires Sorted(s) && Sorted(t) && s != [] && t != []
    requires s[0] in t && t[0] in s
    ensures s[0] == t[0]
  {
    var j :| 0 <= j < |t| && t[j] == s[0];
    var i :| 0 <= i < |s| && s[i] == t[0];
    if i > 0 && j > 0 {
      LessAsymmetric(s[0].key, s[i].key);
    }
  }

  lemma TailElements<T(!new)>(s: seq<Keyed<T>>, t: seq<Keyed<T>>)
    requires Sorted(s) && s != [] && t != [] && s[0] == t[0]
    requires forall x :: x in s ==> x in t
    ensures forall x :: x in s[1..] ==> x in t[1..]
  {
    forall x | x in s[1..] ensures x in t[1..] {
      var i :| 0 <= i < |s[1..]| && s[1..][i] == x;
      assert s[i + 1] == x;
      LessAsymmetric(s[0].key, s[i + 1].key);
      assert x in s;
      var j :| 0 <= j < |t| && t[j] == x;
      assert t[1..][j - 1] == x;
    }
  }

  /** Listing members in another order never changes the sorted list. */
  lemma SortIgnoresOrder<T(!new)>(s: seq<Keyed<T>>, t: seq<Keyed<T>>)
    requires DistinctKeys(s) && DistinctKeys(t) && |s| == |t| && forall x :: x in s <==> x in t
    ensures Sort(s) == Sort(t)
  {
    SortSorted(s);
    SortSorted(t);
    SortElements(s);
    SortElements(t);
    SortedUnique(Sort(s), Sort(t));
  }
}
