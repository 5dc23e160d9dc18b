/**
 * The three java.util behaviours the extractors depend on: a `TreeSet<String>`
 * (kept here as its ascending iteration order), a `LinkedHashMap<String,
 * String>` (kept as its entries in insertion order) and `List.toArray(T[])`.
 */
module Collections {
  import opened JavaLang

  /** The elements of a sequence. */
  function Elems<T>(s: seq<T>): set<T>
  {
    set x | x in s
  }

  lemma ElemsConcat<T>(a: seq<T>, b: seq<T>)
    ensures Elems(a + b) == Elems(a) + Elems(b)
  {
    forall x | x in Elems(a) + Elems(b)
      ensures x in Elems(a + b)
    {
      if x in a {
        var i :| 0 <= i < |a| && a[i] == x;
        assert (a + b)[i] == x;
      } else {
        var i :| 0 <= i < |b| && b[i] == x;
        assert (a + b)[|a| + i] == x;
      }
    }
  }

  lemma ConcatAssoc<T>(a: seq<T>, b: seq<T>, c: seq<T>)
    ensures (a + b) + c == a + (b + c)
  {
  }

  lemma ElemsNonEmpty<T>(s: seq<T>)
    requires |s| > 0
    ensures s[0] in Elems(s)
  {
  }

  /** `a.compareTo(b) < 0`: first differing character decides, a proper prefix sorts first. */
  predicate Less(a: string, b: string)
    decreases |a|
  {
    if |a| == 0 then |b| > 0
    else if |b| == 0 then false
    else if a[0] != b[0] then a[0] < b[0]
    else Less(a[1..], b[1..])
  }

  lemma {:induction false} LessIrreflexive(a: string)
    ensures !Less(a, a)
    decreases |a|
  {
    if |a| > 0 {
      LessIrreflexive(a[1..]);
    }
  }

  lemma {:induction false} LessTransitive(a: string, b: string, c: string)
    requires Less(a, b) && Less(b, c)
    ensures Less(a, c)
    decreases |a|
  {
    if |a| > 0 && |b| > 0 && |c| > 0 && a[0] == b[0] && b[0] == c[0] {
      LessTransitive(a[1..], b[1..], c[1..]);
    }
  }

  lemma {:induction false} LessTotal(a: string, b: string)
    requires a != b
    ensures Less(a, b) || Less(b, a)
    decreases |a|
  {
    if |a| > 0 && |b| > 0 && a[0] == b[0] {
      assert a == [a[0]] + a[1..] && b == [b[0]] + b[1..];
      LessTotal(a[1..], b[1..]);
    }
  }

  lemma LessAsymmetric(a: string, b: string)
    requires Less(a, b)
    ensures !Less(b, a)
  {
    if Less(b, a) {
      LessTransitive(a, b, a);
      LessIrreflexive(a);
    }
  }

  /** Strictly ascending: the iteration order of a `TreeSet<String>`. */
  predicate Sorted(s: seq<string>)
  {
    forall i, j :: 0 <= i < j < |s| ==> Less(s[i], s[j])
  }

  /** `TreeSet.add`: a new element goes to its place in the order, a present one changes nothing. */
  function Insert(s: seq<string>, x: string): (r: seq<string>)
    ensures Elems(r) == Elems(s) + {x}
  {
    if |s| == 0 then [x]
    else if x == s[0] then s
    else if Less(x, s[0]) then [x] + s
    else
      var t := Insert(s[1..], x);
      ElemsConcat([s[0]], s[1..]);
      ElemsConcat([s[0]], t);
      assert s == [s[0]] + s[1..];
      [s[0]] + t
  }

  /** Adding to a sorted set keeps it sorted. */
  lemma {:induction false} InsertKeepsSorted(s: seq<string>, x: string)
    requires Sorted(s)
    ensures Sorted(Insert(s, x))
    decreases |s|
  {
    if |s| == 0 || x == s[0] {
    } else if Less(x, s[0]) {
      forall j | 0 < j < |s|
        ensures Less(x, s[j])
      {
        LessTransitive(x, s[0], s[j]);
      }
    } else {
      LessTotal(x, s[0]);
      var t := Insert(s[1..], x);
      InsertKeepsSorted(s[1..], x);
      forall y | y in t
        ensures Less(s[0], y)
      {
        if y != x {
          assert y in Elems(t);
          assert y in Elems(s[1..]);
          var j :| 0 <= j < |s[1..]| && s[1..][j] == y;
          assert s[j + 1] == y;
        }
      }
      var r := [s[0]] + t;
      forall i, j | 0 <= i < j < |r|
        ensures Less(r[i], r[j])
      {
        if i == 0 {
          assert r[j] == t[j - 1];
        } else {
          assert r[i] == t[i - 1] && r[j] == t[j - 1];
        }
      }
    }
  }

  /** A sorted sequence is determined by its elements. */
  lemma {:induction false} SortedUnique(a: seq<string>, b: seq<string>)
    requires Sorted(a) && Sorted(b)
    requires Elems(a) == Elems(b)
    ensures a == b
    decreases |a|
  {
    if |a| == 0 {
      if |b| > 0 {
        ElemsNonEmpty(b);
      }
    } else {
      assert a[0] in Elems(b);
      assert b[0] in Elems(a);
      var i :| 0 <= i < |a| && a[i] == b[0];
      var j :| 0 <= j < |b| && b[j] == a[0];
      if a[0] != b[0] {
        assert i > 0 && j > 0;
        assert Less(a[0], b[0]);
        assert Less(b[0], a[0]);
        LessAsymmetric(a[0], b[0]);
      }
      SortedHeadNotInTail(a);
      SortedHeadNotInTail(b);
      ElemsOfTail(a);
      ElemsOfTail(b);
      SortedTail(a);
      SortedTail(b);
      SortedUnique(a[1..], b[1..]);
      assert a == [a[0]] + a[1..];
      assert b == [b[0]] + b[1..];
    }
  }

  lemma SortedTail(s: seq<string>)
    requires Sorted(s) && |s| > 0
    ensures Sorted(s[1..])
  {
    forall i, j | 0 <= i < j < |s[1..]|
      ensures Less(s[1..][i], s[1..][j])
    {
      assert s[1..][i] == s[i + 1] && s[1..][j] == s[j + 1];
    }
  }

  lemma ElemsOfTail<T>(s: seq<T>)
    requires |s| > 0 && s[0] !in s[1..]
    ensures Elems(s[1..]) == Elems(s) - {s[0]}
  {
    assert s == [s[0]] + s[1..];
  }

  lemma SortedHeadNotInTail(s: seq<string>)
    requires Sorted(s) && |s| > 0
    ensures s[0] !in s[1..]
  {
    if s[0] in s[1..] {
      var j :| 0 <= j < |s[1..]| && s[1..][j] == s[0];
      assert Less(s[0], s[j + 1]);
      LessIrreflexive(s[0]);
    }
  }

  /** The entries of a `LinkedHashMap<String, String>`, in insertion order. */
  type LinkedMap = seq<(string, string)>

  /** The key set, in iteration order. */
  function Keys(m: LinkedMap): seq<string>
  {
    if |m| == 0 then [] else [m[0].0] + Keys(m[1..])
  }

  /** `LinkedHashMap.get`, null as `None`. */
  function Get(m: LinkedMap, k: string): Option<string>
  {
    if |m| == 0 then None
    else if m[0].0 == k then Some(m[0].1)
    else Get(m[1..], k)
  }

  /** No string occurs twice: the keys of a map, the fields of one class. */
  predicate Distinct(s: seq<string>)
  {
    forall i, j :: 0 <= i < j < |s| ==> s[i] != s[j]
  }

  /**
   * `LinkedHashMap.put`: a new key is appended; re-putting a present key
   * replaces its value and keeps its place in the iteration order.
   */
  function Put(m: LinkedMap, k: string, v: string): (r: LinkedMap)
    ensures Keys(r) == if k in Keys(m) then Keys(m) else Keys(m) + [k]
    ensures Get(r, k) == Some(v)
    ensures forall k' :: k' != k ==> Get(r, k') == Get(m, k')
    ensures k !in Keys(m) ==> r == m + [(k, v)]
  {
    if |m| == 0 then [(k, v)]
    else if m[0].0 == k then [(k, v)] + m[1..]
    else
      var t := Put(m[1..], k, v);
      assert Keys([m[0]] + t) == [m[0].0] + Keys(t);
      assert ([m[0]] + t)[1..] == t;
      assert m == [m[0]] + m[1..];
      [m[0]] + t
  }

  /** Putting keeps the keys pairwise distinct. */
  lemma PutKeepsDistinct(m: LinkedMap, k: string, v: string)
    requires Distinct(Keys(m))
    ensures Distinct(Keys(Put(m, k, v)))
  {
  }

  /**
   * `list.toArray(new T[arrayLength])`: when the array is large enough the
   * elements are copied into it and the remaining slots stay null; otherwise
   * a new array of exactly the list's size is returned.
   */
  function ToArray<T>(list: seq<T>, arrayLength: nat): (r: seq<Option<T>>)
    ensures |r| == Max(arrayLength, |list|)
    ensures forall i :: 0 <= i < |list| ==> r[i] == Some(list[i])
    ensures forall i :: |list| <= i < |r| ==> r[i] == None
  {
    var copied := seq(|list|, i requires 0 <= i < |list| => Some(list[i]));
    var padding: seq<Option<T>> := seq(if arrayLength <= |list| then 0 else arrayLength - |list|, _ => None);
    copied + padding
  }
}
