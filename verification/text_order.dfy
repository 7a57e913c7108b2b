/**
 Ordering and sorting of directory-entry names.

 Rust compares `OsStr` names byte by byte; on well-formed text the UTF-8 byte
 order coincides with the order of code points, which is the order used here.
 */
module TextOrder {

  /** `a` sorts no later than `b` in lexicographic code-point order. */
  predicate StrLe(a: string, b: string)
    decreases |a|
  {
    |a| == 0 || (|b| > 0 && (a[0] < b[0] || (a[0] == b[0] && StrLe(a[1..], b[1..]))))
  }

  lemma {:induction false} StrLeReflexive(a: string)
    ensures StrLe(a, a)
    decreases |a|
  {
    if |a| > 0 {
      StrLeReflexive(a[1..]);
    }
  }

  lemma {:induction false} StrLeAntisymmetric(a: string, b: string)
    requires StrLe(a, b) && StrLe(b, a)
    ensures a == b
    decreases |a|
  {
    if |a| > 0 {
      assert a[0] == b[0];
      StrLeAntisymmetric(a[1..], b[1..]);
      assert a == [a[0]] + a[1..];
      assert b == [b[0]] + b[1..];
    }
  }

  lemma {:induction false} StrLeTransitive(a: string, b: string, c: string)
    requires StrLe(a, b) && StrLe(b, c)
    ensures StrLe(a, c)
    decreases |a|
  {
    if |a| > 0 && a[0] == b[0] && b[0] == c[0] {
      StrLeTransitive(a[1..], b[1..], c[1..]);
    }
  }

  lemma {:induction false} StrLeTotal(a: string, b: string)
    ensures StrLe(a, b) || StrLe(b, a)
    decreases |a|
  {
    if |a| > 0 && |b| > 0 && a[0] == b[0] {
      StrLeTotal(a[1..], b[1..]);
    }
  }

  /** Each name sorts no later than the next one. */
  predicate Sorted(s: seq<string>)
    decreases |s|
  {
    |s| < 2 || (StrLe(s[0], s[1]) && Sorted(s[1..]))
  }

  /** In a sorted sequence every name sorts no later than any name after it. */
  lemma {:induction false} SortedPairs(s: seq<string>, i: nat, j: nat)
    requires Sorted(s)
    requires i < j < |s|
    ensures StrLe(s[i], s[j])
    decreases |s|
  {
    if i > 0 {
      SortedPairs(s[1..], i - 1, j - 1);
    } else if j > 1 {
      SortedPairs(s[1..], 0, j - 1);
      StrLeTransitive(s[0], s[1], s[j]);
    }
  }

  /** Inserts `x` in front of the first name it sorts no later than. */
  function Insert(x: string, s: seq<string>): seq<string>
    decreases |s|
  {
    if |s| == 0 then
      [x]
    else if StrLe(x, s[0]) then
      [x] + s
    else
      [s[0]] + Insert(x, s[1..])
  }

  /** Inserting into a sorted sequence keeps it sorted and adds exactly `x`. */
  lemma {:induction false} InsertSpec(x: string, s: seq<string>)
    requires Sorted(s)
    ensures Sorted(Insert(x, s))
    ensures multiset(Insert(x, s)) == multiset(s) + multiset{x}
    decreases |s|
  {
    if |s| == 0 {
    } else if StrLe(x, s[0]) {
      assert ([x] + s)[1..] == s;
    } else {
      var t := Insert(x, s[1..]);
      InsertSpec(x, s[1..]);
      InsertTailBound(x, s, t);
      assert ([s[0]] + t)[1..] == t;
      assert s == [s[0]] + s[1..];
    }
  }

  /** When `x` goes after the head of `s`, the head stays in front of
      whatever comes first once `x` is inserted into the rest. */
  lemma InsertTailBound(x: string, s: seq<string>, t: seq<string>)
    requires Sorted(s) && |s| > 0 && !StrLe(x, s[0])
    requires multiset(t) == multiset(s[1..]) + multiset{x}
    ensures |t| > 0 && StrLe(s[0], t[0])
  {
    assert x in multiset(t);
    StrLeTotal(x, s[0]);
    assert t[0] in multiset(t);
    if t[0] != x {
      assert t[0] in multiset(s[1..]);
      var k :| 0 <= k < |s[1..]| && s[1..][k] == t[0];
      SortedPairs(s, 0, k + 1);
    }
  }

  /** Insertion sort. */
  function Sort(s: seq<string>): seq<string>
    decreases |s|
  {
    if |s| == 0 then [] else Insert(s[0], Sort(s[1..]))
  }

  /** Sorting yields a sorted rearrangement of its input. */
  lemma {:induction false} SortSpec(s: seq<string>)
    ensures Sorted(Sort(s))
    ensures multiset(Sort(s)) == multiset(s)
    decreases |s|
  {
    if |s| > 0 {
      SortSpec(s[1..]);
      InsertSpec(s[0], Sort(s[1..]));
      assert s == [s[0]] + s[1..];
    }
  }

  /** A sorted rearrangement is unique: two sorted sequences with the same
      elements are equal. */
  lemma {:induction false} SortedUnique(a: seq<string>, b: seq<string>)
    requires Sorted(a) && Sorted(b)
    requires multiset(a) == multiset(b)
    ensures a == b
    decreases |a|
  {
    if |a| == 0 {
      assert |multiset(b)| == 0;
    } else {
      SameLeast(a, b);
      DropHead(a);
      DropHead(b);
      assert Sorted(a[1..]) && Sorted(b[1..]);
      SortedUnique(a[1..], b[1..]);
      assert a == [a[0]] + a[1..];
      assert b == [b[0]] + b[1..];
    }
  }

  /** Two sorted sequences with the same elements start with the same name. */
  lemma SameLeast(a: seq<string>, b: seq<string>)
    requires Sorted(a) && Sorted(b)
    requires multiset(a) == multiset(b)
    requires |a| > 0
    ensures |b| > 0 && a[0] == b[0]
  {
    assert |b| == |multiset(b)| == |multiset(a)| == |a|;
    assert a[0] in multiset(b);
    var j :| 0 <= j < |b| && b[j] == a[0];
    assert b[0] in multiset(a);
    var i :| 0 <= i < |a| && a[i] == b[0];
    if i > 0 {
      SortedPairs(a, 0, i);
    } else {
      StrLeReflexive(a[0]);
    }
    if j > 0 {
      SortedPairs(b, 0, j);
    } else {
      StrLeReflexive(b[0]);
    }
    StrLeAntisymmetric(a[0], b[0]);
  }

  lemma DropHead(a: seq<string>)
    requires |a| > 0
    ensures multiset(a[1..]) == multiset(a) - multiset{a[0]}
  {
    assert a == [a[0]] + a[1..];
  }

  /** Sorting depends only on the elements, not on the order they come in. */
  lemma SortOrderIndependent(s: seq<string>, t: seq<string>)
    requires multiset(s) == multiset(t)
    ensures Sort(s) == Sort(t)
  {
    SortSpec(s);
    SortSpec(t);
    SortedUnique(Sort(s), Sort(t));
  }
}
