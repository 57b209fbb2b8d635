/**
 * Generic queries over a table held as a sequence of rows in storage order.
 * These are what the handlers' ORM calls do: `first()` and `get()` find the
 * first matching row, `filter(...).all()` keeps the matching rows in order,
 * `count()` counts them.
 */
module Seqs {
  import opened Options

  /** Position of the first row satisfying `p`, or None when no row does. */
  function IndexWhere<T>(s: seq<T>, p: T -> bool): (r: Option<nat>)
    ensures r.Some? ==> r.value < |s| && p(s[r.value])
    ensures r.Some? ==> forall j :: 0 <= j < r.value ==> !p(s[j])
    ensures r.None? ==> forall j :: 0 <= j < |s| ==> !p(s[j])
    decreases |s|
  {
    if |s| == 0 then None
    else if p(s[0]) then Some(0)
    else match IndexWhere(s[1..], p)
      case None => None
      case Some(k) => Some(k + 1)
  }

  /** The rows of `s` that satisfy `p`, in storage order. */
  function Filter<T(!new)>(s: seq<T>, p: T -> bool): (r: seq<T>)
    ensures |r| <= |s|
    decreases |s|
  {
    if |s| == 0 then []
    else (if p(s[0]) then [s[0]] else []) + Filter(s[1..], p)
  }

  /** Filter keeps exactly the rows satisfying `p`; it is empty exactly when no row does. */
  lemma {:induction false} FilterMembers<T(!new)>(s: seq<T>, p: T -> bool)
    ensures forall x :: x in Filter(s, p) <==> x in s && p(x)
    ensures Filter(s, p) == [] <==> forall x :: x in s ==> !p(x)
    decreases |s|
  {
    if |s| > 0 {
      FilterMembers(s[1..], p);
      assert forall x :: x in s <==> x == s[0] || x in s[1..];
    }
  }

  /** The row predicate "column `key` equals `k`", as in `filter_by(column=k)`. */
  function KeyIs<T(!new), K(==)>(key: T -> K, k: K): (p: T -> bool)
    ensures forall x :: p(x) <==> key(x) == k
  {
    x => key(x) == k
  }

  /** No two rows share a value of column `key`. */
  ghost predicate UniqueKeys<T, K>(s: seq<T>, key: T -> K)
  {
    forall i, j :: 0 <= i < j < |s| ==> key(s[i]) != key(s[j])
  }

  /** The id the store hands to a new row: one more than the largest id in use. */
  function NextId<T(!new)>(s: seq<T>, key: T -> int): (r: int)
    ensures r >= 1
    ensures forall x :: x in s ==> key(x) < r
    decreases |s|
  {
    if |s| == 0 then 1
    else
      var rest := NextId(s[1..], key);
      if key(s[0]) + 1 > rest then key(s[0]) + 1 else rest
  }

  /** Filtering distributes over concatenation, so filtering keeps storage order. */
  lemma {:induction false} FilterAppend<T(!new)>(s: seq<T>, t: seq<T>, p: T -> bool)
    ensures Filter(s + t, p) == Filter(s, p) + Filter(t, p)
    decreases |s|
  {
    if |s| == 0 {
      assert s + t == t;
    } else {
      var head := if p(s[0]) then [s[0]] else [];
      calc {
        Filter(s + t, p);
        { assert (s + t)[0] == s[0]; }
        head + Filter((s + t)[1..], p);
        { assert (s + t)[1..] == s[1..] + t; }
        head + Filter(s[1..] + t, p);
        { FilterAppend(s[1..], t, p); }
        head + (Filter(s[1..], p) + Filter(t, p));
        (head + Filter(s[1..], p)) + Filter(t, p);
        Filter(s, p) + Filter(t, p);
      }
    }
  }

  /** Appending one row raises a count by one exactly when the row matches. */
  lemma CountAppend<T(!new)>(s: seq<T>, x: T, p: T -> bool)
    ensures |Filter(s + [x], p)| == |Filter(s, p)| + (if p(x) then 1 else 0)
  {
    FilterAppend(s, [x], p);
    assert [x][1..] == [];
  }

  /** With a unique column, at most one row carries any given value, and a present value is counted once. */
  lemma {:induction false} UniqueKeyCount<T(!new), K>(s: seq<T>, key: T -> K, k: K)
    requires UniqueKeys(s, key)
    ensures |Filter(s, KeyIs(key, k))| <= 1
    ensures (exists x :: x in s && key(x) == k) ==> |Filter(s, KeyIs(key, k))| == 1
    decreases |s|
  {
    var p := KeyIs(key, k);
    FilterMembers(s, p);
    if |s| > 0 {
      FilterMembers(s[1..], p);
      var tail := s[1..];
      assert UniqueKeys(tail, key) by {
        forall i, j | 0 <= i < j < |tail| ensures key(tail[i]) != key(tail[j]) {
          assert tail[i] == s[i + 1] && tail[j] == s[j + 1];
        }
      }
      UniqueKeyCount(tail, key, k);
      if key(s[0]) == k {
        forall x | x in tail ensures !p(x) {
          var j :| 0 <= j < |tail| && tail[j] == x;
          assert s[j + 1] == x;
        }
        assert Filter(tail, p) == [];
      } else {
        if exists x :: x in s && key(x) == k {
          var x :| x in s && key(x) == k;
          assert x in tail;
        }
      }
    }
  }

  /** Appending a row whose key is not in use keeps the column unique. */
  lemma AppendFresh<T, K>(s: seq<T>, x: T, key: T -> K)
    requires UniqueKeys(s, key)
    requires forall y :: y in s ==> key(y) != key(x)
    ensures UniqueKeys(s + [x], key)
  {
    var t := s + [x];
    forall i, j | 0 <= i < j < |t| ensures key(t[i]) != key(t[j]) {
      if j == |s| {
        assert t[i] in s;
      }
    }
  }

  /** Deleting the row at `i` keeps the column unique, and leaves no row with the deleted key. */
  lemma RemoveUnique<T, K>(s: seq<T>, i: nat, key: T -> K)
    requires UniqueKeys(s, key)
    requires i < |s|
    ensures UniqueKeys(s[..i] + s[i + 1..], key)
    ensures forall y :: y in s[..i] + s[i + 1..] ==> key(y) != key(s[i])
    ensures forall y :: y in s && key(y) != key(s[i]) ==> y in s[..i] + s[i + 1..]
  {
    var t := s[..i] + s[i + 1..];
    assert forall j :: 0 <= j < |t| ==> t[j] == s[if j < i then j else j + 1];
    forall y | y in t ensures key(y) != key(s[i]) {
      var j :| 0 <= j < |t| && t[j] == y;
    }
    forall y | y in s && key(y) != key(s[i]) ensures y in t {
      var j :| 0 <= j < |s| && s[j] == y;
      if j < i {
        assert t[j] == y;
      } else {
        assert t[j - 1] == y;
      }
    }
  }

  /** Overwriting the row at `i` with one carrying the same key keeps the column unique. */
  lemma ReplaceUnique<T, K>(s: seq<T>, i: nat, x: T, key: T -> K)
    requires UniqueKeys(s, key)
    requires i < |s| && key(x) == key(s[i])
    ensures UniqueKeys(s[i := x], key)
  {
  }
}
