/** Generic helpers for the in-memory tables: lookup by key, selection and
    ordering by a timestamp key, as the store's queries use them. */
module Tables {

  datatype Option<+T> = None | Some(value: T)

  /** An update's value for one field: the new value when one is given,
      the current one otherwise. */
  function Overwrite<T>(update: Option<T>, current: T): (v: T)
    ensures update.Some? ==> v == update.value
    ensures update.None? ==> v == current
  {
    if update.Some? then update.value else current
  }

  /** No two rows share a key. */
  ghost predicate UniqueKeys<R>(s: seq<R>, key: R -> string)
  {
    forall i, j :: 0 <= i < j < |s| ==> key(s[i]) != key(s[j])
  }

  /** Position of the first row whose key is `id`, if any. */
  function IndexOf<R>(s: seq<R>, key: R -> string, id: string): (r: Option<nat>)
    ensures r.Some? ==> r.value < |s| && key(s[r.value]) == id
    ensures r.Some? ==> forall j :: 0 <= j < r.value ==> key(s[j]) != id
    ensures r.None? <==> forall j :: 0 <= j < |s| ==> key(s[j]) != id
  {
    if s == [] then None
    else if key(s[0]) == id then Some(0)
    else
      match IndexOf(s[1..], key, id)
      case None => None
      case Some(k) => Some(k + 1)
  }

  /** Two tables whose rows carry the same keys, position by position, find
      a key at the same position. */
  lemma IndexOfSameKeys<R>(s: seq<R>, t: seq<R>, key: R -> string, id: string)
    requires |s| == |t|
    requires forall k :: 0 <= k < |s| ==> key(s[k]) == key(t[k])
    ensures IndexOf(s, key, id) == IndexOf(t, key, id)
  {
    var a, b := IndexOf(s, key, id), IndexOf(t, key, id);
    if a.Some? {
      assert key(t[a.value]) == id;
    }
    if b.Some? {
      assert key(s[b.value]) == id;
    }
  }

  /** In a table with unique keys, the row found is the only one with that key. */
  lemma {:induction false} IndexOfUnique<R>(s: seq<R>, key: R -> string, i: nat)
    requires UniqueKeys(s, key) && i < |s|
    ensures IndexOf(s, key, key(s[i])) == Some(i)
  {
    var r := IndexOf(s, key, key(s[i]));
    assert r.Some? by { assert key(s[i]) == key(s[i]); }
  }

  /** Rows that satisfy `p`, in table order. */
  function Select<R(!new)>(s: seq<R>, p: R -> bool): (r: seq<R>)
    ensures |r| <= |s|
    ensures forall x {:trigger multiset(r)[x]} ::
      multiset(r)[x] == if p(x) then multiset(s)[x] else 0
    ensures forall x :: x in r <==> x in s && p(x)
  {
    if s == [] then []
    else
      var rest := Select(s[1..], p);
      assert s == [s[0]] + s[1..];
      if p(s[0]) then [s[0]] + rest else rest
  }

  /** Every row satisfies `p`. */
  ghost predicate All<R>(s: seq<R>, p: R -> bool)
  {
    forall i :: 0 <= i < |s| ==> p(s[i])
  }

  /** Ordered by `key`, largest first (newest first for a timestamp). */
  ghost predicate SortedDesc<R>(s: seq<R>, key: R -> int)
  {
    forall i, j :: 0 <= i < j < |s| ==> key(s[i]) >= key(s[j])
  }

  /** Places `x` before the first row whose key is not larger than its own. */
  function InsertDesc<R>(x: R, s: seq<R>, key: R -> int): (r: seq<R>)
    requires SortedDesc(s, key)
    ensures SortedDesc(r, key)
    ensures multiset(r) == multiset(s) + multiset{x}
    ensures |r| == |s| + 1
    ensures forall j :: 0 <= j < |r| ==> r[j] == x || r[j] in s
  {
    if s == [] || key(s[0]) <= key(x) then
      [x] + s
    else
      var rest := InsertDesc(x, s[1..], key);
      InsertBelowHead(x, s, key, rest);
      assert s == [s[0]] + s[1..];
      [s[0]] + rest
  }

  /** The step of InsertDesc that keeps the head in front. */
  lemma InsertBelowHead<R>(x: R, s: seq<R>, key: R -> int, rest: seq<R>)
    requires SortedDesc(s, key) && s != [] && key(s[0]) > key(x) && SortedDesc(rest, key)
    requires forall j :: 0 <= j < |rest| ==> rest[j] == x || rest[j] in s[1..]
    ensures SortedDesc([s[0]] + rest, key)
    ensures forall j :: 0 <= j < |[s[0]] + rest| ==> ([s[0]] + rest)[j] == x || ([s[0]] + rest)[j] in s
  {
    var r := [s[0]] + rest;
    forall j | 0 <= j < |rest| ensures key(s[0]) >= key(rest[j]) {
      if rest[j] != x {
        var k :| 0 <= k < |s[1..]| && s[1..][k] == rest[j];
        assert s[k + 1] == rest[j];
      }
    }
    forall a, b | 0 <= a < b < |r| ensures key(r[a]) >= key(r[b]) {
      assert r[b] == rest[b - 1];
      if a > 0 {
        assert r[a] == rest[a - 1];
      }
    }
    forall j | 0 <= j < |r| ensures r[j] == x || r[j] in s {
      if j > 0 {
        assert r[j] == rest[j - 1];
        if r[j] != x {
          assert r[j] in s[1..];
        }
      }
    }
  }

  /** Stable insertion sort, newest (largest key) first: it stands for the
      `orderBy: { createdAt: 'desc' }` of the queries and for the
      comparator `b - a` handed to JavaScript's stable `Array.prototype.sort`. */
  function SortDesc<R>(s: seq<R>, key: R -> int): (r: seq<R>)
    ensures SortedDesc(r, key)
    ensures multiset(r) == multiset(s)
    ensures |r| == |s|
  {
    if s == [] then []
    else
      assert s == [s[0]] + s[1..];
      InsertDesc(s[0], SortDesc(s[1..], key), key)
  }

  /** Sorting a list that is already in order leaves it as it is: the
      stable re-sort that the routes apply to a query result changes nothing. */
  lemma {:induction false} SortDescOfSorted<R>(s: seq<R>, key: R -> int)
    requires SortedDesc(s, key)
    ensures SortDesc(s, key) == s
  {
    if s != [] {
      SortDescOfSorted(s[1..], key);
      assert SortDesc(s[1..], key) == s[1..];
      assert s == [s[0]] + s[1..];
    }
  }

  /** The rows that satisfy `p`, newest first: a `findMany` with a `where`
      filter and `orderBy: { createdAt: 'desc' }`. */
  function OrderedSelect<R(!new)>(s: seq<R>, p: R -> bool, key: R -> int): (r: seq<R>)
    ensures SortedDesc(r, key)
    ensures forall x {:trigger multiset(r)[x]} ::
      multiset(r)[x] == if p(x) then multiset(s)[x] else 0
    ensures forall x :: x in r <==> x in s && p(x)
  {
    var sel := Select(s, p);
    var r := SortDesc(sel, key);
    assert forall x :: x in r <==> x in multiset(r);
    r
  }
}
