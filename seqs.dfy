/** The array operations the in-memory repositories are built from, over a
    sequence of records and a key extracted from each record: `findIndex`,
    `find`, `filter` on a differing key, index assignment and `splice`. */
module Seqs {
  import opened Common

  /** `s.findIndex(x => key(x) === k)`: the first position holding key `k`, or -1. */
  function IndexOf<T, K(==)>(s: seq<T>, key: T -> K, k: K): (r: int)
    ensures -1 <= r < |s|
    ensures r >= 0 ==> key(s[r]) == k && forall j :: 0 <= j < r ==> key(s[j]) != k
    ensures r == -1 <==> forall j :: 0 <= j < |s| ==> key(s[j]) != k
  {
    if s == [] then -1
    else if key(s[0]) == k then 0
    else
      var i := IndexOf(s[1..], key, k);
      if i == -1 then -1 else i + 1
  }

  /** `s.find(x => key(x) === k) ?? null`: the first record holding key `k`. */
  function FindFirst<T, K(==)>(s: seq<T>, key: T -> K, k: K): (r: Option<T>)
    ensures r.None? <==> forall j :: 0 <= j < |s| ==> key(s[j]) != k
    ensures r.Some? ==> IndexOf(s, key, k) >= 0 && r.value == s[IndexOf(s, key, k)] && key(r.value) == k
  {
    var i := IndexOf(s, key, k);
    if i == -1 then None else Some(s[i])
  }

  /** `s.filter(x => key(x) !== k)`: every record without key `k`, in order. */
  function RemoveAll<T, K(==)>(s: seq<T>, key: T -> K, k: K): (r: seq<T>)
    ensures |r| <= |s|
    ensures forall i :: 0 <= i < |r| ==> key(r[i]) != k
    ensures forall i :: 0 <= i < |r| ==> r[i] in s
    ensures forall j :: 0 <= j < |s| && key(s[j]) != k ==> s[j] in r
    ensures (forall j :: 0 <= j < |s| ==> key(s[j]) != k) ==> r == s
  {
    if s == [] then []
    else (if key(s[0]) != k then [s[0]] else []) + RemoveAll(s[1..], key, k)
  }

  /** Filtering keeps the survivors in their original order: it distributes
      over concatenation. */
  lemma {:induction false} RemoveAllAppend<T, K>(a: seq<T>, b: seq<T>, key: T -> K, k: K)
    ensures RemoveAll(a + b, key, k) == RemoveAll(a, key, k) + RemoveAll(b, key, k)
  {
    if a == [] {
      assert a + b == b;
    } else {
      assert (a + b)[1..] == a[1..] + b;
      RemoveAllAppend(a[1..], b, key, k);
    }
  }

  /** `s[i] = x` at the first position holding `x`'s key, if there is one; a
      sequence with no such record is returned unchanged. */
  function ReplaceFirst<T, K(==)>(s: seq<T>, key: T -> K, x: T): (r: seq<T>)
    ensures |r| == |s|
    ensures IndexOf(s, key, key(x)) == -1 ==> r == s
    ensures IndexOf(s, key, key(x)) >= 0 ==>
      r[IndexOf(s, key, key(x))] == x &&
      forall j :: 0 <= j < |s| && j != IndexOf(s, key, key(x)) ==> r[j] == s[j]
  {
    var i := IndexOf(s, key, key(x));
    if i == -1 then s else s[i := x]
  }

  /** After a replacement, looking the key up finds the new record. */
  lemma FindAfterReplace<T, K>(s: seq<T>, key: T -> K, x: T)
    requires IndexOf(s, key, key(x)) >= 0
    ensures FindFirst(ReplaceFirst(s, key, x), key, key(x)) == Some(x)
  {
    var i := IndexOf(s, key, key(x));
    var r := ReplaceFirst(s, key, x);
    assert forall j :: 0 <= j < i ==> r[j] == s[j];
  }

  /** A replacement leaves the records of every other key where they were. */
  lemma FindOtherAfterReplace<T, K>(s: seq<T>, key: T -> K, x: T, k: K)
    requires k != key(x)
    ensures FindFirst(ReplaceFirst(s, key, x), key, k) == FindFirst(s, key, k)
  {
    var i := IndexOf(s, key, key(x));
    if i >= 0 {
      var r := ReplaceFirst(s, key, x);
      assert forall j :: 0 <= j < |s| ==> (key(r[j]) == k <==> key(s[j]) == k);
      IndexOfAgree(s, r, key, k);
    }
  }

  /** Two sequences that hold key `k` at the same positions and agree where
      it is held give the same first position and record. */
  lemma {:induction false} IndexOfAgree<T, K>(s: seq<T>, r: seq<T>, key: T -> K, k: K)
    requires |s| == |r|
    requires forall j :: 0 <= j < |s| ==> (key(r[j]) == k <==> key(s[j]) == k)
    requires forall j :: 0 <= j < |s| && key(s[j]) == k ==> r[j] == s[j]
    ensures IndexOf(r, key, k) == IndexOf(s, key, k)
    ensures FindFirst(r, key, k) == FindFirst(s, key, k)
  {
    if s != [] {
      IndexOfAgree(s[1..], r[1..], key, k);
    }
  }

  /** How many records hold key `k`. */
  function CountKey<T, K(==)>(s: seq<T>, key: T -> K, k: K): (n: nat)
    ensures n <= |s|
    ensures n == 0 <==> forall j :: 0 <= j < |s| ==> key(s[j]) != k
  {
    if s == [] then 0
    else (if key(s[0]) == k then 1 else 0) + CountKey(s[1..], key, k)
  }

  lemma {:induction false} CountKeyAppend<T, K>(a: seq<T>, b: seq<T>, key: T -> K, k: K)
    ensures CountKey(a + b, key, k) == CountKey(a, key, k) + CountKey(b, key, k)
  {
    if a == [] {
      assert a + b == b;
    } else {
      assert (a + b)[1..] == a[1..] + b;
      CountKeyAppend(a[1..], b, key, k);
    }
  }

  /** Removing every record of a key and then appending one record with that
      key leaves exactly one record for it, and the lookup finds the new one. */
  lemma RemoveAllThenAppend<T, K>(s: seq<T>, key: T -> K, x: T)
    ensures CountKey(RemoveAll(s, key, key(x)) + [x], key, key(x)) == 1
    ensures FindFirst(RemoveAll(s, key, key(x)) + [x], key, key(x)) == Some(x)
  {
    var rest := RemoveAll(s, key, key(x));
    CountKeyAppend(rest, [x], key, key(x));
    assert CountKey([x], key, key(x)) == 1;
    var t := rest + [x];
    assert forall j :: 0 <= j < |rest| ==> key(t[j]) != key(x);
    assert IndexOf(t, key, key(x)) == |rest|;
  }

  /** Filtering out key `k` does not change which record the lookup of any
      other key finds. */
  lemma {:induction false} FindOtherAfterRemoveAll<T, K>(s: seq<T>, key: T -> K, k: K, other: K)
    requires other != k
    ensures FindFirst(RemoveAll(s, key, k), key, other) == FindFirst(s, key, other)
  {
    if s != [] {
      var rest := RemoveAll(s[1..], key, k);
      FindOtherAfterRemoveAll(s[1..], key, k, other);
      FindFirstCons(s[0], s[1..], key, other);
      assert [s[0]] + s[1..] == s;
      if key(s[0]) != k {
        assert RemoveAll(s, key, k) == [s[0]] + rest;
        FindFirstCons(s[0], rest, key, other);
      } else {
        assert RemoveAll(s, key, k) == [] + rest;
        assert [] + rest == rest;
      }
    }
  }

  /** The lookup in `[x] + t` finds `x` when it holds the key, and otherwise
      whatever the lookup in `t` finds. */
  lemma FindFirstCons<T, K>(x: T, t: seq<T>, key: T -> K, k: K)
    ensures FindFirst([x] + t, key, k) == if key(x) == k then Some(x) else FindFirst(t, key, k)
  {
    assert ([x] + t)[1..] == t;
  }

  /** Appending a record with a different key does not change a lookup. */
  lemma FindOtherAfterAppend<T, K>(s: seq<T>, key: T -> K, x: T, other: K)
    requires key(x) != other
    ensures FindFirst(s + [x], key, other) == FindFirst(s, key, other)
  {
    var t := s + [x];
    var i := IndexOf(s, key, other);
    var j := IndexOf(t, key, other);
    assert forall n :: 0 <= n < |s| ==> t[n] == s[n];
    if i == -1 {
      assert j == -1;
    } else {
      assert j != -1;
      assert !(j < i) && !(i < j);
    }
  }

  /** `s.splice(i, 1)`: the sequence without position `i`, everything else in
      order; as a multiset, exactly one occurrence of `s[i]` is gone. */
  function RemoveAt<T>(s: seq<T>, i: nat): (r: seq<T>)
    requires i < |s|
    ensures |r| == |s| - 1
    ensures forall j :: 0 <= j < i ==> r[j] == s[j]
    ensures forall j :: i <= j < |r| ==> r[j] == s[j + 1]
    ensures multiset(r) + multiset{s[i]} == multiset(s)
  {
    assert s == s[..i] + [s[i]] + s[i + 1..];
    s[..i] + s[i + 1..]
  }

  /** Removing position `i` lowers the count of a key by one exactly when
      that position holds the key. */
  lemma {:induction false} CountKeyRemoveAt<T, K>(s: seq<T>, i: nat, key: T -> K, k: K)
    requires i < |s|
    ensures CountKey(RemoveAt(s, i), key, k) == CountKey(s, key, k) - (if key(s[i]) == k then 1 else 0)
  {
    if i == 0 {
      assert RemoveAt(s, i) == s[1..];
    } else {
      var tail := RemoveAt(s[1..], i - 1);
      assert RemoveAt(s, i) == [s[0]] + tail;
      CountKeyRemoveAt(s[1..], i - 1, key, k);
      assert s[1..][i - 1] == s[i];
      CountKeyCons(s[0], tail, key, k);
    }
  }

  /** Counting in `[x] + t` counts `x` and then `t`. */
  lemma CountKeyCons<T, K>(x: T, t: seq<T>, key: T -> K, k: K)
    ensures CountKey([x] + t, key, k) == (if key(x) == k then 1 else 0) + CountKey(t, key, k)
  {
    assert ([x] + t)[1..] == t;
  }

}
