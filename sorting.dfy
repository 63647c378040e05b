/**
 * The stable sort that `Array.prototype.sort` performs with a comparator
 * `(a, b) => key(b) - key(a)`: greatest key first, equal keys in their
 * original order. Used for `listLobbies` (newest first) and for the
 * scoreboard and hint orderings of the activity screens.
 */
module Sorting {

  /** Greatest key first. */
  ghost predicate SortedDesc<T>(s: seq<T>, key: T -> int) {
    forall i, j :: 0 <= i < j < |s| ==> key(s[i]) >= key(s[j])
  }

  /** Places `x` before the first element whose key is smaller, so `x` stays ahead of its equals in `s`. */
  function Insert<T(==)>(x: T, s: seq<T>, key: T -> int): (r: seq<T>)
    ensures multiset(r) == multiset(s) + multiset{x}
    ensures |r| == |s| + 1
  {
    if s == [] || key(x) >= key(s[0]) then
      [x] + s
    else
      assert s == [s[0]] + s[1..];
      [s[0]] + Insert(x, s[1..], key)
  }

  lemma {:induction false} InsertSorted<T>(x: T, s: seq<T>, key: T -> int)
    requires SortedDesc(s, key)
    ensures SortedDesc(Insert(x, s, key), key)
  {
    if s != [] && key(x) < key(s[0]) {
      var rest := Insert(x, s[1..], key);
      InsertSorted(x, s[1..], key);
      assert s == [s[0]] + s[1..];
      forall j | 0 <= j < |rest| ensures key(s[0]) >= key(rest[j]) {
        assert rest[j] in multiset(rest);
        if rest[j] != x {
          assert rest[j] in multiset(s[1..]);
          var k :| 0 <= k < |s[1..]| && s[1..][k] == rest[j];
          assert s[k + 1] == rest[j];
        }
      }
      assert Insert(x, s, key) == [s[0]] + rest;
    }
  }

  /** Insertion sort: a permutation of `s` ordered greatest key first. */
  function SortDesc<T(==)>(s: seq<T>, key: T -> int): (r: seq<T>)
    ensures multiset(r) == multiset(s)
    ensures |r| == |s|
    ensures SortedDesc(r, key)
  {
    if s == [] then [] else
      assert s == [s[0]] + s[1..];
      InsertSorted(s[0], SortDesc(s[1..], key), key);
      Insert(s[0], SortDesc(s[1..], key), key)
  }

  /** The first element of the sorted sequence has a key no smaller than any element's. */
  lemma SortDescHeadIsMax<T>(s: seq<T>, key: T -> int, k: nat)
    requires k < |s|
    ensures key(SortDesc(s, key)[0]) >= key(s[k])
  {
    var r := SortDesc(s, key);
    assert s[k] in multiset(r);
    var j :| 0 <= j < |r| && r[j] == s[k];
    assert j == 0 || key(r[0]) >= key(r[j]);
  }

  /** `s[k]` has the greatest key and every earlier element a smaller one. */
  ghost predicate FirstMaxAt<T>(s: seq<T>, key: T -> int, k: nat) {
    && k < |s|
    && (forall j :: 0 <= j < |s| ==> key(s[j]) <= key(s[k]))
    && (forall j :: 0 <= j < k ==> key(s[j]) < key(s[k]))
  }

  /** Stability at the head: the first element is the earliest one of greatest key. */
  lemma {:induction false} SortDescHeadIsFirstMax<T>(s: seq<T>, key: T -> int, k: nat)
    requires FirstMaxAt(s, key, k)
    ensures SortDesc(s, key)[0] == s[k]
    decreases |s|
  {
    if k == 0 {
      TailBelowHead(s, key);
      SortDescCons(s, key);
    } else {
      var tail := s[1..];
      TailKeepsFirstMax(s, key, k);
      SortDescHeadIsFirstMax(tail, key, k - 1);
      var rest := SortDesc(tail, key);
      assert rest != [] && rest[0] == s[k] by {
        assert tail[k - 1] == s[k];
      }
      SortDescCons(s, key);
    }
  }

  /** When the head of `s` has the greatest key, so does it against the head of the sorted tail. */
  lemma TailBelowHead<T>(s: seq<T>, key: T -> int)
    requires FirstMaxAt(s, key, 0)
    ensures var rest := SortDesc(s[1..], key); rest != [] ==> key(rest[0]) <= key(s[0])
  {
    var tail := s[1..];
    var rest := SortDesc(tail, key);
    if rest != [] {
      assert rest[0] in multiset(tail);
      var j :| 0 <= j < |tail| && tail[j] == rest[0];
      assert tail[j] == s[j + 1];
    }
  }

  /** The earliest greatest key at `k > 0` is the earliest greatest at `k - 1` in the tail. */
  lemma TailKeepsFirstMax<T>(s: seq<T>, key: T -> int, k: nat)
    requires 0 < k && FirstMaxAt(s, key, k)
    ensures FirstMaxAt(s[1..], key, k - 1) && key(s[0]) < key(s[k])
  {
    forall j | 0 <= j < |s[1..]| ensures key(s[1..][j]) <= key(s[1..][k - 1]) {
      assert s[1..][j] == s[j + 1];
    }
    forall j | 0 <= j < k - 1 ensures key(s[1..][j]) < key(s[1..][k - 1]) {
      assert s[1..][j] == s[j + 1];
    }
  }

  /** Sorting a non-empty sequence inserts its head into the sorted tail; the result starts with the head unless the tail's first key is greater. */
  lemma SortDescCons<T>(s: seq<T>, key: T -> int)
    requires s != []
    ensures var rest := SortDesc(s[1..], key);
      SortDesc(s, key)[0] == if rest == [] || key(s[0]) >= key(rest[0]) then s[0] else rest[0]
  {
    InsertHead(s[0], SortDesc(s[1..], key), key);
  }

  /** The head of an insertion: `x` when it goes first, the old head otherwise. */
  lemma InsertHead<T>(x: T, s: seq<T>, key: T -> int)
    ensures Insert(x, s, key)[0] == if s == [] || key(x) >= key(s[0]) then x else s[0]
  {
  }
}
