/**
 * The "filter, sort, limit" queries of the repositories, over finite sets of
 * sort keys.  A key ends with the row id, so the order on the keys of a table
 * is strict and every set of keys has exactly one sorted listing.
 */
module Ranking {
  import opened Common

  datatype Key = Key(k0: int, k1: int, k2: int, id: int)

  predicate Before(a: Key, b: Key) {
    || a.k0 < b.k0
    || (a.k0 == b.k0 && a.k1 < b.k1)
    || (a.k0 == b.k0 && a.k1 == b.k1 && a.k2 < b.k2)
    || (a.k0 == b.k0 && a.k1 == b.k1 && a.k2 == b.k2 && a.id < b.id)
  }

  ghost predicate Ascending(s: seq<Key>) {
    forall i, j :: 0 <= i < j < |s| ==> Before(s[i], s[j])
  }

  predicate IsLeast(k: Key, ks: set<Key>) {
    k in ks && forall x <- ks :: x == k || Before(k, x)
  }

  lemma LeastExists(ks: set<Key>)
    requires ks != {}
    ensures exists k :: IsLeast(k, ks)
  {
    var x :| x in ks;
    if ks == {x} {
      assert IsLeast(x, ks);
    } else {
      var rest := ks - {x};
      LeastExists(rest);
      var m :| IsLeast(m, rest);
      var least := if Before(x, m) then x else m;
      forall y <- ks ensures y == least || Before(least, y) {
        assert y == x || y in rest;
      }
      assert IsLeast(least, ks);
    }
  }

  function Least(ks: set<Key>): (k: Key)
    requires ks != {}
    ensures IsLeast(k, ks)
  {
    LeastExists(ks);
    var k :| IsLeast(k, ks);
    k
  }

  /** The listing of a set of keys in ascending order. */
  function Sorted(ks: set<Key>): (s: seq<Key>)
    ensures Ascending(s)
    ensures |s| == |ks|
    ensures forall k :: k in s <==> k in ks
  {
    if ks == {} then [] else [Least(ks)] + Sorted(ks - {Least(ks)})
  }

  /** ORDER BY the key, LIMIT n. */
  function First(ks: set<Key>, n: nat): (s: seq<Key>)
    ensures Ascending(s)
    ensures |s| == if |ks| < n then |ks| else n
    ensures forall k :: k in s ==> k in ks
    ensures forall k, x :: k in ks && k !in s && x in s ==> Before(x, k)
  {
    var s := Sorted(ks);
    if |s| <= n then s else
      assert forall k :: k in ks && k !in s[..n] ==> k in s[n..] by {
        assert s == s[..n] + s[n..];
      }
      s[..n]
  }

  function After(ks: set<Key>, c: Key): set<Key> {
    set k <- ks | Before(c, k)
  }

  /** What follows position i of a listing is what ranks after it. */
  lemma TailMembers(s: seq<Key>, i: nat, k: Key)
    requires Ascending(s) && i < |s|
    ensures k in s[i + 1..] <==> k in s && Before(s[i], k)
  {
    if k in s && Before(s[i], k) {
      var j :| 0 <= j < |s| && s[j] == k;
      assert s[i + 1..][j - i - 1] == k;
    }
  }

  /** A set of keys has only one ascending listing. */
  lemma {:induction false} AscendingUnique(s: seq<Key>, t: seq<Key>)
    requires Ascending(s) && Ascending(t)
    requires forall k :: k in s <==> k in t
    ensures s == t
  {
    if s == [] {
      HasMember(t);
    } else {
      assert s[0] in t;
      assert t[0] in s;
      assert s[0] == t[0];
      forall k ensures k in s[1..] <==> k in t[1..] {
        TailMembers(s, 0, k);
        TailMembers(t, 0, k);
      }
      AscendingUnique(s[1..], t[1..]);
    }
  }

  /** The keyset predicate continues a listing exactly where a page stopped. */
  lemma SortedAfter(ks: set<Key>, s: seq<Key>, i: nat)
    requires s == Sorted(ks) && i < |s|
    ensures Sorted(After(ks, s[i])) == s[i + 1..]
  {
    var t := Sorted(After(ks, s[i]));
    forall k ensures k in t <==> k in s[i + 1..] {
      TailMembers(s, i, k);
    }
    AscendingUnique(t, s[i + 1..]);
  }

  function Members(s: seq<Key>): set<Key> {
    set k <- s
  }

  /** The keys of a prefix of a listing, as a set, are as many as its members. */
  lemma {:induction false} AscendingCard(s: seq<Key>)
    requires Ascending(s)
    ensures |Members(s)| == |s|
  {
    if s != [] {
      AscendingCard(s[1..]);
      assert Members(s) == {s[0]} + Members(s[1..]);
    }
  }
}
