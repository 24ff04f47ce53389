/** `[...new Set(xs)]` over values compared by value: the distinct
    elements of a sequence, each at its first occurrence. */
module Seqs {

  /** No element occurs twice. */
  predicate NoDups<T(==)>(s: seq<T>) {
    forall i, j :: 0 <= i < j < |s| ==> s[i] != s[j]
  }

  /** The position of the first occurrence of `x`. */
  function IndexOf<T(==)>(s: seq<T>, x: T): (k: nat)
    requires x in s
    ensures k < |s| && s[k] == x
    ensures forall j :: 0 <= j < k ==> s[j] != x
  {
    if s[0] == x then 0 else 1 + IndexOf(s[1..], x)
  }

  /** Each element once, where it first occurs. */
  function Dedup<T(==)>(s: seq<T>): (r: seq<T>)
    ensures forall i :: 0 <= i < |s| ==> s[i] in r
    ensures forall i :: 0 <= i < |r| ==> r[i] in s
    ensures NoDups(r)
    ensures |r| <= |s|
  {
    if |s| == 0 then []
    else
      var r := Dedup(s[..|s| - 1]);
      var last := s[|s| - 1];
      assert s == s[..|s| - 1] + [last];
      if last in r then r else r + [last]
  }

  /** The elements of `Dedup(s)` appear in the order of their first
      occurrences in `s`. */
  lemma {:induction false} DedupKeepsFirstOrder<T>(s: seq<T>, i: int, j: int)
    requires 0 <= i < j < |Dedup(s)|
    ensures IndexOf(s, Dedup(s)[i]) < IndexOf(s, Dedup(s)[j])
    decreases |s|
  {
    var p := s[..|s| - 1];
    var last := s[|s| - 1];
    var r := Dedup(p);
    assert s == p + [last];
    if j < |r| {
      DedupKeepsFirstOrder(p, i, j);
      PrefixIndexOf(p, last, r[i]);
      PrefixIndexOf(p, last, r[j]);
    } else {
      // Dedup(s)[j] is `last`, new: every earlier element was in `p`.
      assert Dedup(s) == r + [last] && Dedup(s)[j] == last && last !in p;
      assert r[i] in p;
      PrefixIndexOf(p, last, r[i]);
      assert IndexOf(s, last) == |p| by {
        forall k | 0 <= k < |p| ensures s[k] != last {
          assert s[k] == p[k];
        }
      }
    }
  }

  /** A first occurrence inside a prefix stays first in the whole. */
  lemma {:induction false} PrefixIndexOf<T>(p: seq<T>, last: T, x: T)
    requires x in p
    ensures x in p + [last] && IndexOf(p + [last], x) == IndexOf(p, x)
    decreases |p|
  {
    if p[0] != x {
      assert (p + [last])[1..] == p[1..] + [last];
      PrefixIndexOf(p[1..], last, x);
    }
  }

  /** A sequence without repetitions has as many distinct elements as
      it has positions. */
  lemma {:induction false} NoDupsCard<T>(s: seq<T>)
    requires NoDups(s)
    ensures |set x | x in s| == |s|
    decreases |s|
  {
    if |s| > 0 {
      var p := s[..|s| - 1];
      var last := s[|s| - 1];
      assert s == p + [last];
      assert NoDups(p) by {
        forall i, j | 0 <= i < j < |p| ensures p[i] != p[j] {
          assert p[i] == s[i] && p[j] == s[j];
        }
      }
      NoDupsCard(p);
      assert last !in p by {
        forall k | 0 <= k < |p| ensures p[k] != last {
          assert p[k] == s[k];
        }
      }
      assert (set x | x in s) == (set x | x in p) + {last};
    }
  }

  /** `new Set(s).size`: the number of distinct values. */
  lemma DedupCountsDistinct<T>(s: seq<T>)
    ensures |Dedup(s)| == |set x | x in s|
  {
    var r := Dedup(s);
    NoDupsCard(r);
    assert (set x | x in r) == (set x | x in s);
  }

  /** Deduplication changes nothing the second time. */
  lemma {:induction false} DedupIdempotent<T>(s: seq<T>)
    ensures Dedup(Dedup(s)) == Dedup(s)
  {
    NoDupsDedupIsIdentity(Dedup(s));
  }

  /** A sequence without repetitions is its own deduplication. */
  lemma {:induction false} NoDupsDedupIsIdentity<T>(s: seq<T>)
    requires NoDups(s)
    ensures Dedup(s) == s
    decreases |s|
  {
    if |s| > 0 {
      var p := s[..|s| - 1];
      assert NoDups(p) by {
        forall i, j | 0 <= i < j < |p| ensures p[i] != p[j] {
          assert p[i] == s[i] && p[j] == s[j];
        }
      }
      NoDupsDedupIsIdentity(p);
      assert s[|s| - 1] !in p by {
        forall k | 0 <= k < |p| ensures p[k] != s[|s| - 1] {
          assert p[k] == s[k];
        }
      }
      assert s == p + [s[|s| - 1]];
    }
  }

  /** Two values: one when they are equal, both in order otherwise. */
  lemma DedupPair<T>(x: T, y: T)
    ensures Dedup([x, y]) == if x == y then [x] else [x, y]
  {
    assert [x, y][..1] == [x];
    assert [x][..0] == [];
  }
}
