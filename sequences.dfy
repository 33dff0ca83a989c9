/** Sequence vocabulary used by the specifications: subsequences, flattening, and
    flattening in a chosen order of the parts. */
module Sequences {

  /** `sub` is obtained from `s` by deleting elements; the rest keep their order. */
  predicate IsSubsequence<T(==)>(sub: seq<T>, s: seq<T>)
    decreases |s|
  {
    sub == [] ||
    (s != [] &&
     ((sub[|sub| - 1] == s[|s| - 1] && IsSubsequence(sub[..|sub| - 1], s[..|s| - 1])) ||
      IsSubsequence(sub, s[..|s| - 1])))
  }

  lemma {:induction false} SubsequenceTransitive<T>(a: seq<T>, b: seq<T>, c: seq<T>)
    requires IsSubsequence(a, b) && IsSubsequence(b, c)
    ensures IsSubsequence(a, c)
    decreases |c|
  {
    if a == [] {
    } else if b == [] {
      assert false;
    } else {
      var c' := c[..|c| - 1];
      if b[|b| - 1] == c[|c| - 1] && IsSubsequence(b[..|b| - 1], c') {
        var b' := b[..|b| - 1];
        if a[|a| - 1] == b[|b| - 1] && IsSubsequence(a[..|a| - 1], b') {
          SubsequenceTransitive(a[..|a| - 1], b', c');
        } else {
          SubsequenceTransitive(a, b', c');
        }
      } else {
        SubsequenceTransitive(a, b, c');
      }
    }
  }

  /** The parts laid end to end, first to last. */
  function Concat<T>(xss: seq<seq<T>>): seq<T>
    decreases |xss|
  {
    if xss == [] then [] else xss[0] + Concat(xss[1..])
  }

  lemma {:induction false} ConcatAppend<T>(a: seq<seq<T>>, b: seq<seq<T>>)
    ensures Concat(a + b) == Concat(a) + Concat(b)
    decreases |a|
  {
    if a != [] {
      assert (a + b)[1..] == a[1..] + b;
      ConcatAppend(a[1..], b);
    } else {
      assert a + b == b;
    }
  }

  lemma ConcatSnoc<T>(a: seq<seq<T>>, x: seq<T>)
    ensures Concat(a + [x]) == Concat(a) + x
  {
    ConcatAppend(a, [x]);
    assert Concat([x]) == x + Concat([]);
  }

  /** Laying out parts that are all empty gives nothing. */
  lemma {:induction false} ConcatEmpty<T>(xss: seq<seq<T>>)
    requires forall i :: 0 <= i < |xss| ==> xss[i] == []
    ensures Concat(xss) == []
    decreases |xss|
  {
    if xss != [] {
      ConcatEmpty(xss[1..]);
    }
  }

  /** Laying out the parts around part `i`. */
  lemma {:induction false} ConcatAround<T>(xss: seq<seq<T>>, i: nat)
    requires i < |xss|
    ensures Concat(xss) == Concat(xss[..i]) + xss[i] + Concat(xss[i + 1..])
    decreases i
  {
    if i == 0 {
      assert Concat(xss[..0]) == [];
    } else {
      var tail := xss[1..];
      ConcatAround(tail, i - 1);
      assert xss[..i][1..] == tail[..i - 1];
      assert tail[i..] == xss[i + 1..];
      assert Concat(xss[..i]) == xss[0] + Concat(tail[..i - 1]);
    }
  }

  /** `s` is an interleaving of the parts: its last element is the last element of some
      part, and what comes before interleaves the parts with that element taken off.
      Every part keeps its own order; parts may alternate in any way. */
  predicate Interleaves<T(==)>(s: seq<T>, parts: seq<seq<T>>)
    decreases |s|
  {
    if s == [] then forall i :: 0 <= i < |parts| ==> parts[i] == []
    else exists i :: 0 <= i < |parts| && parts[i] != [] && parts[i][|parts[i]| - 1] == s[|s| - 1] &&
                     Interleaves(s[..|s| - 1], parts[i := parts[i][..|parts[i]| - 1]])
  }

  /** An interleaving holds the elements of the parts, each as often as in the parts. */
  lemma {:induction false} InterleavesMultiset<T>(s: seq<T>, parts: seq<seq<T>>)
    requires Interleaves(s, parts)
    ensures multiset(s) == multiset(Concat(parts))
    decreases |s|
  {
    if s == [] {
      ConcatEmpty(parts);
    } else {
      var i :| 0 <= i < |parts| && parts[i] != [] && parts[i][|parts[i]| - 1] == s[|s| - 1] &&
               Interleaves(s[..|s| - 1], parts[i := parts[i][..|parts[i]| - 1]]);
      InterleavesMultiset(s[..|s| - 1], parts[i := parts[i][..|parts[i]| - 1]]);
      ConcatTakeLast(parts, i);
      assert s == s[..|s| - 1] + [s[|s| - 1]];
    }
  }

  /** Taking the last element off part `i` takes exactly that element out of the layout. */
  lemma ConcatTakeLast<T>(parts: seq<seq<T>>, i: nat)
    requires i < |parts| && parts[i] != []
    ensures multiset(Concat(parts)) ==
            multiset(Concat(parts[i := parts[i][..|parts[i]| - 1]])) + multiset{parts[i][|parts[i]| - 1]}
  {
    var x, init := parts[i][|parts[i]| - 1], parts[i][..|parts[i]| - 1];
    var rest := parts[i := init];
    ConcatAround(parts, i);
    ConcatAround(rest, i);
    assert rest[..i] == parts[..i] && rest[i + 1..] == parts[i + 1..];
    assert parts[i] == init + [x];
  }

  /** In an interleaving every part keeps its own order. */
  lemma {:induction false} InterleavesKeepsOrder<T>(s: seq<T>, parts: seq<seq<T>>, j: nat)
    requires Interleaves(s, parts) && j < |parts|
    ensures IsSubsequence(parts[j], s)
    decreases |s|
  {
    if s != [] {
      var i :| 0 <= i < |parts| && parts[i] != [] && parts[i][|parts[i]| - 1] == s[|s| - 1] &&
               Interleaves(s[..|s| - 1], parts[i := parts[i][..|parts[i]| - 1]]);
      var rest := parts[i := parts[i][..|parts[i]| - 1]];
      InterleavesKeepsOrder(s[..|s| - 1], rest, j);
    }
  }

  /** The indices 0, 1, ..., n - 1 in increasing order. */
  function Indices(n: nat): (r: seq<nat>)
    ensures |r| == n && forall i :: 0 <= i < n ==> r[i] == i
  {
    seq(n, i => i)
  }

  /** Every entry of `order` is the index of a part. */
  predicate InRange(order: seq<nat>, n: nat)
  {
    forall j :: 0 <= j < |order| ==> order[j] < n
  }

  /** `order` lists each of the indices 0 .. n - 1 exactly once, in some order. */
  predicate IsRearrangement(order: seq<nat>, n: nat)
  {
    multiset(order) == multiset(Indices(n))
  }

  lemma RearrangementInRange(order: seq<nat>, n: nat)
    requires IsRearrangement(order, n)
    ensures InRange(order, n) && |order| == n
  {
    assert |multiset(order)| == |multiset(Indices(n))|;
    forall j | 0 <= j < |order| ensures order[j] < n {
      assert order[j] in multiset(order);
      assert order[j] in multiset(Indices(n));
    }
  }

  /** The parts laid end to end in the order `order` names them. */
  function Gathered<T>(xss: seq<seq<T>>, order: seq<nat>): seq<T>
    requires InRange(order, |xss|)
    decreases |order|
  {
    if order == [] then [] else Gathered(xss, order[..|order| - 1]) + xss[order[|order| - 1]]
  }

  lemma {:induction false} GatheredAppend<T>(xss: seq<seq<T>>, a: seq<nat>, b: seq<nat>)
    requires InRange(a, |xss|) && InRange(b, |xss|)
    ensures InRange(a + b, |xss|)
    ensures Gathered(xss, a + b) == Gathered(xss, a) + Gathered(xss, b)
    decreases |b|
  {
    if b != [] {
      var b' := b[..|b| - 1];
      assert (a + b)[..|a + b| - 1] == a + b';
      GatheredAppend(xss, a, b');
    } else {
      assert a + b == a;
    }
  }

  /** Gathering in natural order is plain concatenation. */
  lemma {:induction false} GatheredIndices<T>(xss: seq<seq<T>>, k: nat)
    requires k <= |xss|
    ensures InRange(Indices(k), |xss|)
    ensures Gathered(xss, Indices(k)) == Concat(xss[..k])
    decreases k
  {
    if k > 0 {
      GatheredIndices(xss, k - 1);
      assert Indices(k)[..k - 1] == Indices(k - 1);
      assert xss[..k] == xss[..k - 1] + [xss[k - 1]];
      ConcatSnoc(xss[..k - 1], xss[k - 1]);
    }
  }

  lemma RemoveAtMultiset(s: seq<nat>, p: nat)
    requires p < |s|
    ensures s == s[..p] + [s[p]] + s[p + 1..]
    ensures multiset(s[..p] + s[p + 1..]) == multiset(s) - multiset{s[p]}
  {
    assert s == s[..p] + [s[p]] + s[p + 1..];
    assert multiset(s) == multiset(s[..p]) + multiset{s[p]} + multiset(s[p + 1..]);
  }

  lemma GatheredAround<T>(xss: seq<seq<T>>, pre: seq<nat>, x: nat, post: seq<nat>)
    requires InRange(pre, |xss|) && x < |xss| && InRange(post, |xss|)
    ensures InRange(pre + [x] + post, |xss|) && InRange(pre + post, |xss|)
    ensures Gathered(xss, pre + [x] + post) == Gathered(xss, pre) + xss[x] + Gathered(xss, post)
    ensures Gathered(xss, pre + post) == Gathered(xss, pre) + Gathered(xss, post)
  {
    GatheredAppend(xss, pre, post);
    GatheredAppend(xss, pre, [x]);
    GatheredAppend(xss, pre + [x], post);
    assert Gathered(xss, [x]) == xss[x] by {
      assert [x][..0] == [];
    }
  }

  /** Taking one part out of the order takes exactly its elements out of the gathering. */
  lemma GatheredRemoveAt<T>(xss: seq<seq<T>>, o: seq<nat>, p: nat)
    requires InRange(o, |xss|) && p < |o|
    ensures InRange(o[..p] + o[p + 1..], |xss|)
    ensures multiset(Gathered(xss, o)) ==
            multiset(Gathered(xss, o[..p] + o[p + 1..])) + multiset(xss[o[p]])
  {
    var x, pre, post := o[p], o[..p], o[p + 1..];
    assert o == pre + [x] + post;
    GatheredAround(xss, pre, x, post);
    var g1, g2 := Gathered(xss, pre), Gathered(xss, post);
    assert multiset(g1 + xss[x] + g2) == multiset(g1) + multiset(xss[x]) + multiset(g2);
  }

  /** The elements gathered depend only on which parts are named, not on the order. */
  lemma {:induction false} GatheredMultiset<T>(xss: seq<seq<T>>, o1: seq<nat>, o2: seq<nat>)
    requires InRange(o1, |xss|) && InRange(o2, |xss|)
    requires multiset(o1) == multiset(o2)
    ensures multiset(Gathered(xss, o1)) == multiset(Gathered(xss, o2))
    decreases |o1|
  {
    if o1 == [] {
      assert |o2| == |multiset(o2)| == 0;
    } else {
      var x, rest1 := o1[|o1| - 1], o1[..|o1| - 1];
      assert Gathered(xss, o1) == Gathered(xss, rest1) + xss[x];
      var p := PositionOf(o1, o2, x);
      var rest2 := o2[..p] + o2[p + 1..];
      assert multiset(rest1) == multiset(rest2) by {
        RemoveAtMultiset(o1, |o1| - 1);
        RemoveAtMultiset(o2, p);
      }
      GatheredRemoveAt(xss, o2, p);
      GatheredMultiset(xss, rest1, rest2);
    }
  }

  lemma PositionOf(o1: seq<nat>, o2: seq<nat>, x: nat) returns (p: nat)
    requires multiset(o1) == multiset(o2) && x in o1
    ensures p < |o2| && o2[p] == x
  {
    assert x in multiset(o2);
    p :| 0 <= p < |o2| && o2[p] == x;
  }

  /** Gathering along any rearrangement of the indices yields the same elements as
      plain concatenation. */
  lemma RearrangedGather<T>(xss: seq<seq<T>>, order: seq<nat>)
    requires IsRearrangement(order, |xss|)
    ensures InRange(order, |xss|)
    ensures multiset(Gathered(xss, order)) == multiset(Concat(xss))
  {
    RearrangementInRange(order, |xss|);
    GatheredIndices(xss, |xss|);
    assert xss[..|xss|] == xss;
    GatheredMultiset(xss, order, Indices(|xss|));
  }
}
