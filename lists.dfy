/** Facts about lists of strings: membership, repeats, positions and order-preserving filtering. */
module Lists {

  predicate Distinct(s: seq<string>) {
    forall i, j :: 0 <= i < j < |s| ==> s[i] != s[j]
  }

  function Elems(s: seq<string>): set<string> {
    set x | x in s
  }

  lemma ElemsSnoc(s: seq<string>, i: nat)
    requires i < |s|
    ensures Elems(s[..i + 1]) == Elems(s[..i]) + {s[i]}
  {
    assert s[..i + 1] == s[..i] + [s[i]];
  }

  /** Appending an element not yet present keeps the elements distinct. */
  lemma AppendFresh(s: seq<string>, x: string)
    requires Distinct(s) && x !in Elems(s)
    ensures Distinct(s + [x]) && Elems(s + [x]) == Elems(s) + {x}
  {
    var t := s + [x];
    forall i, j | 0 <= i < j < |t| ensures t[i] != t[j] {
      if j == |s| {
        assert t[i] == s[i] && s[i] in Elems(s);
      } else {
        assert t[i] == s[i] && t[j] == s[j];
      }
    }
  }

  /** The first position of `x` in `s`. */
  function IndexOf(s: seq<string>, x: string): (r: nat)
    requires x in s
    ensures r < |s| && s[r] == x
    ensures forall k :: 0 <= k < r ==> s[k] != x
  {
    if s[0] == x then 0 else 1 + IndexOf(s[1..], x)
  }

  lemma IndexOfPrefix(s: seq<string>, m: nat, x: string)
    requires m <= |s| && x in s[..m]
    ensures IndexOf(s[..m], x) == IndexOf(s, x) && IndexOf(s, x) < m
  {
    var k := IndexOf(s[..m], x);
    assert s[k] == x;
  }

  /** The elements of `s` that are in `t`, in the order of `s`. */
  function Filter(s: seq<string>, t: set<string>): (r: seq<string>)
    ensures |r| <= |s|
    decreases |s|
  {
    if |s| == 0 then []
    else Filter(s[..|s| - 1], t) + (if s[|s| - 1] in t then [s[|s| - 1]] else [])
  }

  lemma FilterSnoc(s: seq<string>, t: set<string>, i: nat)
    requires i < |s|
    ensures Filter(s[..i + 1], t) == Filter(s[..i], t) + (if s[i] in t then [s[i]] else [])
  {
    assert s[..i + 1][..i] == s[..i];
  }

  lemma {:induction false} FilterMembers(s: seq<string>, t: set<string>)
    ensures forall x :: x in Filter(s, t) <==> x in s && x in t
    decreases |s|
  {
    if |s| > 0 {
      FilterMembers(s[..|s| - 1], t);
      assert s == s[..|s| - 1] + [s[|s| - 1]];
    }
  }

  /** In a list without repeats, the position of the element at `k` is `k`. */
  lemma IndexOfDistinct(s: seq<string>, k: nat)
    requires Distinct(s) && k < |s|
    ensures IndexOf(s, s[k]) == k
  {
  }

  /** Every element of `r` is in `s`, and positions in `s` increase along `r`. */
  predicate OrderedIn(r: seq<string>, s: seq<string>) {
    forall i, j :: 0 <= i < j < |r| ==> OrderedPair(r, s, i, j)
  }

  predicate OrderedPair(r: seq<string>, s: seq<string>, i: nat, j: nat)
    requires i < j < |r|
  {
    r[i] in s && r[j] in s && IndexOf(s, r[i]) < IndexOf(s, r[j])
  }

  /** Filtering a list without repeats keeps its order. */
  lemma {:induction false} FilterOrdered(s: seq<string>, t: set<string>)
    requires Distinct(s)
    ensures OrderedIn(Filter(s, t), s)
    decreases |s|
  {
    if |s| > 0 {
      var r := Filter(s, t);
      FilterOrdered(s[..|s| - 1], t);
      forall i, j | 0 <= i < j < |r| ensures OrderedPair(r, s, i, j) {
        OrderedStep(s, t, i, j);
      }
      assert OrderedIn(r, s);
    } else {
      assert Filter(s, t) == [];
    }
  }

  lemma OrderedStep(s: seq<string>, t: set<string>, i: nat, j: nat)
    requires Distinct(s) && |s| > 0
    requires OrderedIn(Filter(s[..|s| - 1], t), s[..|s| - 1])
    requires i < j < |Filter(s, t)|
    ensures OrderedPair(Filter(s, t), s, i, j)
  {
    var n := |s| - 1;
    var init := s[..n];
    var r0 := Filter(init, t);
    var r := Filter(s, t);
    FilterMembers(init, t);
    IndexOfDistinct(s, n);
    assert r[i] == r0[i] && r0[i] in r0;
    IndexOfPrefix(s, n, r0[i]);
    if j == |r0| {
      assert r[j] == s[n];
    } else {
      assert r[j] == r0[j] && r0[j] in r0;
      IndexOfPrefix(s, n, r0[j]);
      assert OrderedPair(r0, init, i, j);
    }
  }

  lemma OrderedDistinct(r: seq<string>, s: seq<string>)
    requires OrderedIn(r, s)
    ensures Distinct(r)
  {
    forall i, j | 0 <= i < j < |r| ensures r[i] != r[j] {
      assert OrderedPair(r, s, i, j);
    }
  }

  lemma {:induction false} FilterConcat(a: seq<string>, b: seq<string>, t: set<string>)
    ensures Filter(a + b, t) == Filter(a, t) + Filter(b, t)
    decreases |b|
  {
    if |b| == 0 {
      assert a + b == a;
    } else {
      FilterConcat(a, b[..|b| - 1], t);
      assert (a + b)[..|a + b| - 1] == a + b[..|b| - 1];
    }
  }

  lemma {:induction false} FilterKeepsAll(s: seq<string>, t: set<string>)
    requires forall x :: x in s ==> x in t
    ensures Filter(s, t) == s
    decreases |s|
  {
    if |s| > 0 {
      FilterKeepsAll(s[..|s| - 1], t);
      assert s == s[..|s| - 1] + [s[|s| - 1]];
    }
  }

  lemma FilterDropsAll(s: seq<string>, t: set<string>)
    requires forall x :: x in s ==> x !in t
    ensures Filter(s, t) == []
  {
    FilterMembers(s, t);
  }

  /** In a list without repeats, keeping the members of a prefix keeps exactly that prefix. */
  lemma FilterPrefix(a: seq<string>, b: seq<string>, t: set<string>)
    requires Distinct(a + b)
    requires t == Elems(a)
    ensures Filter(a + b, t) == a
  {
    FilterConcat(a, b, t);
    FilterKeepsAll(a, t);
    forall x | x in b ensures x !in t {
      var j :| 0 <= j < |b| && b[j] == x;
      forall i | 0 <= i < |a| ensures a[i] != x {
        assert (a + b)[i] != (a + b)[|a| + j];
      }
    }
    FilterDropsAll(b, t);
  }
}
