/**
 * The visiting order of the nested loops `for i in 0..n { for j in i + 1..n { ... } }` shared by
 * every bond classifier, and the outputs such a loop accumulates: the subsequence of the pairs
 * that pass a test, and the set of type pairs of those pairs.
 */
module Pairs {
  /** An atom-index pair (i, j). */
  type Pair = (nat, nat)

  // ---- Enumeration order of the pairs ----

  /** Lexicographic order on pairs. */
  predicate Before(p: Pair, q: Pair)
  {
    p.0 < q.0 || (p.0 == q.0 && p.1 < q.1)
  }

  /** Strictly increasing in lexicographic order (so in particular free of duplicates). */
  ghost predicate StrictlyOrdered(ps: seq<Pair>)
  {
    forall a, b :: 0 <= a < b < |ps| ==> Before(ps[a], ps[b])
  }

  /** Pairs (i, k) for lo <= k < hi: the inner loop `for j in lo..hi`. */
  function Row(i: nat, lo: nat, hi: nat): seq<Pair>
    decreases hi
  {
    if hi <= lo then [] else Row(i, lo, hi - 1) + [(i, hi - 1)]
  }

  /** The rows of the outer loop for 0 <= r < i. */
  function PairsBefore(i: nat, n: nat): seq<Pair>
  {
    if i == 0 then [] else PairsBefore(i - 1, n) + Row(i - 1, i, n)
  }

  /** Every pair i < j < n, in the order the nested loops visit them. */
  function AllPairs(n: nat): seq<Pair>
  {
    PairsBefore(n, n)
  }

  lemma RowSnoc(i: nat, lo: nat, hi: nat)
    requires lo <= hi
    ensures Row(i, lo, hi + 1) == Row(i, lo, hi) + [(i, hi)]
  {
  }

  lemma RowStart(done: seq<Pair>, i: nat)
    ensures done + Row(i, i + 1, i + 1) == done
  {
  }

  lemma RowEnd(i: nat, n: nat)
    ensures PairsBefore(i + 1, n) == PairsBefore(i, n) + Row(i, i + 1, n)
  {
  }

  lemma ConcatSnoc(a: seq<Pair>, b: seq<Pair>, x: Pair)
    ensures a + (b + [x]) == (a + b) + [x]
  {
  }

  lemma {:induction false} RowShape(i: nat, lo: nat, hi: nat)
    ensures |Row(i, lo, hi)| == if hi <= lo then 0 else hi - lo
    ensures forall k :: 0 <= k < |Row(i, lo, hi)| ==> Row(i, lo, hi)[k] == (i, lo + k)
  {
    if lo < hi {
      RowShape(i, lo, hi - 1);
    }
  }

  /** The pairs of row i are (i, lo), ..., (i, hi - 1). */
  lemma RowMembers(i: nat, lo: nat, hi: nat)
    ensures forall p :: p in Row(i, lo, hi) <==> p.0 == i && lo <= p.1 < hi
  {
    RowShape(i, lo, hi);
    var row := Row(i, lo, hi);
    forall p | p in row ensures p.0 == i && lo <= p.1 < hi {
      var k :| 0 <= k < |row| && row[k] == p;
    }
    forall p: Pair | p.0 == i && lo <= p.1 < hi ensures p in row {
      assert row[p.1 - lo] == p;
    }
  }

  /** The rows before i hold exactly the pairs p.0 < i, p.0 < p.1 < n. */
  lemma {:induction false} PairsBeforeMembers(i: nat, n: nat)
    ensures forall p :: p in PairsBefore(i, n) <==> p.0 < i && p.0 < p.1 < n
  {
    if i > 0 {
      PairsBeforeMembers(i - 1, n);
      RowMembers(i - 1, i, n);
    }
  }

  /** Two ordered runs, every element of the first before every element of the second. */
  lemma ConcatOrdered(x: seq<Pair>, y: seq<Pair>)
    requires StrictlyOrdered(x) && StrictlyOrdered(y)
    requires forall p, q :: p in x && q in y ==> Before(p, q)
    ensures StrictlyOrdered(x + y)
  {
    var all := x + y;
    forall a, b | 0 <= a < b < |all| ensures Before(all[a], all[b]) {
      if b < |x| {
        assert all[a] == x[a] && all[b] == x[b];
      } else if a < |x| {
        assert all[a] == x[a] && all[b] == y[b - |x|];
        assert x[a] in x && y[b - |x|] in y;
      } else {
        assert all[a] == y[a - |x|] && all[b] == y[b - |x|];
      }
    }
  }

  /** A row is visited in strictly increasing order. */
  lemma {:induction false} RowOrdered(i: nat, lo: nat, hi: nat)
    ensures StrictlyOrdered(Row(i, lo, hi))
    decreases hi
  {
    if lo < hi {
      var front := Row(i, lo, hi - 1);
      RowOrdered(i, lo, hi - 1);
      RowMembers(i, lo, hi - 1);
      forall p, q | p in front && q in [(i, hi - 1)] ensures Before(p, q) {
      }
      ConcatOrdered(front, [(i, hi - 1)]);
    }
  }

  /** The rows before i are visited in strictly increasing order. */
  lemma {:induction false} PairsBeforeOrdered(i: nat, n: nat)
    ensures StrictlyOrdered(PairsBefore(i, n))
  {
    if i > 0 {
      var front, row := PairsBefore(i - 1, n), Row(i - 1, i, n);
      PairsBeforeOrdered(i - 1, n);
      PairsBeforeMembers(i - 1, n);
      RowOrdered(i - 1, i, n);
      RowMembers(i - 1, i, n);
      forall p, q | p in front && q in row ensures Before(p, q) {
      }
      ConcatOrdered(front, row);
      assert PairsBefore(i, n) == front + row;
    }
  }

  lemma AllPairsShape(n: nat)
    ensures StrictlyOrdered(AllPairs(n))
    ensures forall p :: p in AllPairs(n) <==> p.0 < p.1 < n
  {
    PairsBeforeOrdered(n, n);
    PairsBeforeMembers(n, n);
  }

  // ---- Selecting the pairs of one outcome ----

  /** The subsequence of ps whose elements pass `keep`, in order. */
  function Filter(ps: seq<Pair>, keep: Pair -> bool): seq<Pair>
  {
    if ps == [] then []
    else Filter(ps[..|ps| - 1], keep) + (if keep(ps[|ps| - 1]) then [ps[|ps| - 1]] else [])
  }

  lemma {:induction false} FilterMembership(ps: seq<Pair>, keep: Pair -> bool)
    ensures forall p :: p in Filter(ps, keep) <==> p in ps && keep(p)
  {
    if ps != [] {
      FilterMembership(ps[..|ps| - 1], keep);
      assert ps == ps[..|ps| - 1] + [ps[|ps| - 1]];
    }
  }

  lemma {:induction false} FilterOrdered(ps: seq<Pair>, keep: Pair -> bool)
    requires StrictlyOrdered(ps)
    ensures StrictlyOrdered(Filter(ps, keep))
  {
    if ps != [] {
      var front, last := ps[..|ps| - 1], ps[|ps| - 1];
      FilterOrdered(front, keep);
      FilterMembership(front, keep);
      var f := Filter(front, keep);
      forall a | 0 <= a < |f| ensures Before(f[a], last) {
        assert f[a] in front;
        var k :| 0 <= k < |front| && front[k] == f[a];
        assert ps[k] == f[a];
      }
    }
  }

  // ---- The type pairs of selected pairs ----

  /** The set of ordered type pairs (types[i], types[j]) over the pairs (i, j) of ps that pass keep. */
  function TypePairs(atomTypes: seq<string>, ps: seq<Pair>, keep: Pair -> bool): set<(string, string)>
  {
    if ps == [] then {}
    else
      var p := ps[|ps| - 1];
      TypePairs(atomTypes, ps[..|ps| - 1], keep) +
        (if keep(p) && p.0 < |atomTypes| && p.1 < |atomTypes| then {(atomTypes[p.0], atomTypes[p.1])} else {})
  }

  lemma {:induction false} TypePairsMembership(atomTypes: seq<string>, ps: seq<Pair>, keep: Pair -> bool, m: (string, string))
    ensures m in TypePairs(atomTypes, ps, keep) <==>
      exists p :: p in ps && keep(p) && p.0 < |atomTypes| && p.1 < |atomTypes| && m == (atomTypes[p.0], atomTypes[p.1])
  {
    if ps != [] {
      var front, last := ps[..|ps| - 1], ps[|ps| - 1];
      TypePairsMembership(atomTypes, front, keep, m);
      assert ps == front + [last];
    }
  }

  // ---- One step of the nested loops ----

  /** Visiting pair p after the pairs ps: the filtered list grows by p exactly when p passes keep. */
  lemma FilterSnoc(ps: seq<Pair>, p: Pair, keep: Pair -> bool)
    ensures Filter(ps + [p], keep) == Filter(ps, keep) + (if keep(p) then [p] else [])
  {
    assert (ps + [p])[..|ps|] == ps;
  }

  lemma TypePairsSnoc(atomTypes: seq<string>, ps: seq<Pair>, p: Pair, keep: Pair -> bool)
    ensures TypePairs(atomTypes, ps + [p], keep) == TypePairs(atomTypes, ps, keep) +
      (if keep(p) && p.0 < |atomTypes| && p.1 < |atomTypes| then {(atomTypes[p.0], atomTypes[p.1])} else {})
  {
    assert (ps + [p])[..|ps|] == ps;
  }

  /** The inner loop's step from (i, j) to (i, j + 1), in terms of the rows already visited. */
  lemma FilterAdvance(done: seq<Pair>, i: nat, j: nat, keep: Pair -> bool)
    requires i < j
    ensures Filter(done + Row(i, i + 1, j + 1), keep) ==
      Filter(done + Row(i, i + 1, j), keep) + (if keep((i, j)) then [(i, j)] else [])
  {
    RowSnoc(i, i + 1, j);
    ConcatSnoc(done, Row(i, i + 1, j), (i, j));
    FilterSnoc(done + Row(i, i + 1, j), (i, j), keep);
  }

  lemma TypePairsAdvance(atomTypes: seq<string>, done: seq<Pair>, i: nat, j: nat, keep: Pair -> bool)
    requires i < j < |atomTypes|
    ensures TypePairs(atomTypes, done + Row(i, i + 1, j + 1), keep) ==
      TypePairs(atomTypes, done + Row(i, i + 1, j), keep) +
        (if keep((i, j)) then {(atomTypes[i], atomTypes[j])} else {})
  {
    RowSnoc(i, i + 1, j);
    ConcatSnoc(done, Row(i, i + 1, j), (i, j));
    TypePairsSnoc(atomTypes, done + Row(i, i + 1, j), (i, j), keep);
  }
}
