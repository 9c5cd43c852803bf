/** The matching of an edited list against the original one: common prefix, common suffix, and a
    longest common subsequence of what is left between them. */
module Alignment {

  datatype Pair = Pair(i: nat, j: nat)

  /** Beyond this many cells the middle is left unmatched. */
  const MAX_CELLS := 4_000_000

  function Prefix<T(==)>(a: seq<T>, b: seq<T>, k: nat): (h: nat)
    requires k <= |a| && k <= |b|
    ensures k <= h <= |a| && h <= |b|
    ensures forall i :: k <= i < h ==> a[i] == b[i]
    ensures h < |a| && h < |b| ==> a[h] != b[h]
    decreases |a| - k
  {
    if k < |a| && k < |b| && a[k] == b[k] then Prefix(a, b, k + 1) else k
  }

  predicate SameTail<T(==)>(a: seq<T>, b: seq<T>, k: nat)
    requires k <= |a| && k <= |b|
  {
    a[|a| - k..] == b[|b| - k..]
  }

  lemma TailGrows<T>(a: seq<T>, b: seq<T>, k: nat)
    requires k < |a| && k < |b| && SameTail(a, b, k) && a[|a| - 1 - k] == b[|b| - 1 - k]
    ensures SameTail(a, b, k + 1)
  {
    assert a[|a| - (k + 1)..] == [a[|a| - 1 - k]] + a[|a| - k..];
    assert b[|b| - (k + 1)..] == [b[|b| - 1 - k]] + b[|b| - k..];
  }

  function Suffix<T(==)>(a: seq<T>, b: seq<T>, head: nat, k: nat): (t: nat)
    requires head + k <= |a| && head + k <= |b| && SameTail(a, b, k)
    ensures head + t <= |a| && head + t <= |b| && SameTail(a, b, t)
    decreases |a| - k
  {
    if head + k < |a| && head + k < |b| && a[|a| - 1 - k] == b[|b| - 1 - k] then
      TailGrows(a, b, k);
      Suffix(a, b, head, k + 1)
    else k
  }

  /** The recurrence the table is filled by, for the windows `[i, n)` of `a` and `[j, m)` of `b`. */
  function Lcs<T(==)>(a: seq<T>, b: seq<T>, i: nat, n: nat, j: nat, m: nat): nat
    requires i <= n <= |a| && j <= m <= |b|
    decreases n - i + m - j
  {
    if i == n || j == m then 0
    else if a[i] == b[j] then 1 + Lcs(a, b, i + 1, n, j + 1, m)
    else
      var down, right := Lcs(a, b, i + 1, n, j, m), Lcs(a, b, i, n, j + 1, m);
      if down >= right then down else right
  }

  /** The pairs found on a walk from the near corner of the table, which takes a pair wherever the
      blocks are equal and otherwise goes to the larger neighbour. */
  function Walk<T(==)>(a: seq<T>, b: seq<T>, i: nat, n: nat, j: nat, m: nat): seq<Pair>
    requires i <= n <= |a| && j <= m <= |b|
    decreases n - i + m - j
  {
    if i == n || j == m then []
    else if a[i] == b[j] then [Pair(i, j)] + Walk(a, b, i + 1, n, j + 1, m)
    else if Lcs(a, b, i + 1, n, j, m) >= Lcs(a, b, i, n, j + 1, m) then Walk(a, b, i + 1, n, j, m)
    else Walk(a, b, i, n, j + 1, m)
  }

  function Diagonal(i: nat, j: nat, k: nat): (r: seq<Pair>)
    ensures |r| == k
  {
    seq(k, d requires 0 <= d < k => Pair(i + d, j + d))
  }

  predicate WithinCap(rows: nat, cols: nat) { rows * cols <= MAX_CELLS }

  /** The exact pairs of `align`. */
  function Pairs<T(==)>(a: seq<T>, b: seq<T>): seq<Pair> {
    var head := Prefix(a, b, 0);
    var tail := Suffix(a, b, head, 0);
    var n, m := |a| - tail, |b| - tail;
    Diagonal(0, 0, head)
    + (if WithinCap(n - head, m - head) then Walk(a, b, head, n, head, m) else [])
    + Diagonal(n, m, tail)
  }

  // ---------- What the pairs are ----------

  /** Strictly increasing in both coordinates, inside the windows, pairing only equal elements. */
  ghost predicate Matching<T>(a: seq<T>, b: seq<T>, ps: seq<Pair>, i: nat, n: nat, j: nat, m: nat)
    requires n <= |a| && m <= |b|
  {
    && (forall k :: 0 <= k < |ps| ==> i <= ps[k].i < n && j <= ps[k].j < m && a[ps[k].i] == b[ps[k].j])
    && (forall k, l :: 0 <= k < l < |ps| ==> ps[k].i < ps[l].i && ps[k].j < ps[l].j)
  }

  lemma MatchingAppend<T>(a: seq<T>, b: seq<T>, ps: seq<Pair>, qs: seq<Pair>,
                              i: nat, n: nat, j: nat, m: nat, n': nat, m': nat)
    requires i <= n <= n' <= |a| && j <= m <= m' <= |b|
    requires Matching(a, b, ps, i, n, j, m) && Matching(a, b, qs, n, n', m, m')
    ensures Matching(a, b, ps + qs, i, n', j, m')
  {
  }

  lemma MatchingWiden<T>(a: seq<T>, b: seq<T>, ps: seq<Pair>, i: nat, n: nat, j: nat, m: nat, i': nat, j': nat)
    requires i' <= i && n <= |a| && j' <= j && m <= |b| && Matching(a, b, ps, i, n, j, m)
    ensures Matching(a, b, ps, i', n, j', m)
  {
  }

  lemma {:induction false} WalkMatches<T>(a: seq<T>, b: seq<T>, i: nat, n: nat, j: nat, m: nat)
    requires i <= n <= |a| && j <= m <= |b|
    ensures Matching(a, b, Walk(a, b, i, n, j, m), i, n, j, m)
    ensures |Walk(a, b, i, n, j, m)| == Lcs(a, b, i, n, j, m)
    decreases n - i + m - j
  {
    if i == n || j == m {
    } else if a[i] == b[j] {
      assert Matching(a, b, [Pair(i, j)], i, i + 1, j, j + 1);
      hide Matching;
      WalkMatches(a, b, i + 1, n, j + 1, m);
      MatchingAppend(a, b, [Pair(i, j)], Walk(a, b, i + 1, n, j + 1, m), i, i + 1, j, j + 1, n, m);
    } else {
      hide Matching;
      WalkMatches(a, b, i + 1, n, j, m);
      WalkMatches(a, b, i, n, j + 1, m);
      MatchingWiden(a, b, Walk(a, b, i + 1, n, j, m), i + 1, n, j, m, i, j);
      MatchingWiden(a, b, Walk(a, b, i, n, j + 1, m), i, n, j + 1, m, i, j);
    }
  }

  lemma DiagonalMatches<T>(a: seq<T>, b: seq<T>, i: nat, j: nat, k: nat)
    requires i + k <= |a| && j + k <= |b| && a[i..i + k] == b[j..j + k]
    ensures Matching(a, b, Diagonal(i, j, k), i, i + k, j, j + k)
  {
    var ps := Diagonal(i, j, k);
    forall l | 0 <= l < k ensures a[ps[l].i] == b[ps[l].j] {
      assert a[i..i + k][l] == b[j..j + k][l];
    }
  }

  lemma DiagonalStep(i: nat, j: nat, k: nat)
    ensures Diagonal(i, j, k + 1) == Diagonal(i, j, k) + [Pair(i + k, j + k)]
  {
  }

  /** The exact pairs form a matching of the whole lists. */
  lemma PairsMatch<T>(a: seq<T>, b: seq<T>)
    ensures Matching(a, b, Pairs(a, b), 0, |a|, 0, |b|)
  {
    hide Prefix, Suffix, Walk, Lcs, WithinCap, Matching, Diagonal;
    var head := Prefix(a, b, 0);
    var tail := Suffix(a, b, head, 0);
    var n, m := |a| - tail, |b| - tail;
    WalkMatches(a, b, head, n, head, m);
    var middle := if WithinCap(n - head, m - head) then Walk(a, b, head, n, head, m) else [];
    DiagonalMatches(a, b, 0, 0, head);
    DiagonalMatches(a, b, n, m, tail);
    MatchingAppend(a, b, Diagonal(0, 0, head), middle, 0, head, 0, head, n, m);
    MatchingAppend(a, b, Diagonal(0, 0, head) + middle, Diagonal(n, m, tail), 0, n, 0, m, |a|, |b|);
  }

  // ---------- No matching is longer ----------

  lemma {:induction false} LcsBounds<T>(a: seq<T>, b: seq<T>, ps: seq<Pair>, i: nat, n: nat, j: nat, m: nat)
    requires i <= n <= |a| && j <= m <= |b| && Matching(a, b, ps, i, n, j, m)
    ensures |ps| <= Lcs(a, b, i, n, j, m)
    decreases n - i + m - j
  {
    if ps == [] { return; }
    assert i <= ps[0].i < n && j <= ps[0].j < m;
    if a[i] == b[j] {
      if i < ps[0].i && j < ps[0].j {
        LcsBounds(a, b, ps, i + 1, n, j + 1, m);
      } else {
        LcsBounds(a, b, ps[1..], i + 1, n, j + 1, m);
      }
    } else if i < ps[0].i {
      LcsBounds(a, b, ps, i + 1, n, j, m);
    } else {
      LcsBounds(a, b, ps, i, n, j + 1, m);
    }
  }

  /** A common suffix costs a matching nothing. */
  lemma {:induction false} SuffixBounds<T>(a: seq<T>, b: seq<T>, ps: seq<Pair>, n: nat, m: nat, tail: nat)
    requires tail <= n <= |a| && tail <= m <= |b| && Matching(a, b, ps, 0, n, 0, m)
    ensures |ps| <= Lcs(a, b, 0, n - tail, 0, m - tail) + tail
    decreases tail
  {
    if tail == 0 {
      LcsBounds(a, b, ps, 0, n, 0, m);
    } else {
      var last := |ps| - 1;
      if ps == [] || (ps[last].i < n - 1 && ps[last].j < m - 1) {
        SuffixBounds(a, b, ps, n - 1, m - 1, tail - 1);
      } else {
        SuffixBounds(a, b, ps[..last], n - 1, m - 1, tail - 1);
      }
    }
  }

  lemma {:induction false} PrefixLcs<T>(a: seq<T>, b: seq<T>, k: nat, head: nat, n: nat, m: nat)
    requires k <= head <= n <= |a| && head <= m <= |b|
    requires forall i :: k <= i < head ==> a[i] == b[i]
    ensures Lcs(a, b, k, n, k, m) == head - k + Lcs(a, b, head, n, head, m)
    decreases head - k
  {
    if k < head { PrefixLcs(a, b, k + 1, head, n, m); }
  }

  /** Within the cell cap no matching of the whole lists is longer than the exact pairs, so
      trimming the common prefix and suffix loses nothing. */
  lemma {:induction false} PairsOptimal<T>(a: seq<T>, b: seq<T>, ps: seq<Pair>)
    requires Matching(a, b, ps, 0, |a|, 0, |b|)
    requires var head := Prefix(a, b, 0);
             var tail := Suffix(a, b, head, 0);
             WithinCap(|a| - head - tail, |b| - head - tail)
    ensures |ps| <= |Pairs(a, b)| == Lcs(a, b, 0, |a|, 0, |b|)
  {
    hide Prefix, Suffix, Walk, Lcs, WithinCap, Matching;
    var head := Prefix(a, b, 0);
    var tail := Suffix(a, b, head, 0);
    var n, m := |a| - tail, |b| - tail;
    WalkMatches(a, b, head, n, head, m);
    PrefixLcs(a, b, 0, head, n, m);
    SuffixBounds(a, b, ps, |a|, |b|, tail);
    PairsMatch(a, b);
    LcsBounds(a, b, Pairs(a, b), 0, |a|, 0, |b|);
    WalkMatches(a, b, 0, |a|, 0, |b|);
    SuffixBounds(a, b, Walk(a, b, 0, |a|, 0, |b|), |a|, |b|, tail);
  }

  // ---------- The table ----------

  /** The pairs, found as the source finds them: two trimming loops, a table filled from its far
      corner, and one walk through it. */
  method FindPairs<T(==)>(a: seq<T>, b: seq<T>) returns (pairs: seq<Pair>)
    ensures pairs == Pairs(a, b)
  {
    hide Prefix, Suffix, Walk, Lcs, WithinCap, Diagonal;
    var head;
    head, pairs := CommonPrefix(a, b);
    var tail := CommonSuffix(a, b, head);
    var n, m := |a| - tail, |b| - tail;
    var middle := [];
    if WithinCap(n - head, m - head) {
      var table := FillTable(a, b, head, n, head, m);
      middle := WalkTable(a, b, head, n, head, m, table);
    }
    pairs := pairs + middle;
    ghost var before := pairs;
    assert before == Diagonal(0, 0, head) + middle;
    assert before + Diagonal(n, m, 0) == before;
    var k := 0;
    while k < tail
      invariant k <= tail && pairs == before + Diagonal(n, m, k)
    {
      DiagonalStep(n, m, k);
      assert before + (Diagonal(n, m, k) + [Pair(n + k, m + k)])
          == (before + Diagonal(n, m, k)) + [Pair(n + k, m + k)];
      pairs := pairs + [Pair(n + k, m + k)];
      k := k + 1;
    }
  }

  method CommonPrefix<T(==)>(a: seq<T>, b: seq<T>) returns (head: nat, pairs: seq<Pair>)
    ensures head == Prefix(a, b, 0) && pairs == Diagonal(0, 0, head)
  {
    hide Diagonal;
    head, pairs := 0, [];
    assert Diagonal(0, 0, 0) == [];
    while head < |a| && head < |b| && a[head] == b[head]
      invariant head <= |a| && head <= |b| && Prefix(a, b, 0) == Prefix(a, b, head)
      invariant pairs == Diagonal(0, 0, head)
    {
      DiagonalStep(0, 0, head);
      pairs := pairs + [Pair(head, head)];
      head := head + 1;
    }
  }

  method CommonSuffix<T(==)>(a: seq<T>, b: seq<T>, head: nat) returns (tail: nat)
    requires head <= |a| && head <= |b|
    ensures tail == Suffix(a, b, head, 0)
  {
    tail := 0;
    assert SameTail(a, b, 0);
    while tail < |a| - head && tail < |b| - head && a[|a| - 1 - tail] == b[|b| - 1 - tail]
      invariant head + tail <= |a| && head + tail <= |b| && SameTail(a, b, tail)
      invariant Suffix(a, b, head, 0) == Suffix(a, b, head, tail)
    {
      TailGrows(a, b, tail);
      tail := tail + 1;
    }
  }

  /** Every cell holds the length for the suffixes that start there. */
  ghost predicate Filled<T>(a: seq<T>, b: seq<T>, i: nat, n: nat, j: nat, m: nat, table: array2<nat>)
    requires i <= n <= |a| && j <= m <= |b|
    reads table
  {
    && table.Length0 == n - i + 1 && table.Length1 == m - j + 1
    && forall r, c :: 0 <= r <= n - i && 0 <= c <= m - j ==> table[r, c] == Lcs(a, b, i + r, n, j + c, m)
  }

  method FillTable<T(==)>(a: seq<T>, b: seq<T>, i: nat, n: nat, j: nat, m: nat) returns (table: array2<nat>)
    requires i <= n <= |a| && j <= m <= |b|
    ensures fresh(table) && Filled(a, b, i, n, j, m, table)
  {
    var rows: nat, cols: nat := n - i, m - j;
    table := new nat[rows + 1, cols + 1]((r, c) => 0);
    var r: nat := rows;
    while r > 0
      invariant r <= rows && table.Length0 == rows + 1 && table.Length1 == cols + 1
      invariant forall p, q :: r <= p <= rows && 0 <= q <= cols ==> table[p, q] == Lcs(a, b, i + p, n, j + q, m)
      invariant forall p :: 0 <= p <= rows ==> table[p, cols] == 0
    {
      r := r - 1;
      var c: nat := cols;
      while c > 0
        invariant c <= cols
        invariant forall p, q :: r < p <= rows && 0 <= q <= cols ==> table[p, q] == Lcs(a, b, i + p, n, j + q, m)
        invariant forall q :: c <= q <= cols ==> table[r, q] == Lcs(a, b, i + r, n, j + q, m)
        invariant forall p :: 0 <= p <= rows ==> table[p, cols] == 0
      {
        c := c - 1;
        table[r, c] :=
          if a[i + r] == b[j + c] then table[r + 1, c + 1] + 1
          else if table[r + 1, c] >= table[r, c + 1] then table[r + 1, c] else table[r, c + 1];
      }
    }
  }

  method WalkTable<T(==)>(a: seq<T>, b: seq<T>, i: nat, n: nat, j: nat, m: nat, table: array2<nat>)
    returns (pairs: seq<Pair>)
    requires i <= n <= |a| && j <= m <= |b| && Filled(a, b, i, n, j, m, table)
    ensures pairs == Walk(a, b, i, n, j, m)
  {
    pairs := [];
    var r, c := 0, 0;
    while r < n - i && c < m - j
      invariant r <= n - i && c <= m - j
      invariant pairs + Walk(a, b, i + r, n, j + c, m) == Walk(a, b, i, n, j, m)
      decreases n - i - r + m - j - c
    {
      if a[i + r] == b[j + c] {
        pairs := pairs + [Pair(i + r, j + c)];
        r, c := r + 1, c + 1;
      } else if table[r + 1, c] >= table[r, c + 1] {
        r := r + 1;
      } else {
        c := c + 1;
      }
    }
  }
}
