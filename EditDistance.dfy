/**
 * The Levenshtein distance the financial adapter uses for fuzzy term
 * matching: a recursive definition over prefixes, and the dynamic
 * programme over a two-dimensional table that computes it.
 */
module EditDistance {

  /** Whether the `i`-th character of `s1` and the `j`-th of `s2` (1-based) differ. */
  function Cost(s1: string, s2: string, i: nat, j: nat): nat
    requires 0 < i <= |s1| && 0 < j <= |s2|
  {
    if s1[i - 1] == s2[j - 1] then 0 else 1
  }

  function Min3(a: nat, b: nat, c: nat): nat {
    var m := if a <= b then a else b;
    if m <= c then m else c
  }

  /**
   * The edit distance between the prefixes `s1[..i]` and `s2[..j]`: the
   * fewest single-character insertions, deletions and substitutions.
   */
  function Lev(s1: string, s2: string, i: nat, j: nat): nat
    requires i <= |s1| && j <= |s2|
    decreases i + j
  {
    if i == 0 then j
    else if j == 0 then i
    else Min3(Lev(s1, s2, i - 1, j) + 1, Lev(s1, s2, i, j - 1) + 1, Lev(s1, s2, i - 1, j - 1) + Cost(s1, s2, i, j))
  }

  lemma LevStep(s1: string, s2: string, i: nat, j: nat)
    requires 0 < i <= |s1| && 0 < j <= |s2|
    ensures Lev(s1, s2, i, j) == Min3(Lev(s1, s2, i - 1, j) + 1, Lev(s1, s2, i, j - 1) + 1,
                                      Lev(s1, s2, i - 1, j - 1) + if s1[i - 1] == s2[j - 1] then 0 else 1)
  {
  }

  /** The edit distance between two whole strings. */
  function Distance(s1: string, s2: string): nat {
    Lev(s1, s2, |s1|, |s2|)
  }

  /** The distance between prefixes differs from neither length by more than the other. */
  lemma {:induction false} LevLower(s1: string, s2: string, i: nat, j: nat)
    requires i <= |s1| && j <= |s2|
    ensures i - j <= Lev(s1, s2, i, j) && j - i <= Lev(s1, s2, i, j)
    decreases i + j
  {
    if i > 0 && j > 0 {
      LevStep(s1, s2, i, j);
      LevLower(s1, s2, i - 1, j);
      LevLower(s1, s2, i, j - 1);
      LevLower(s1, s2, i - 1, j - 1);
    }
  }

  lemma {:induction false} LevUpper(s1: string, s2: string, i: nat, j: nat)
    requires i <= |s1| && j <= |s2|
    ensures Lev(s1, s2, i, j) <= if i <= j then j else i
    decreases i + j
  {
    if i > 0 && j > 0 {
      LevStep(s1, s2, i, j);
      LevUpper(s1, s2, i - 1, j - 1);
    }
  }

  /** `|len1 - len2| <= d <= max(len1, len2)`. */
  lemma DistanceBounds(s1: string, s2: string)
    ensures |s1| - |s2| <= Distance(s1, s2) && |s2| - |s1| <= Distance(s1, s2)
    ensures Distance(s1, s2) <= if |s1| <= |s2| then |s2| else |s1|
  {
    LevLower(s1, s2, |s1|, |s2|);
    LevUpper(s1, s2, |s1|, |s2|);
  }

  /** Two instances of the recurrence with equal neighbours, the first two swapped, agree. */
  lemma Min3Swapped(l1: nat, a1: nat, b1: nat, c1: nat, k1: nat, l2: nat, a2: nat, b2: nat, c2: nat, k2: nat)
    requires l1 == Min3(a1 + 1, b1 + 1, c1 + k1) && l2 == Min3(b2 + 1, a2 + 1, c2 + k2)
    requires a1 == a2 && b1 == b2 && c1 == c2 && k1 == k2
    ensures l1 == l2
  {
  }

  /** One step of the symmetry induction: equal neighbours give equal distances. */
  lemma LevSymmetricStep(s1: string, s2: string, i: nat, j: nat)
    requires 0 < i <= |s1| && 0 < j <= |s2|
    requires Lev(s1, s2, i - 1, j) == Lev(s2, s1, j, i - 1)
    requires Lev(s1, s2, i, j - 1) == Lev(s2, s1, j - 1, i)
    requires Lev(s1, s2, i - 1, j - 1) == Lev(s2, s1, j - 1, i - 1)
    ensures Lev(s1, s2, i, j) == Lev(s2, s1, j, i)
  {
    LevStep(s1, s2, i, j);
    LevStep(s2, s1, j, i);
    Min3Swapped(Lev(s1, s2, i, j), Lev(s1, s2, i - 1, j), Lev(s1, s2, i, j - 1), Lev(s1, s2, i - 1, j - 1),
                if s1[i - 1] == s2[j - 1] then 0 else 1,
                Lev(s2, s1, j, i), Lev(s2, s1, j, i - 1), Lev(s2, s1, j - 1, i), Lev(s2, s1, j - 1, i - 1),
                if s2[j - 1] == s1[i - 1] then 0 else 1);
  }

  /** Swapping the two strings does not change the distance between prefixes up to total length `n`. */
  lemma {:induction false} LevSymmetric(s1: string, s2: string, n: nat)
    ensures forall i: nat, j: nat :: i <= |s1| && j <= |s2| && i + j <= n ==> Lev(s1, s2, i, j) == Lev(s2, s1, j, i)
  {
    if n > 0 {
      LevSymmetric(s1, s2, n - 1);
      forall i: nat, j: nat | i <= |s1| && j <= |s2| && i + j == n
        ensures Lev(s1, s2, i, j) == Lev(s2, s1, j, i)
      {
        if i > 0 && j > 0 {
          LevSymmetricStep(s1, s2, i, j);
        }
      }
    }
  }

  /** The edit distance is symmetric. */
  lemma DistanceSymmetric(s1: string, s2: string)
    ensures Distance(s1, s2) == Distance(s2, s1)
  {
    LevSymmetric(s1, s2, |s1| + |s2|);
  }

  /** Each of the three neighbours bounds the distance from above, and one of them attains it. */
  lemma LevCases(s1: string, s2: string, i: nat, j: nat)
    requires 0 < i <= |s1| && 0 < j <= |s2|
    ensures Lev(s1, s2, i, j) <= Lev(s1, s2, i - 1, j) + 1
    ensures Lev(s1, s2, i, j) <= Lev(s1, s2, i, j - 1) + 1
    ensures Lev(s1, s2, i, j) <= Lev(s1, s2, i - 1, j - 1) + if s1[i - 1] == s2[j - 1] then 0 else 1
    ensures || Lev(s1, s2, i, j) == Lev(s1, s2, i - 1, j) + 1
            || Lev(s1, s2, i, j) == Lev(s1, s2, i, j - 1) + 1
            || Lev(s1, s2, i, j) == Lev(s1, s2, i - 1, j - 1) + if s1[i - 1] == s2[j - 1] then 0 else 1
  {
    LevStep(s1, s2, i, j);
  }

  /**
   * The arithmetic of one triangle step. `x`, `y` and `z` are the distances a-b, b-c and a-c
   * at the current prefixes; the suffixes 10, 01 and 11 name the neighbours that drop the last
   * character of the first string, of the second string, or of both; `cab`, `cbc` and `cac`
   * are the substitution costs of the last characters. The six hypotheses are the triangle
   * inequality on the smaller prefixes.
   */
  lemma TriangleStep(x: nat, x10: nat, x01: nat, x11: nat, cab: nat,
                     y: nat, y10: nat, y01: nat, y11: nat, cbc: nat,
                     z: nat, z10: nat, z01: nat, z11: nat, cac: nat)
    requires x == x10 + 1 || x == x01 + 1 || x == x11 + cab
    requires y == y10 + 1 || y == y01 + 1 || y == y11 + cbc
    requires z <= z10 + 1 && z <= z01 + 1 && z <= z11 + cac
    requires cac <= cab + cbc
    requires z10 <= x10 + y && z01 <= x + y01 && z <= x01 + y10
    requires z01 <= x01 + y11 && z10 <= x11 + y10 && z11 <= x11 + y11
    ensures z <= x + y
  {
    if x == x10 + 1 {
      // delete the last character of a first
    } else if y == y01 + 1 {
      // insert the last character of c last
    } else if x == x01 + 1 {
      // the last character of b is inserted, then deleted or substituted
    } else if y == y10 + 1 {
      // the last character of a is substituted, then deleted
    } else {
      // two substitutions compose into at most one
    }
  }

  /** One step of the triangle inequality: it holds at `i`, `j`, `k` once it holds at the six smaller prefixes. */
  lemma LevTriangleStep(a: string, b: string, c: string, i: nat, j: nat, k: nat)
    requires 0 < i <= |a| && 0 < j <= |b| && 0 < k <= |c|
    requires Lev(a, c, i - 1, k) <= Lev(a, b, i - 1, j) + Lev(b, c, j, k)
    requires Lev(a, c, i, k - 1) <= Lev(a, b, i, j) + Lev(b, c, j, k - 1)
    requires Lev(a, c, i, k) <= Lev(a, b, i, j - 1) + Lev(b, c, j - 1, k)
    requires Lev(a, c, i, k - 1) <= Lev(a, b, i, j - 1) + Lev(b, c, j - 1, k - 1)
    requires Lev(a, c, i - 1, k) <= Lev(a, b, i - 1, j - 1) + Lev(b, c, j - 1, k)
    requires Lev(a, c, i - 1, k - 1) <= Lev(a, b, i - 1, j - 1) + Lev(b, c, j - 1, k - 1)
    ensures Lev(a, c, i, k) <= Lev(a, b, i, j) + Lev(b, c, j, k)
  {
    LevCases(a, b, i, j);
    LevCases(b, c, j, k);
    LevCases(a, c, i, k);
    TriangleStep(Lev(a, b, i, j), Lev(a, b, i - 1, j), Lev(a, b, i, j - 1), Lev(a, b, i - 1, j - 1),
                 if a[i - 1] == b[j - 1] then 0 else 1,
                 Lev(b, c, j, k), Lev(b, c, j - 1, k), Lev(b, c, j, k - 1), Lev(b, c, j - 1, k - 1),
                 if b[j - 1] == c[k - 1] then 0 else 1,
                 Lev(a, c, i, k), Lev(a, c, i - 1, k), Lev(a, c, i, k - 1), Lev(a, c, i - 1, k - 1),
                 if a[i - 1] == c[k - 1] then 0 else 1);
  }

  /** The triangle inequality, for all prefixes whose lengths add up to at most `n`. */
  lemma {:induction false} LevTriangle(a: string, b: string, c: string, n: nat)
    ensures forall i: nat, j: nat, k: nat :: i <= |a| && j <= |b| && k <= |c| && i + j + k <= n ==>
              Lev(a, c, i, k) <= Lev(a, b, i, j) + Lev(b, c, j, k)
  {
    if n > 0 {
      LevTriangle(a, b, c, n - 1);
    }
    forall i: nat, j: nat, k: nat | i <= |a| && j <= |b| && k <= |c| && i + j + k == n
      ensures Lev(a, c, i, k) <= Lev(a, b, i, j) + Lev(b, c, j, k)
    {
      if i == 0 {
        LevLower(b, c, j, k);
      } else if k == 0 {
        LevLower(a, b, i, j);
      } else if j == 0 {
        LevUpper(a, c, i, k);
      } else {
        LevTriangleStep(a, b, c, i, j, k);
      }
    }
  }

  /** The edit distance satisfies the triangle inequality. */
  lemma DistanceTriangle(a: string, b: string, c: string)
    ensures Distance(a, c) <= Distance(a, b) + Distance(b, c)
  {
    LevTriangle(a, b, c, |a| + |b| + |c|);
  }

  /** Equal prefixes are at distance zero. */
  lemma {:induction false} LevEqualPrefixes(s1: string, s2: string, i: nat)
    requires i <= |s1| && i <= |s2| && s1[..i] == s2[..i]
    ensures Lev(s1, s2, i, i) == 0
  {
    if i > 0 {
      assert s1[..i - 1] == s1[..i][..i - 1] && s2[..i - 1] == s2[..i][..i - 1];
      assert s1[i - 1] == s1[..i][i - 1];
      LevEqualPrefixes(s1, s2, i - 1);
    }
  }

  /** A string is at distance zero from itself. */
  lemma DistanceToSelf(s: string)
    ensures Distance(s, s) == 0
  {
    LevEqualPrefixes(s, s, |s|);
  }

  /** Deleting `k` extra characters costs at most `k`. */
  lemma {:induction false} LevExtra(s1: string, s2: string, i: nat, k: nat)
    requires i + k <= |s1| && i <= |s2|
    ensures Lev(s1, s2, i + k, i) <= Lev(s1, s2, i, i) + k
    decreases k
  {
    if k > 0 && i > 0 {
      LevExtra(s1, s2, i, k - 1);
    }
  }

  /** A string that starts with `t` is at most its surplus length away from `t`. */
  lemma DistanceFromExtension(w: string, t: string)
    requires |t| <= |w| && w[..|t|] == t
    ensures Distance(w, t) <= |w| - |t|
  {
    assert t[..|t|] == t;
    LevEqualPrefixes(w, t, |t|);
    LevExtra(w, t, |t|, |w| - |t|);
  }

  /** Row `i` of the table holds the distances from `s1[..i]` to every prefix of `s2`. */
  ghost predicate RowFilled(dp: array2<nat>, s1: string, s2: string, i: nat)
    requires i <= |s1| && dp.Length0 == |s1| + 1 && dp.Length1 == |s2| + 1
    reads dp
  {
    forall b {:trigger dp[i, b]} :: 0 <= b <= |s2| ==> dp[i, b] == Lev(s1, s2, i, b)
  }

  /** The inner loop of the table fill: row `i` from row `i - 1`. */
  method FillRow(dp: array2<nat>, s1: string, s2: string, i: nat)
    requires 0 < i <= |s1| && dp.Length0 == |s1| + 1 && dp.Length1 == |s2| + 1
    requires RowFilled(dp, s1, s2, i - 1) && dp[i, 0] == i
    modifies dp
    ensures RowFilled(dp, s1, s2, i)
    ensures forall a, b :: 0 <= a <= |s1| && a != i && 0 <= b <= |s2| ==> dp[a, b] == old(dp[a, b])
  {
    for j := 1 to |s2| + 1
      invariant RowFilled(dp, s1, s2, i - 1)
      invariant forall b {:trigger dp[i, b]} :: 0 <= b < j ==> dp[i, b] == Lev(s1, s2, i, b)
      invariant forall a, b :: 0 <= a <= |s1| && a != i && 0 <= b <= |s2| ==> dp[a, b] == old(dp[a, b])
    {
      var cost := if s1[i - 1] == s2[j - 1] then 0 else 1;
      var v := Min3(dp[i - 1, j] + 1, dp[i, j - 1] + 1, dp[i - 1, j - 1] + cost);
      LevStep(s1, s2, i, j);
      assert v == Lev(s1, s2, i, j);
      dp[i, j] := v;
    }
  }

  /** `calculateLevenshteinDistance`: the classic table fill, which computes `Distance`. */
  method LevenshteinDistance(s1: string, s2: string) returns (d: nat)
    ensures d == Distance(s1, s2)
  {
    var dp := new nat[|s1| + 1, |s2| + 1];
    for i := 0 to |s1| + 1
      invariant forall a :: 0 <= a < i ==> dp[a, 0] == a
    {
      dp[i, 0] := i;
    }
    for j := 0 to |s2| + 1
      invariant forall a :: 0 <= a <= |s1| ==> dp[a, 0] == a
      invariant forall b :: 0 <= b < j ==> dp[0, b] == b
    {
      dp[0, j] := j;
    }
    for i := 1 to |s1| + 1
      invariant RowFilled(dp, s1, s2, i - 1)
      invariant forall a :: i <= a <= |s1| ==> dp[a, 0] == a
    {
      FillRow(dp, s1, s2, i);
    }
    d := dp[|s1|, |s2|];
  }
}
