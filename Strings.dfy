/** The Option type used wherever the Java code passes or returns `null`. */
module Optional {
  datatype Option<+T> = None | Some(value: T)
}

/**
 * The few `java.lang.String` operations the processors rely on, over
 * strings modelled as sequences of characters.
 */
module Strings {

  /** `s` has `p` at position `i`. */
  predicate HasPrefixAt(s: string, i: nat, p: string) {
    i + |p| <= |s| && s[i..i + |p|] == p
  }

  /** `String.contains`: `p` occurs somewhere in `s`. */
  predicate Contains(s: string, p: string)
    decreases |s|
  {
    |p| <= |s| && (s[..|p|] == p || Contains(s[1..], p))
  }

  lemma {:induction false} ContainsAt(s: string, p: string, i: nat)
    requires HasPrefixAt(s, i, p)
    ensures Contains(s, p)
    decreases i
  {
    if i > 0 {
      assert s[1..][i - 1..i - 1 + |p|] == s[i..i + |p|];
      ContainsAt(s[1..], p, i - 1);
    }
  }

  /** The occurrence `Contains` promises, at the leftmost position. */
  lemma {:induction false} ContainsWitness(s: string, p: string) returns (i: nat)
    requires Contains(s, p)
    ensures HasPrefixAt(s, i, p)
    ensures forall k :: 0 <= k < i ==> !HasPrefixAt(s, k, p)
    decreases |s|
  {
    if s[..|p|] == p {
      i := 0;
    } else {
      var j := ContainsWitness(s[1..], p);
      assert s[1..][j..j + |p|] == s[j + 1..j + 1 + |p|];
      forall k | 0 <= k < j + 1 ensures !HasPrefixAt(s, k, p) {
        if k > 0 {
          assert !HasPrefixAt(s[1..], k - 1, p);
          if k + |p| <= |s| {
            assert s[1..][k - 1..k - 1 + |p|] == s[k..k + |p|];
          }
        } else {
          assert s[0..|p|] == s[..|p|];
        }
      }
      i := j + 1;
    }
  }

  /** A string containing `q`, where `q` contains `p`, contains `p`. */
  lemma ContainsTransitive(s: string, q: string, p: string)
    requires Contains(s, q) && Contains(q, p)
    ensures Contains(s, p)
  {
    var i := ContainsWitness(s, q);
    var j := ContainsWitness(q, p);
    assert s[i..i + |q|] == q;
    assert j + |p| <= |q|;
    assert i + j + |p| <= |s|;
    forall k | i <= k < i + |q| ensures s[k] == q[k - i] {
      assert s[i..i + |q|][k - i] == s[k];
    }
    assert s[i + j..i + j + |p|] == q[j..j + |p|];
    ContainsAt(s, p, i + j);
  }

  /** `String.indexOf(char)`: the first index of `c` in `s`, or -1. */
  function IndexOf(s: string, c: char): (r: int)
    ensures -1 <= r < |s|
    ensures r == -1 <==> c !in s
    ensures r >= 0 ==> s[r] == c && c !in s[..r]
  {
    if s == [] then -1
    else if s[0] == c then 0
    else
      var r := IndexOf(s[1..], c);
      assert s[1..][..if r < 0 then 0 else r] == s[1..if r < 0 then 1 else r + 1];
      if r == -1 then -1 else r + 1
  }

  /** `\s` in a Java regex: space, tab, newline, vertical tab, form feed, carriage return. */
  predicate IsRegexSpace(c: char) {
    c == ' ' || c == '\t' || c == '\n' || c == '\U{000B}' || c == '\U{000C}' || c == '\r'
  }

  /** Line terminators, the characters `.` does not match in a Java regex. */
  predicate IsLineTerminator(c: char) {
    c == '\n' || c == '\r' || c == '\U{0085}' || c == '\U{2028}' || c == '\U{2029}'
  }

  /** Characters `String.trim` strips: everything up to and including U+0020. */
  predicate IsBlank(c: char) {
    c <= ' '
  }

  predicate AllBlank(s: string) {
    forall k :: 0 <= k < |s| ==> IsBlank(s[k])
  }

  /** Java's first `trim` loop: the first non-blank position at or after `i`, or `|s|`. */
  function TrimStart(s: string, i: nat): (r: nat)
    requires i <= |s|
    ensures i <= r <= |s|
    decreases |s| - i
  {
    if i < |s| && IsBlank(s[i]) then TrimStart(s, i + 1) else i
  }

  /** Java's second `trim` loop: the end after the last non-blank in `s[st..j]`, or `st`. */
  function TrimEnd(s: string, st: nat, j: nat): (r: nat)
    requires st <= j <= |s|
    ensures st <= r <= j
    decreases j
  {
    if st < j && IsBlank(s[j - 1]) then TrimEnd(s, st, j - 1) else j
  }

  /** `TrimStart` skips blanks only, and stops at a non-blank or the end. */
  lemma {:induction false} TrimStartSpec(s: string, i: nat)
    requires i <= |s|
    ensures forall k :: i <= k < TrimStart(s, i) ==> IsBlank(s[k])
    ensures TrimStart(s, i) < |s| ==> !IsBlank(s[TrimStart(s, i)])
    decreases |s| - i
  {
    if i < |s| && IsBlank(s[i]) {
      TrimStartSpec(s, i + 1);
    }
  }

  /** `TrimEnd` drops blanks only, and stops after a non-blank or at `st`. */
  lemma {:induction false} TrimEndSpec(s: string, st: nat, j: nat)
    requires st <= j <= |s|
    ensures forall k :: TrimEnd(s, st, j) <= k < j ==> IsBlank(s[k])
    ensures st < TrimEnd(s, st, j) ==> !IsBlank(s[TrimEnd(s, st, j) - 1])
    decreases j
  {
    if st < j && IsBlank(s[j - 1]) {
      TrimEndSpec(s, st, j - 1);
    }
  }

  /** `String.trim`: drop the leading blanks, then the trailing blanks of what is left. */
  function Trim(s: string): (r: string) {
    var st := TrimStart(s, 0);
    s[st..TrimEnd(s, st, |s|)]
  }

  /**
   * `Trim(s)` is the longest infix of `s` that neither starts nor ends with
   * a blank; only blanks are removed around it.
   */
  lemma TrimSpec(s: string)
    ensures exists i :: 0 <= i <= |s| - |Trim(s)| && Trim(s) == s[i..i + |Trim(s)|] && AllBlank(s[..i]) && AllBlank(s[i + |Trim(s)|..])
    ensures Trim(s) == [] || (!IsBlank(Trim(s)[0]) && !IsBlank(Trim(s)[|Trim(s)| - 1]))
    ensures Trim(s) == [] <==> AllBlank(s)
  {
    var st := TrimStart(s, 0);
    var en := TrimEnd(s, st, |s|);
    TrimStartSpec(s, 0);
    TrimEndSpec(s, st, |s|);
    var r := Trim(s);
    assert r == s[st..en];
    assert AllBlank(s[..st]);
    assert AllBlank(s[st + |r|..]);
    if st == |s| {
      assert s[..st] == s;
    } else {
      assert st < en;
      assert r[0] == s[st] && r[|r| - 1] == s[en - 1];
      assert !AllBlank(s) by { assert !IsBlank(s[st]); }
    }
  }

  /** A string that neither starts nor ends with a blank is its own trim. */
  lemma TrimUnpadded(s: string)
    requires s == [] || (!IsBlank(s[0]) && !IsBlank(s[|s| - 1]))
    ensures Trim(s) == s
  {
    if s != [] {
      assert TrimStart(s, 0) == 0;
      assert TrimEnd(s, 0, |s|) == |s|;
      assert s[0..|s|] == s;
    }
  }

  /** Trimming twice is trimming once. */
  lemma TrimIdempotent(s: string)
    ensures Trim(Trim(s)) == Trim(s)
  {
    TrimSpec(s);
    TrimUnpadded(Trim(s));
  }
}
