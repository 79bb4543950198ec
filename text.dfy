/** String helpers of src/Graph.cpp: `trim` and the digit strings that `stoi`
    reads.  Strings are sequences of characters; the only blank that `trim`
    knows is the space character ' '. */
module Text {

  predicate AllSpaces(s: string) {
    forall k | 0 <= k < |s| :: s[k] == ' '
  }

  /** A string that starts and ends with something other than a space. */
  predicate NoOuterSpaces(s: string) {
    s == [] || (s[0] != ' ' && s[|s| - 1] != ' ')
  }

  /** `s` without its leading spaces: a suffix of `s` preceded by spaces only. */
  function DropLeadingSpaces(s: string): string {
    if |s| > 0 && s[0] == ' ' then DropLeadingSpaces(s[1..]) else s
  }

  /** `s` without its trailing spaces: a prefix of `s` followed by spaces only. */
  function DropTrailingSpaces(s: string): string {
    if |s| > 0 && s[|s| - 1] == ' ' then DropTrailingSpaces(s[..|s| - 1]) else s
  }

  lemma {:induction false} DropLeadingShape(s: string)
    ensures |DropLeadingSpaces(s)| <= |s|
    ensures DropLeadingSpaces(s) == s[|s| - |DropLeadingSpaces(s)|..]
    ensures AllSpaces(s[..|s| - |DropLeadingSpaces(s)|])
    ensures DropLeadingSpaces(s) == [] || DropLeadingSpaces(s)[0] != ' '
  {
    if |s| > 0 && s[0] == ' ' {
      DropLeadingShape(s[1..]);
      var r := DropLeadingSpaces(s);
      assert s[..|s| - |r|] == [' '] + s[1..][..|s| - 1 - |r|];
    }
  }

  lemma {:induction false} DropTrailingShape(s: string)
    ensures |DropTrailingSpaces(s)| <= |s|
    ensures DropTrailingSpaces(s) == s[..|DropTrailingSpaces(s)|]
    ensures AllSpaces(s[|DropTrailingSpaces(s)|..])
    ensures DropTrailingSpaces(s) == [] || DropTrailingSpaces(s)[|DropTrailingSpaces(s)| - 1] != ' '
  {
    if |s| > 0 && s[|s| - 1] == ' ' {
      var s' := s[..|s| - 1];
      DropTrailingShape(s');
      var r := DropTrailingSpaces(s);
      assert s[|r|..] == s'[|r|..] + [' '];
    }
  }

  /** What `trim` leaves of `s` (src/Graph.cpp:7-12). */
  function Trimmed(s: string): string {
    DropTrailingSpaces(DropLeadingSpaces(s))
  }

  /** `trim` erases the leading spaces (up to find_first_not_of(" "), or all of
      the string when there is none) and then everything after the last
      character that is not a space. */
  method Trim(s: string) returns (r: string)
    ensures r == Trimmed(s)
  {
    r := s;
    if |r| > 0 {
      var first := 0;
      while first < |r| && r[first] == ' '
        invariant 0 <= first <= |r|
        invariant DropLeadingSpaces(r[first..]) == DropLeadingSpaces(s)
      {
        assert r[first..][1..] == r[first + 1..];
        first := first + 1;
      }
      r := r[first..];
      assert DropLeadingSpaces(r) == r;
      ghost var lead := r;
      var end := |r|;
      assert r[..end] == r;
      while end > 0 && r[end - 1] == ' '
        invariant 0 <= end <= |r|
        invariant DropTrailingSpaces(r[..end]) == DropTrailingSpaces(lead)
      {
        assert r[..end][..end - 1] == r[..end - 1];
        end := end - 1;
      }
      r := r[..end];
    }
  }

  lemma {:induction false} DropLeadingOfSpaced(p: string, m: string)
    requires AllSpaces(p)
    requires m == [] || m[0] != ' '
    ensures DropLeadingSpaces(p + m) == m
  {
    if p != [] {
      assert (p + m)[1..] == p[1..] + m;
      DropLeadingOfSpaced(p[1..], m);
    }
  }

  lemma {:induction false} DropTrailingOfSpaced(m: string, q: string)
    requires AllSpaces(q)
    requires m == [] || m[|m| - 1] != ' '
    ensures DropTrailingSpaces(m + q) == m
  {
    if q != [] {
      assert (m + q)[..|m + q| - 1] == m + q[..|q| - 1];
      DropTrailingOfSpaced(m, q[..|q| - 1]);
    }
  }

  /** `trim` keeps a contiguous piece of its argument, removes exactly the
      spaces that surround it, and what it keeps neither starts nor ends with a
      space. */
  lemma TrimmedShape(s: string)
    ensures NoOuterSpaces(Trimmed(s))
    ensures exists i, j :: 0 <= i <= j <= |s| && Trimmed(s) == s[i..j]
                           && AllSpaces(s[..i]) && AllSpaces(s[j..])
  {
    var l := DropLeadingSpaces(s);
    var r := DropTrailingSpaces(l);
    DropLeadingShape(s);
    DropTrailingShape(l);
    var i := |s| - |l|;
    var j := i + |r|;
    assert l == s[i..];
    assert r == l[..|r|] == s[i..j];
    assert l[|r|..] == s[j..];
    if r != [] {
      assert r[0] == l[0];
    }
  }

  /** `trim` is determined by its shape: splitting `s` into spaces, a part with
      no outer spaces, and spaces, `trim` returns that middle part. */
  lemma TrimmedOfPadded(p: string, m: string, q: string)
    requires AllSpaces(p) && AllSpaces(q) && NoOuterSpaces(m)
    ensures Trimmed(p + m + q) == m
  {
    if m == [] {
      assert p + m + q == p + q;
      assert AllSpaces(p + q);
      DropLeadingOfSpaced(p + q, []);
      assert p + q + [] == p + q;
      assert DropLeadingSpaces(p + q) == [];
    } else {
      assert p + m + q == p + (m + q);
      DropLeadingOfSpaced(p, m + q);
      DropTrailingOfSpaced(m, q);
    }
  }

  /** Trimming twice is trimming once; a string of spaces trims to "". */
  lemma TrimIdempotent(s: string)
    ensures Trimmed(Trimmed(s)) == Trimmed(s)
    ensures AllSpaces(s) ==> Trimmed(s) == []
  {
    TrimmedShape(s);
    TrimmedOfPadded([], Trimmed(s), []);
    assert [] + Trimmed(s) + [] == Trimmed(s);
    if AllSpaces(s) {
      TrimmedOfPadded(s, [], []);
      assert s + [] + [] == s;
    }
  }

  // ------------------------------------------------------------------
  // Digit strings: the arguments that `stoi` is applied to.

  predicate IsDigit(c: char) {
    '0' <= c <= '9'
  }

  predicate IsDigits(s: string) {
    |s| > 0 && forall k | 0 <= k < |s| :: IsDigit(s[k])
  }

  function DigitChar(n: nat): (c: char)
    requires n < 10
    ensures IsDigit(c) && c as int - '0' as int == n
  {
    ['0', '1', '2', '3', '4', '5', '6', '7', '8', '9'][n]
  }

  /** The value of a decimal digit string, most significant digit first
      (`stoi` on a string of digits; leading zeros are allowed). */
  function ParseNat(s: string): nat
    requires IsDigits(s)
  {
    var last := s[|s| - 1] as int - '0' as int;
    if |s| == 1 then last else 10 * ParseNat(s[..|s| - 1]) + last
  }

  /** Decimal rendering of a natural number, without leading zeros. */
  function NatToString(n: nat): (s: string)
    ensures IsDigits(s)
    ensures NoOuterSpaces(s)
  {
    if n < 10 then [DigitChar(n)] else NatToString(n / 10) + [DigitChar(n % 10)]
  }

  /** `stoi` reads back every number that NatToString writes. */
  lemma {:induction false} ParseNatToString(n: nat)
    ensures ParseNat(NatToString(n)) == n
  {
    if n >= 10 {
      var s := NatToString(n);
      assert s[..|s| - 1] == NatToString(n / 10);
      ParseNatToString(n / 10);
    }
  }
}
