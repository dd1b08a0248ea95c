/** The few string operations the contact view relies on: JavaScript's
    String.prototype.trim, toLowerCase (restricted to ASCII) and includes. */
module Text {

  /** The code points JavaScript's trim() strips and the regular-expression
      class \s matches: WhiteSpace and LineTerminator of ECMAScript
      (sections 12.2 and 12.3 of ECMA-262). */
  predicate IsSpace(c: char) {
    var n := c as int;
    n == 0x09 || n == 0x0A || n == 0x0B || n == 0x0C || n == 0x0D || n == 0x20 ||
    n == 0xA0 || n == 0x1680 || (0x2000 <= n <= 0x200A) || n == 0x2028 ||
    n == 0x2029 || n == 0x202F || n == 0x205F || n == 0x3000 || n == 0xFEFF
  }

  predicate AllSpace(s: string) {
    forall i :: 0 <= i < |s| ==> IsSpace(s[i])
  }

  /** Number of leading white-space characters. */
  function Lead(s: string): (n: nat)
    ensures n <= |s|
    ensures AllSpace(s[..n])
    ensures n < |s| ==> !IsSpace(s[n])
  {
    if |s| > 0 && IsSpace(s[0]) then
      var k := Lead(s[1..]);
      assert s[..k + 1] == [s[0]] + s[1..][..k];
      k + 1
    else 0
  }

  /** Number of trailing white-space characters. */
  function Trail(s: string): (n: nat)
    ensures n <= |s|
    ensures forall i :: |s| - n <= i < |s| ==> IsSpace(s[i])
    ensures n < |s| ==> !IsSpace(s[|s| - 1 - n])
  {
    if |s| > 0 && IsSpace(s[|s| - 1]) then
      var t := s[..|s| - 1];
      var k := Trail(t);
      assert forall i :: |s| - 1 - k <= i < |s| - 1 ==> s[i] == t[i];
      k + 1
    else 0
  }

  /** String.prototype.trim: the infix that starts and ends with a
      non-space character, or "" when every character is white space. */
  function Trim(s: string): (r: string)
    ensures |r| <= |s|
    ensures r == "" <==> AllSpace(s)
    ensures r != "" ==> !IsSpace(r[0]) && !IsSpace(r[|r| - 1])
    ensures exists i :: 0 <= i <= |s| - |r| && r == s[i..i + |r|] && AllSpace(s[..i]) && AllSpace(s[i + |r|..])
  {
    var i := Lead(s);
    if i == |s| then
      assert s[..i] == s;
      assert s[0..0] == "" && s[..0] == "" && AllSpace(s[0..]);
      ""
    else
      var j := |s| - Trail(s);
      assert i < j by {
        assert !IsSpace(s[i]);
      }
      assert !AllSpace(s) by {
        assert !IsSpace(s[i]);
      }
      var r := s[i..j];
      assert r == s[i..i + |r|];
      assert AllSpace(s[j..]) by {
        forall m | 0 <= m < |s| - j ensures IsSpace(s[j..][m]) {
          assert s[j..][m] == s[j + m];
        }
      }
      r
  }

  /** ASCII case mapping; characters outside A-Z are returned unchanged. */
  function LowerChar(c: char): char {
    if 'A' <= c <= 'Z' then (c as int + 32) as char else c
  }

  /** String.prototype.toLowerCase, restricted to ASCII letters. */
  function Lower(s: string): (r: string)
    ensures |r| == |s|
    ensures forall i :: 0 <= i < |s| ==> r[i] == LowerChar(s[i])
  {
    seq(|s|, i requires 0 <= i < |s| => LowerChar(s[i]))
  }

  /** String.prototype.includes: k occurs in s as a contiguous block. */
  predicate Includes(s: string, k: string)
    decreases |s|
  {
    k <= s || (|s| > 0 && Includes(s[1..], k))
  }

  /** k occurs in s starting at offset i. */
  predicate OccursAt(s: string, k: string, i: int) {
    0 <= i <= |s| - |k| && k <= s[i..]
  }

  /** An occurrence in the tail of s is an occurrence in s, one place on. */
  lemma OccursInTail(s: string, k: string, i: nat)
    requires |s| > 0
    ensures OccursAt(s[1..], k, i) <==> OccursAt(s, k, i + 1)
  {
    if i <= |s| - 1 {
      assert s[1..][i..] == s[i + 1..];
    }
  }

  /** includes holds exactly when k occurs at some offset of s. */
  lemma {:induction false} IncludesAt(s: string, k: string)
    ensures Includes(s, k) <==> exists i :: OccursAt(s, k, i)
  {
    if k <= s {
      assert s[0..] == s;
      assert OccursAt(s, k, 0);
    } else if |s| > 0 {
      IncludesAt(s[1..], k);
      if i :| OccursAt(s, k, i) {
        assert i != 0;
        OccursInTail(s, k, i - 1);
      }
      if i :| OccursAt(s[1..], k, i) {
        OccursInTail(s, k, i);
      }
    } else {
      assert forall i :: !OccursAt(s, k, i);
    }
  }

  predicate Digits(s: string) {
    forall i :: 0 <= i < |s| ==> '0' <= s[i] <= '9'
  }

  /** The number a run of decimal digits denotes, most significant first. */
  function DigitsValue(s: string): nat
    requires Digits(s)
  {
    if s == [] then 0 else DigitsValue(s[..|s| - 1]) * 10 + (s[|s| - 1] as int - '0' as int)
  }

  /** Decimal rendering of a natural number, as JavaScript's template
      literals write it: the digits that denote n, with no leading zero. */
  function Decimal(n: nat): (r: string)
    ensures |r| > 0 && Digits(r)
    ensures DigitsValue(r) == n
    ensures |r| > 1 ==> r[0] != '0'
  {
    var d := ('0' as int + n % 10) as char;
    if n < 10 then
      assert [d][..0] == [];
      [d]
    else
      var t := Decimal(n / 10);
      assert (t + [d])[..|t|] == t;
      assert |t| == 1 ==> t[..0] == [];
      t + [d]
  }
}
