/** The string operations the modelled Python code relies on: searching, splitting,
    stripping, and decimal numerals. */
module Text {

  // ---------- searching ----------

  /** The first index of `c` at or after `from`, or -1. */
  function IndexOfFrom(s: string, c: char, from: nat): (i: int)
    requires from <= |s|
    ensures i == -1 || from <= i < |s|
    ensures i >= 0 ==> s[i] == c
    ensures forall k | from <= k < (if i < 0 then |s| else i) :: s[k] != c
    decreases |s| - from
  {
    if from == |s| then -1 else if s[from] == c then from else IndexOfFrom(s, c, from + 1)
  }

  /** `s.find(c)` */
  function IndexOf(s: string, c: char): int {
    IndexOfFrom(s, c, 0)
  }

  /** The last index of `c` before `to`, or -1. */
  function LastIndexBefore(s: string, c: char, to: nat): (i: int)
    requires to <= |s|
    ensures -1 <= i < to
    ensures i >= 0 ==> s[i] == c
    ensures forall k | i < k < to :: s[k] != c
  {
    if to == 0 then -1 else if s[to - 1] == c then to - 1 else LastIndexBefore(s, c, to - 1)
  }

  /** `s.rfind(c)` */
  function LastIndexOf(s: string, c: char): int {
    LastIndexBefore(s, c, |s|)
  }

  lemma LastIndexIs(s: string, c: char, i: nat)
    requires i < |s| && s[i] == c && c !in s[i + 1..]
    ensures LastIndexOf(s, c) == i
  {
    forall k | i < k < |s| ensures s[k] != c {
      assert s[k] == s[i + 1..][k - i - 1];
    }
  }

  lemma IndexIs(s: string, c: char, i: nat)
    requires i < |s| && s[i] == c && c !in s[..i]
    ensures IndexOf(s, c) == i
  {
    forall k | 0 <= k < i ensures s[k] != c {
      assert s[k] == s[..i][k];
    }
  }

  /** The last occurrence is where the text after it begins. */
  lemma LastIndexOfJoined(a: string, c: char, b: string)
    requires c !in b
    ensures LastIndexOf(a + [c] + b, c) == |a|
  {
    assert (a + [c] + b)[|a| + 1..] == b;
    LastIndexIs(a + [c] + b, c, |a|);
  }

  // ---------- splitting ----------

  /** `s.split(c)`, peeled off from the right. */
  function Split(s: string, c: char): (parts: seq<string>)
    ensures |parts| >= 1
    decreases |s|
  {
    var i := LastIndexOf(s, c);
    if i < 0 then [s] else Split(s[..i], c) + [s[i + 1..]]
  }

  lemma SplitSnoc(a: string, c: char, b: string)
    requires c !in b
    ensures Split(a + [c] + b, c) == Split(a, c) + [b]
  {
    LastIndexOfJoined(a, c, b);
    var s := a + [c] + b;
    assert s[..|a|] == a && s[|a| + 1..] == b;
  }

  /** The first piece starts with the first character of the string, unless that is the separator. */
  lemma {:induction false} SplitHead(s: string, c: char)
    requires s != "" && s[0] != c
    ensures Split(s, c)[0] != "" && Split(s, c)[0][0] == s[0]
    decreases |s|
  {
    var i := LastIndexOf(s, c);
    if i > 0 {
      SplitHead(s[..i], c);
    }
  }

  /** Every character of the string is the separator or sits in some piece. */
  lemma {:induction false} SplitCovers(s: string, c: char, k: nat) returns (j: nat)
    requires k < |s| && s[k] != c
    ensures j < |Split(s, c)| && s[k] in Split(s, c)[j]
    decreases |s|
  {
    var i := LastIndexOf(s, c);
    if i < 0 {
      j := 0;
    } else if k < i {
      j := SplitCovers(s[..i], c, k);
    } else {
      j := |Split(s, c)| - 1;
      assert s[k] == s[i + 1..][k - i - 1];
    }
  }

  // ---------- stripping ----------

  /** The characters for which `str.isspace` holds, which are those `str.strip` removes. */
  predicate IsSpace(c: char) {
    || '\t' <= c <= '\r'
    || '\U{1c}' <= c <= ' '
    || c == '\U{85}' || c == '\U{a0}' || c == '\U{1680}'
    || '\U{2000}' <= c <= '\U{200a}'
    || c == '\U{2028}' || c == '\U{2029}' || c == '\U{202f}' || c == '\U{205f}' || c == '\U{3000}'
  }

  /** The first index at or after `from` that holds no blank, or the length. */
  function FirstSolid(s: string, from: nat): (i: nat)
    requires from <= |s|
    ensures from <= i <= |s|
    ensures i < |s| ==> !IsSpace(s[i])
    ensures forall k | from <= k < i :: IsSpace(s[k])
    decreases |s| - from
  {
    if from < |s| && IsSpace(s[from]) then FirstSolid(s, from + 1) else from
  }

  /** One past the last index that holds no blank, but no less than `from`. */
  function SolidEnd(s: string, from: nat, to: nat): (i: nat)
    requires from <= to <= |s|
    ensures from <= i <= to
    ensures i > from ==> !IsSpace(s[i - 1])
    ensures forall k | i <= k < to :: IsSpace(s[k])
  {
    if from < to && IsSpace(s[to - 1]) then SolidEnd(s, from, to - 1) else to
  }

  /** `s.strip()` */
  function Strip(s: string): (r: string)
    ensures |r| <= |s|
    ensures r == s <==> s == "" || (!IsSpace(s[0]) && !IsSpace(s[|s| - 1]))
    ensures r != "" ==> !IsSpace(r[0]) && !IsSpace(r[|r| - 1])
  {
    var i := FirstSolid(s, 0);
    s[i..SolidEnd(s, i, |s|)]
  }

  /** With a solid last character, stripping drops a run of blanks at the left end. */
  lemma StripLeftOnly(s: string)
    requires s != "" && !IsSpace(s[|s| - 1])
    ensures 1 <= |Strip(s)| && Strip(s) == s[|s| - |Strip(s)|..]
    ensures forall k | 0 <= k < |s| - |Strip(s)| :: IsSpace(s[k])
  {
  }

  /** Whatever blanks stand around a text without any at its ends, stripping leaves the text. */
  lemma StripIs(left: string, core: string, right: string)
    requires (forall c | c in left :: IsSpace(c)) && (forall c | c in right :: IsSpace(c))
    requires core == "" || (!IsSpace(core[0]) && !IsSpace(core[|core| - 1]))
    ensures Strip(left + core + right) == core
  {
    var s, n := left + core + right, |left| + |core|;
    assert forall k | 0 <= k < |left| :: s[k] == left[k] && left[k] in left;
    assert forall k | n <= k < |s| :: s[k] == right[k - n] && right[k - n] in right;
    var i := FirstSolid(s, 0);
    if core == "" {
      assert forall k | 0 <= k < |s| :: IsSpace(s[k]);
    } else {
      assert s[|left|] == core[0] && s[n - 1] == core[|core| - 1];
      assert i == |left| && SolidEnd(s, i, |s|) == n;
      assert s[|left|..n] == core;
    }
    hide IsSpace;
  }

  /** The blanks, by their codes. */
  lemma SpacesAre(c: char)
    ensures IsSpace(c) <==>
            var n := c as int;
            || 9 <= n <= 13 || 28 <= n <= 32 || n == 133 || n == 160 || n == 5760 || 8192 <= n <= 8202
            || n in {8232, 8233, 8239, 8287, 12288}
  {
  }

  // ---------- decimal numerals ----------

  predicate IsDigit(c: char) {
    '0' <= c <= '9'
  }

  predicate IsNumeral(s: string) {
    s != "" && forall k | 0 <= k < |s| :: IsDigit(s[k])
  }

  function DigitChar(d: nat): (c: char)
    requires d < 10
    ensures IsDigit(c) && DigitValue(c) == d
  {
    '0' + (d as char)
  }

  function DigitValue(c: char): (d: nat)
    requires IsDigit(c)
    ensures d < 10
  {
    (c - '0') as nat
  }

  /** `str(n)` */
  function Decimal(n: nat): (s: string)
    ensures IsNumeral(s)
  {
    if n < 10 then [DigitChar(n)] else Decimal(n / 10) + [DigitChar(n % 10)]
  }

  /** `int(s)` on a decimal numeral. */
  function Value(s: string): nat
    requires IsNumeral(s)
  {
    var n := |s| - 1;
    if n == 0 then DigitValue(s[0])
    else Value(s[..n]) * 10 + DigitValue(s[n])
  }

  lemma {:induction false} DecimalValue(n: nat)
    ensures Value(Decimal(n)) == n
  {
    if n >= 10 {
      DecimalValue(n / 10);
      var s := Decimal(n);
      assert s[..|s| - 1] == Decimal(n / 10);
    }
  }

  /** Distinct numbers print differently. */
  lemma DecimalInjective(m: nat, n: nat)
    requires Decimal(m) == Decimal(n)
    ensures m == n
  {
    DecimalValue(m);
    DecimalValue(n);
  }

  lemma {:induction false} DecimalLength(n: nat)
    ensures |Decimal(n)| <= 4 <==> n < 10000
  {
    if n >= 10 {
      var m := n / 10;
      if m >= 10 {
        var k := m / 10;
        if k >= 10 {
          assert |Decimal(k)| >= 2 && |Decimal(k / 10)| >= 1;
          assert Decimal(n) == Decimal(m) + [DigitChar(n % 10)];
          if k / 10 >= 10 {
            assert |Decimal(k / 10)| >= 2;
          }
        }
      }
    }
  }
}
