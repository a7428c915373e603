/** The Python values the two scripts handle: cells of a sheet row and fields
    of the catalog's JSON replies, with the few string operations applied to
    them (str.strip, str.lower, str() and truthiness). */
module Py {

  datatype Option<+T> = None | Some(value: T)

  /** A sheet cell or a JSON field. A float is carried as the text str()
      gives for it: nothing here does arithmetic on prices. */
  datatype Value = Str(s: string) | Int(i: int) | Float(text: string) | Null

  /** Python truthiness: empty strings, zero and None are false. */
  predicate Truthy(v: Value)
    ensures v in {Str(""), Int(0), Float("0.0"), Float("-0.0"), Null} ==> !Truthy(v)
    ensures v.Str? && v.s != [] ==> Truthy(v)
  {
    match v
    case Str(s) => s != []
    case Int(i) => i != 0
    case Float(t) => t != "0.0" && t != "-0.0"
    case Null => false
  }

  /** The characters str.isspace() accepts (and str.strip() removes). */
  predicate IsSpace(c: char) {
    || c == ' '
    || '\t' <= c <= '\r'
    || '\U{1C}' <= c <= '\U{1F}'
    || c == '\U{85}' || c == '\U{A0}' || c == '\U{1680}'
    || '\U{2000}' <= c <= '\U{200A}'
    || c == '\U{2028}' || c == '\U{2029}' || c == '\U{202F}'
    || c == '\U{205F}' || c == '\U{3000}'
  }

  predicate AllSpace(s: string) {
    forall i :: 0 <= i < |s| ==> IsSpace(s[i])
  }

  /** The index of the first character at or after `i` that is not
      whitespace, or |s| when there is none. */
  function SkipSpace(s: string, i: nat): (j: nat)
    requires i <= |s|
    ensures i <= j <= |s|
    ensures forall k :: i <= k < j ==> IsSpace(s[k])
    ensures j < |s| ==> !IsSpace(s[j])
    decreases |s| - i
  {
    if i < |s| && IsSpace(s[i]) then SkipSpace(s, i + 1) else i
  }

  /** The end of `s[lo..hi]` once its trailing whitespace is dropped. */
  function SkipSpaceBack(s: string, lo: nat, hi: nat): (j: nat)
    requires lo <= hi <= |s|
    ensures lo <= j <= hi
    ensures forall k :: j <= k < hi ==> IsSpace(s[k])
    ensures lo < j ==> !IsSpace(s[j - 1])
    decreases hi
  {
    if lo < hi && IsSpace(s[hi - 1]) then SkipSpaceBack(s, lo, hi - 1) else hi
  }

  /** str.strip(): a slice of `s` whose cut-off ends are all whitespace and
      whose own ends are not. */
  function Strip(s: string): (r: string)
    ensures exists i :: 0 <= i <= i + |r| <= |s| && r == s[i..i + |r|]
                        && AllSpace(s[..i]) && AllSpace(s[i + |r|..])
    ensures r != [] ==> !IsSpace(r[0]) && !IsSpace(r[|r| - 1])
  {
    var i := SkipSpace(s, 0);
    var j := SkipSpaceBack(s, i, |s|);
    var r := s[i..j];
    assert |r| == j - i && i + |r| == j;
    assert AllSpace(s[..i]) by {
      forall k | 0 <= k < i ensures IsSpace(s[..i][k]) {
        assert s[..i][k] == s[k];
      }
    }
    assert AllSpace(s[j..]) by {
      forall k | 0 <= k < |s| - j ensures IsSpace(s[j..][k]) {
        assert s[j..][k] == s[j + k];
      }
    }
    assert r != [] ==> r[0] == s[i] && r[|r| - 1] == s[j - 1];
    r
  }

  /** The converse of Strip's contract: whitespace padding around a string
      that neither starts nor ends with whitespace is exactly what Strip
      removes. Together the two pin Strip down. */
  lemma StripPadded(p: string, t: string, q: string)
    requires AllSpace(p) && AllSpace(q)
    requires t == [] || (!IsSpace(t[0]) && !IsSpace(t[|t| - 1]))
    ensures Strip(p + t + q) == t
  {
    var s := p + t + q;
    assert forall k :: 0 <= k < |p| ==> s[k] == p[k];
    assert forall k :: |p| + |t| <= k < |s| ==> s[k] == q[k - |p| - |t|];
    var i := SkipSpace(s, 0);
    if t == [] {
      assert i == |s|;
    } else {
      assert s[|p|] == t[0] && s[|p| + |t| - 1] == t[|t| - 1];
      assert i == |p|;
      var j := SkipSpaceBack(s, i, |s|);
      assert j == |p| + |t|;
      assert s[i..j] == t;
    }
  }

  /** str.strip() is idempotent. */
  lemma StripIdempotent(s: string)
    ensures Strip(Strip(s)) == Strip(s)
  {
    var r := Strip(s);
    assert [] + r + [] == r;
    StripPadded([], r, []);
  }

  function LowerChar(c: char): char {
    if 'A' <= c <= 'Z' then (c as int + 32) as char else c
  }

  /** str.lower() on the ASCII letters: an upper-case letter becomes the
      letter 32 code points above it, every other character stays. */
  function Lower(s: string): (r: string)
    ensures |r| == |s|
    ensures forall i :: 0 <= i < |s| && 'A' <= s[i] <= 'Z' ==> r[i] as int == s[i] as int + 32
    ensures forall i :: 0 <= i < |s| && !('A' <= s[i] <= 'Z') ==> r[i] == s[i]
  {
    seq(|s|, i requires 0 <= i < |s| => LowerChar(s[i]))
  }

  /** A string lowers to "search" exactly when it is those six letters, each
      in either case. */
  lemma LowerIsSearch(t: string)
    ensures Lower(t) == "search" <==>
            |t| == 6 && forall i :: 0 <= i < 6 ==> t[i] == "search"[i] || t[i] == "SEARCH"[i]
  {
    if Lower(t) == "search" {
      forall i | 0 <= i < 6 ensures t[i] == "search"[i] || t[i] == "SEARCH"[i] {
        assert Lower(t)[i] == "search"[i];
      }
    }
    if |t| == 6 && forall i :: 0 <= i < 6 ==> t[i] == "search"[i] || t[i] == "SEARCH"[i] {
      forall i | 0 <= i < 6 ensures Lower(t)[i] == "search"[i] {
        assert t[i] == "search"[i] || t[i] == "SEARCH"[i];
      }
    }
  }

  /** A string of decimal digits. */
  predicate IsDigits(d: string) {
    forall i :: 0 <= i < |d| ==> '0' <= d[i] <= '9'
  }

  /** The number a string of decimal digits denotes, read most significant
      digit first. */
  function DecimalValue(d: string): nat
    requires IsDigits(d)
    decreases |d|
  {
    if d == [] then 0
    else DecimalValue(d[..|d| - 1]) * 10 + (d[|d| - 1] as int - '0' as int)
  }

  /** The decimal digits of `n`, without leading zeros: reading them back
      gives `n`. */
  function DigitsOf(n: nat): (d: string)
    ensures d != [] && (d[0] == '0' ==> n == 0)
    ensures IsDigits(d) && DecimalValue(d) == n
    decreases n
  {
    if n < 10 then ["0123456789"[n]]
    else
      DecimalValueAppend(DigitsOf(n / 10), "0123456789"[n % 10]);
      DigitsOf(n / 10) + ["0123456789"[n % 10]]
  }

  /** Appending a digit to a digit string multiplies its value by ten and
      adds the digit's. */
  lemma DecimalValueAppend(d: string, c: char)
    requires IsDigits(d) && '0' <= c <= '9'
    ensures IsDigits(d + [c])
    ensures DecimalValue(d + [c]) == DecimalValue(d) * 10 + (c as int - '0' as int)
  {
    assert (d + [c])[..|d|] == d;
  }

  /** Two numbers with the same decimal digits are equal. */
  lemma DigitsOfInjective(m: nat, n: nat)
    ensures DigitsOf(m) == DigitsOf(n) <==> m == n
  {
    if DigitsOf(m) == DigitsOf(n) {
      assert DecimalValue(DigitsOf(m)) == DecimalValue(DigitsOf(n));
    }
  }

  /** str() of a value, as an f-string renders it: a string as itself, an
      integer in decimal with a leading '-' exactly when negative, a float as
      its text and None as "None". */
  function Render(v: Value): (r: string)
    ensures v.Str? ==> r == v.s
    ensures v.Null? ==> r == "None"
    ensures v.Int? ==> r != [] && (r[0] == '-' <==> v.i < 0)
    ensures v.Int? && v.i >= 0 ==> IsDigits(r) && DecimalValue(r) == v.i
    ensures v.Int? && v.i < 0 ==> IsDigits(r[1..]) && DecimalValue(r[1..]) == -v.i
  {
    match v
    case Str(s) => s
    case Int(i) =>
      if i < 0 then
        var r := "-" + DigitsOf(-i);
        assert r[1..] == DigitsOf(-i);
        r
      else DigitsOf(i)
    case Float(t) => t
    case Null => "None"
  }

  /** Two integers whose f-string texts are equal are equal. */
  lemma RenderIntInjective(a: int, b: int)
    ensures Render(Int(a)) == Render(Int(b)) <==> a == b
  {
    if Render(Int(a)) == Render(Int(b)) {
      var r := Render(Int(a));
      if a >= 0 {
        assert DecimalValue(r) == a && DecimalValue(r) == b;
      } else {
        assert DecimalValue(r[1..]) == -a && DecimalValue(r[1..]) == -b;
      }
    }
  }

  /** Regrouping a concatenation, for the loops that extend several
      sequences at once. */
  lemma Associative<T>(a: seq<T>, b: seq<T>, c: seq<T>)
    ensures a + b + c == a + (b + c)
  {
  }

  /** `u` occurs in `s` as the contiguous stretch starting at index `p`. */
  ghost predicate SliceAt<T>(s: seq<T>, p: int, u: seq<T>) {
    0 <= p && p + |u| <= |s| && s[p..p + |u|] == u
  }

  /** A stretch of `s` stays where it is when more is appended. */
  lemma SliceAtExtend<T>(s: seq<T>, t: seq<T>, p: int, u: seq<T>)
    requires SliceAt(s, p, u)
    ensures SliceAt(s + t, p, u)
  {
    assert (s + t)[p..p + |u|] == s[p..p + |u|];
  }

  /** What is appended occurs at the old end. */
  lemma SliceAtEnd<T>(s: seq<T>, t: seq<T>)
    ensures SliceAt(s + t, |s|, t)
  {
    assert (s + t)[|s|..|s| + |t|] == t;
  }
}
