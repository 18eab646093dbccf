/**
 * The JavaScript built-ins the base station's services and handlers rely
 * on, with their ECMAScript semantics: trim, endsWith, padStart,
 * Array.prototype.slice and splice at the front, and Math.ceil of a
 * quotient.  split and join are in Strings.
 */
module JsText {
  import opened Decimal
  import opened Strings
  import opened Wrappers

  // ---------------------------------------------------------------------
  // trim, endsWith, padStart
  // ---------------------------------------------------------------------

  /** The WhiteSpace and LineTerminator code points trim removes. */
  predicate IsJsWhitespace(c: char) {
    c == '\t' || c == '\n' || c == '\U{B}' || c == '\U{C}' || c == '\r' || c == ' ' ||
    c == '\U{A0}' || c == '\U{1680}' || ('\U{2000}' <= c <= '\U{200A}') ||
    c == '\U{2028}' || c == '\U{2029}' || c == '\U{202F}' || c == '\U{205F}' || c == '\U{3000}' || c == '\U{FEFF}'
  }

  function TrimStart(s: string): (t: string)
    ensures |t| <= |s| && t == s[|s| - |t|..]
    ensures t != [] ==> !IsJsWhitespace(t[0])
    decreases |s|
  {
    if s != [] && IsJsWhitespace(s[0]) then TrimStart(s[1..]) else s
  }

  function TrimEnd(s: string): (t: string)
    ensures t <= s
    ensures t != [] ==> !IsJsWhitespace(t[|t| - 1])
    decreases |s|
  {
    if s != [] && IsJsWhitespace(s[|s| - 1]) then TrimEnd(s[..|s| - 1]) else s
  }

  /** s.trim() */
  function Trim(s: string): string {
    TrimEnd(TrimStart(s))
  }

  predicate AllWhitespace(s: string) {
    forall i :: 0 <= i < |s| ==> IsJsWhitespace(s[i])
  }

  /** `!s.trim()` holds exactly when s is empty or all whitespace. */
  lemma TrimEmpty(s: string)
    ensures Trim(s) == "" <==> AllWhitespace(s)
  {
    if AllWhitespace(s) {
      TrimStartAll(s);
    } else {
      var i :| 0 <= i < |s| && !IsJsWhitespace(s[i]);
      TrimKeeps(s, i);
    }
  }

  /** A character that is not whitespace survives trimming. */
  lemma TrimKeeps(s: string, i: int)
    requires 0 <= i < |s| && !IsJsWhitespace(s[i])
    ensures Trim(s) != ""
  {
    TrimStartKeeps(s, i);
    var t := TrimStart(s);
    var j := i - (|s| - |t|);
    assert t[j] == s[i];
    TrimEndKeeps(t, j);
  }

  lemma {:induction false} TrimStartAll(s: string)
    requires AllWhitespace(s)
    ensures TrimStart(s) == ""
    decreases |s|
  {
    if s != [] {
      TrimStartAll(s[1..]);
    }
  }

  /** TrimStart keeps every character from the first non-whitespace one on. */
  lemma {:induction false} TrimStartKeeps(s: string, i: int)
    requires 0 <= i < |s| && !IsJsWhitespace(s[i])
    ensures |s| - |TrimStart(s)| <= i
    decreases |s|
  {
    if IsJsWhitespace(s[0]) {
      TrimStartKeeps(s[1..], i - 1);
    }
  }

  lemma {:induction false} TrimEndKeeps(s: string, i: int)
    requires 0 <= i < |s| && !IsJsWhitespace(s[i])
    ensures |TrimEnd(s)| > i
    decreases |s|
  {
    if IsJsWhitespace(s[|s| - 1]) {
      TrimEndKeeps(s[..|s| - 1], i);
    }
  }

  /** s.endsWith(suffix) */
  predicate EndsWith(s: string, suffix: string) {
    |suffix| <= |s| && s[|s| - |suffix|..] == suffix
  }

  /** n.toString().padStart(2, '0') for a non-negative integer n. */
  function Pad2(n: nat): (s: string)
    ensures |s| >= 2 && AllDigits(s)
    ensures n < 100 ==> |s| == 2
  {
    NatToStringLength(n);
    var digits := NatToString(n);
    if |digits| < 2 then "0" + digits else digits
  }

  lemma {:induction false} NatToStringLength(n: nat)
    ensures n < 10 ==> |NatToString(n)| == 1
    ensures 10 <= n < 100 ==> |NatToString(n)| == 2
  {
  }

  /** Two-digit padding loses nothing: the padded text parses back to n. */
  lemma Pad2RoundTrip(n: nat)
    ensures ParseNat(Pad2(n)) == n
  {
    NatRoundTrip(n);
    var digits := NatToString(n);
    if |digits| < 2 {
      assert Pad2(n) == ['0'] + digits;
      assert Pad2(n)[..1] == "0" && Pad2(n)[1..] == digits;
      assert ParseNat(Pad2(n)) == ParseNat("0") * 10 + DigitValue(digits[0]);
    }
  }

  // ---------------------------------------------------------------------
  // Arrays
  // ---------------------------------------------------------------------

  /** The index slice and splice use for a relative position. */
  function RelativeIndex(i: int, len: nat): (k: nat)
    ensures k <= len
    ensures 0 <= i <= len ==> k == i
    ensures i > len ==> k == len
    ensures i < 0 ==> k == if len + i > 0 then len + i else 0
  {
    if i < 0 then (if len + i > 0 then len + i else 0) else if i > len then len else i
  }

  /** a.slice(start, end) */
  function Slice<T>(a: seq<T>, start: int, end: int): (r: seq<T>)
    ensures var s, e := RelativeIndex(start, |a|), RelativeIndex(end, |a|);
      |r| == (if s < e then e - s else 0) &&
      forall k :: 0 <= k < |r| ==> r[k] == a[s + k]
    ensures 0 <= start <= end <= |a| ==> r == a[start..end]
    ensures end <= start && (start >= 0) == (end >= 0) ==> r == []
  {
    var s, e := RelativeIndex(start, |a|), RelativeIndex(end, |a|);
    if s < e then a[s..e] else []
  }

  /** How many elements a.splice(0, count) removes. */
  function SpliceCount(count: int, len: nat): (n: nat)
    ensures n <= len
    ensures count <= 0 ==> n == 0
    ensures 0 <= count <= len ==> n == count
    ensures count >= len ==> n == len
  {
    if count <= 0 then 0 else if count < len then count else len
  }

  /** Math.ceil(n / d) for a positive divisor. */
  function CeilDiv(n: nat, d: int): (q: nat)
    requires d > 0
    ensures (q - 1) * d < n <= q * d || (n == 0 && q == 0)
  {
    (n + d - 1) / d
  }

  // ---------------------------------------------------------------------
  // Defaults by ||
  // ---------------------------------------------------------------------

  /** `x || d` for a number: undefined, 0 (and NaN) select the default. */
  function NumberOr(x: Option<int>, d: int): (r: int)
    ensures r == d || (x.Some? && r == x.value && x.value != 0)
    ensures x.Some? && x.value != 0 ==> r == x.value
  {
    if x.Some? && x.value != 0 then x.value else d
  }

  /** `x || d` for a real. */
  function RealOr(x: Option<real>, d: real): (r: real)
    ensures r == d || (x.Some? && r == x.value && x.value != 0.0)
    ensures x.Some? && x.value != 0.0 ==> r == x.value
  {
    if x.Some? && x.value != 0.0 then x.value else d
  }

  /** `x || d` for a string: undefined and "" select the default. */
  function StringOr(x: Option<string>, d: string): (r: string)
    ensures x.Some? && x.value != "" ==> r == x.value
    ensures x.None? || x.value == "" ==> r == d
  {
    if x.Some? && x.value != "" then x.value else d
  }
}
