/** The string operations the modelled code performs implicitly: Java's
    decimal rendering of an `int` inside a string concatenation, and the
    joining of strings with a separator. Each comes with its inverse, so that
    the strings built elsewhere in the model can be shown to lose nothing. */
module Text {

  predicate IsDigit(c: char) {
    '0' <= c <= '9'
  }

  /** True when `c` does not occur in `s`. */
  predicate Excludes(s: string, c: char) {
    forall k :: 0 <= k < |s| ==> s[k] != c
  }

  function DigitChar(d: nat): (c: char)
    requires d < 10
    ensures IsDigit(c) && c as int - '0' as int == d
  {
    (('0' as int) + d) as char
  }

  /** Decimal digits of `n`, most significant first, without leading zeros. */
  function NatToString(n: nat): (s: string)
    ensures 1 <= |s|
    ensures forall k :: 0 <= k < |s| ==> IsDigit(s[k])
    decreases n
  {
    if n < 10 then [DigitChar(n)] else NatToString(n / 10) + [DigitChar(n % 10)]
  }

  function DigitValue(c: char): nat
    requires IsDigit(c)
  {
    c as int - '0' as int
  }

  /** Reads back a string of decimal digits. */
  function ParseNat(s: string): nat
    requires forall k :: 0 <= k < |s| ==> IsDigit(s[k])
  {
    if |s| == 0 then 0
    else 10 * ParseNat(s[..|s| - 1]) + DigitValue(s[|s| - 1])
  }

  lemma {:induction false} ParseNatOfNatToString(n: nat)
    ensures ParseNat(NatToString(n)) == n
    decreases n
  {
    if n >= 10 {
      var s := NatToString(n);
      assert s[..|s| - 1] == NatToString(n / 10);
      ParseNatOfNatToString(n / 10);
    }
  }

  /** What Java's `"" + i` produces for an `int` `i`. */
  function IntToString(i: int): (s: string)
    ensures 1 <= |s|
    ensures forall k :: 0 <= k < |s| ==> s[k] == '-' || IsDigit(s[k])
  {
    if i < 0 then "-" + NatToString(-i) else NatToString(i)
  }

  function ParseInt(s: string): int
    requires forall k :: 0 <= k < |s| ==> s[k] == '-' || IsDigit(s[k])
    requires forall k :: 1 <= k < |s| ==> IsDigit(s[k])
  {
    if 0 < |s| && s[0] == '-' then -(ParseNat(s[1..]) as int) else ParseNat(s)
  }

  /** Rendering an integer in decimal is undone by parsing it. */
  lemma ParseIntOfIntToString(i: int)
    ensures forall k :: 1 <= k < |IntToString(i)| ==> IsDigit(IntToString(i)[k])
    ensures ParseInt(IntToString(i)) == i
  {
    if i < 0 {
      assert IntToString(i)[1..] == NatToString(-i);
      ParseNatOfNatToString(-i);
    } else {
      ParseNatOfNatToString(i);
    }
  }

  /** Two integers render the same only when they are equal. */
  lemma IntToStringInjective(a: int, b: int)
    requires IntToString(a) == IntToString(b)
    ensures a == b
  {
    ParseIntOfIntToString(a);
    ParseIntOfIntToString(b);
  }

  /** Position of the last `x` in `s`, or -1 when there is none. */
  function LastIndexOf<T(==)>(s: seq<T>, x: T): (i: int)
    ensures -1 <= i < |s|
    ensures i >= 0 ==> s[i] == x && forall k :: i < k < |s| ==> s[k] != x
    ensures i == -1 ==> x !in s
  {
    if |s| == 0 then -1
    else if s[|s| - 1] == x then |s| - 1
    else LastIndexOf(s[..|s| - 1], x)
  }

  /** Dropping a last element other than `x` does not move the last `x`. */
  lemma LastIndexOfInit<T>(s: seq<T>, x: T)
    requires 0 < |s| && s[|s| - 1] != x
    ensures LastIndexOf(s, x) == LastIndexOf(s[..|s| - 1], x)
  {
  }

  /** In `h + c + t` with no `c` in `t`, the last `c` is the one after `h`,
      however many `h` itself contains. */
  lemma LastIndexOfSeparator(h: string, c: char, t: string)
    requires Excludes(t, c)
    ensures LastIndexOf(h + [c] + t, c) == |h|
  {
    assert (h + [c] + t)[|h|] == c;
  }

  /** The parts glued together with `sep`, first part first. */
  function JoinNonEmpty(parts: seq<string>, sep: char): string
    requires 0 < |parts|
  {
    if |parts| == 1 then parts[0]
    else JoinNonEmpty(parts[..|parts| - 1], sep) + [sep] + parts[|parts| - 1]
  }

  /** Cuts `s` at every `sep`; the reference inverse of `JoinNonEmpty`. */
  function Split(s: string, sep: char): (parts: seq<string>)
    ensures 0 < |parts|
    decreases |s|
  {
    var i := LastIndexOf(s, sep);
    if i < 0 then [s] else Split(s[..i], sep) + [s[i + 1..]]
  }

  /** Cutting `h + sep + t` when `t` holds no `sep` cuts `h` and keeps `t`
      whole as the last part. */
  lemma SplitAtLastSeparator(h: string, sep: char, t: string)
    requires Excludes(t, sep)
    ensures Split(h + [sep] + t, sep) == Split(h, sep) + [t]
  {
    var s := h + [sep] + t;
    LastIndexOfSeparator(h, sep, t);
    assert s[..|h|] == h;
    assert s[|h| + 1..] == t;
  }

  /** Joining loses nothing as long as no part contains the separator. */
  lemma {:induction false} SplitJoinNonEmpty(parts: seq<string>, sep: char)
    requires 0 < |parts|
    requires forall i :: 0 <= i < |parts| ==> Excludes(parts[i], sep)
    ensures Split(JoinNonEmpty(parts, sep), sep) == parts
    decreases |parts|
  {
    var last := parts[|parts| - 1];
    if |parts| == 1 {
      SplitWithoutSeparator(last, sep);
    } else {
      var init := parts[..|parts| - 1];
      var joined := JoinNonEmpty(init, sep);
      assert JoinNonEmpty(parts, sep) == joined + [sep] + last;
      SplitJoinNonEmpty(init, sep);
      SplitAtLastSeparator(joined, sep, last);
      assert init + [last] == parts;
    }
  }

  /** Text without the separator is one part. */
  lemma SplitWithoutSeparator(s: string, sep: char)
    requires Excludes(s, sep)
    ensures Split(s, sep) == [s]
  {
    assert LastIndexOf(s, sep) == -1;
  }
}
