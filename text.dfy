/** String building used by the formatters and report rows: Ruby's integer
    interpolation (`"#{n}"`), zero padding as `strftime` prints it,
    `Array#join`, and the UTF-8 byte size of a string. Each printer comes
    with the parser that reads its output back. */
module Text {

  predicate IsDigit(c: char) { '0' <= c <= '9' }

  predicate AllDigits(s: string) { forall i :: 0 <= i < |s| ==> IsDigit(s[i]) }

  function DigitValue(c: char): (d: nat)
    requires IsDigit(c)
    ensures d < 10
  {
    c as int - '0' as int
  }

  function DigitChar(d: nat): (c: char)
    requires d < 10
    ensures IsDigit(c) && DigitValue(c) == d
  {
    "0123456789"[d]
  }

  function Pow10(k: nat): (p: nat)
    ensures p >= 1
  {
    if k == 0 then 1 else 10 * Pow10(k - 1)
  }

  // ---------------------------------------------------------------------
  // Decimal printing and parsing of naturals
  // ---------------------------------------------------------------------

  /** The decimal text of `n` as Ruby prints an Integer: no sign, no
      leading zeros. */
  function NatToString(n: nat): (s: string)
    ensures |s| >= 1 && AllDigits(s)
    ensures s[0] == '0' <==> n == 0
    decreases n
  {
    if n < 10 then [DigitChar(n)] else NatToString(n / 10) + [DigitChar(n % 10)]
  }

  /** Reads a string of decimal digits, most significant first. Leading
      zeros are allowed. */
  function ParseNat(s: string): nat
    requires AllDigits(s)
  {
    if s == [] then 0 else ParseNat(s[..|s| - 1]) * 10 + DigitValue(s[|s| - 1])
  }

  lemma {:induction false} ParseNatToString(n: nat)
    ensures ParseNat(NatToString(n)) == n
    decreases n
  {
    if n >= 10 {
      var s := NatToString(n);
      assert s[..|s| - 1] == NatToString(n / 10);
      ParseNatToString(n / 10);
    }
  }

  /** `NatToString(n)` has at most `k` digits exactly when `n < 10^k`. */
  lemma {:induction false} NatToStringLength(n: nat, k: nat)
    requires k >= 1
    ensures |NatToString(n)| <= k <==> n < Pow10(k)
    decreases n
  {
    if n >= 10 {
      if k == 1 {
        assert Pow10(1) == 10;
        assert |NatToString(n / 10)| >= 1;
      } else {
        NatToStringLength(n / 10, k - 1);
      }
    } else {
      assert Pow10(k) >= 10 by { if k > 1 { assert Pow10(k) == 10 * Pow10(k - 1); } }
    }
  }

  function Zeros(k: nat): (s: string)
    ensures |s| == k && forall i :: 0 <= i < k ==> s[i] == '0'
  {
    seq(k, _ => '0')
  }

  lemma {:induction false} ParseZeros(k: nat)
    ensures AllDigits(Zeros(k)) && ParseNat(Zeros(k)) == 0
  {
    if k > 0 {
      assert Zeros(k)[..k - 1] == Zeros(k - 1);
      ParseZeros(k - 1);
    }
  }

  lemma {:induction false} ParseLeadingZeros(k: nat, s: string)
    requires AllDigits(s)
    ensures AllDigits(Zeros(k) + s) && ParseNat(Zeros(k) + s) == ParseNat(s)
  {
    if s == [] {
      assert Zeros(k) + s == Zeros(k);
      ParseZeros(k);
    } else {
      var t := Zeros(k) + s;
      assert t[..|t| - 1] == Zeros(k) + s[..|s| - 1];
      ParseLeadingZeros(k, s[..|s| - 1]);
    }
  }

  /** `n` printed with at least `width` digits, padded on the left with
      zeros, as `strftime` prints `%d`, `%m`, `%H`, `%M`, `%S` (width 2) and
      `%Y` (width 4). */
  function ZeroPad(n: nat, width: nat): (s: string)
    ensures AllDigits(s)
    ensures |s| == if |NatToString(n)| < width then width else |NatToString(n)|
  {
    var d := NatToString(n);
    if |d| < width then Zeros(width - |d|) + d else d
  }

  lemma ParseZeroPad(n: nat, width: nat)
    ensures ParseNat(ZeroPad(n, width)) == n
  {
    var d := NatToString(n);
    ParseNatToString(n);
    if |d| < width {
      var z := Zeros(width - |d|);
      assert ZeroPad(n, width) == z + d;
      ParseLeadingZeros(width - |d|, d);
    }
  }

  /** A number below `10^width` pads to exactly `width` digits. */
  lemma ZeroPadWidth(n: nat, width: nat)
    requires width >= 1 && n < Pow10(width)
    ensures |ZeroPad(n, width)| == width
  {
    NatToStringLength(n, width);
  }

  // ---------------------------------------------------------------------
  // Signed integers
  // ---------------------------------------------------------------------

  predicate IsIntText(s: string)
  {
    if |s| > 0 && s[0] == '-' then |s| > 1 && AllDigits(s[1..]) else |s| > 0 && AllDigits(s)
  }

  /** The decimal text of an Integer as `"#{i}"` prints it: a leading `-`
      for negative values. */
  function IntToString(i: int): (s: string)
    ensures IsIntText(s)
    ensures forall k :: 0 <= k < |s| ==> IsDigit(s[k]) || (k == 0 && s[k] == '-')
  {
    if i < 0 then "-" + NatToString(-i) else NatToString(i)
  }

  function ParseInt(s: string): int
    requires IsIntText(s)
  {
    if s[0] == '-' then 0 - ParseNat(s[1..]) else ParseNat(s)
  }

  lemma ParseIntToString(i: int)
    ensures ParseInt(IntToString(i)) == i
  {
    if i < 0 {
      assert IntToString(i)[1..] == NatToString(-i);
      ParseNatToString(-i);
    } else {
      ParseNatToString(i);
    }
  }

  // ---------------------------------------------------------------------
  // Searching, joining and splitting
  // ---------------------------------------------------------------------

  /** The index of the first `c` in `s`, or `|s|` when there is none. */
  function IndexOf(s: string, c: char): (r: nat)
    ensures r <= |s|
    ensures r < |s| ==> s[r] == c
    ensures forall k :: 0 <= k < r ==> s[k] != c
  {
    if s == [] then 0 else if s[0] == c then 0 else 1 + IndexOf(s[1..], c)
  }

  lemma IndexOfPrefix(a: string, c: char, b: string)
    requires c !in a
    ensures IndexOf(a + [c] + b, c) == |a|
  {
    var s := a + [c] + b;
    assert s[|a|] == c;
    assert forall k :: 0 <= k < |a| ==> s[k] == a[k];
  }

  /** Ruby's `Array#join(sep)`. */
  function Join(items: seq<string>, sep: string): string
  {
    if |items| == 0 then ""
    else if |items| == 1 then items[0]
    else items[0] + sep + Join(items[1..], sep)
  }

  /** Cuts `s` at every occurrence of `sep[0]`, dropping the `|sep|`
      characters that start there. */
  function Split(s: string, sep: string): seq<string>
    requires |sep| > 0
    decreases |s|
  {
    var i := IndexOf(s, sep[0]);
    if i == |s| then [s]
    else
      var j := if i + |sep| <= |s| then i + |sep| else |s|;
      [s[..i]] + Split(s[j..], sep)
  }

  /** Joining and splitting are inverse when no item contains the first
      character of the separator. */
  lemma {:induction false} SplitJoin(items: seq<string>, sep: string)
    requires |items| > 0 && |sep| > 0
    requires forall k :: 0 <= k < |items| ==> sep[0] !in items[k]
    ensures Split(Join(items, sep), sep) == items
    decreases |items|
  {
    if |items| == 1 {
      assert IndexOf(items[0], sep[0]) == |items[0]|;
    } else {
      var rest := Join(items[1..], sep);
      var s := items[0] + sep + rest;
      assert s == items[0] + [sep[0]] + (sep[1..] + rest);
      IndexOfPrefix(items[0], sep[0], sep[1..] + rest);
      assert s[..|items[0]|] == items[0];
      assert s[|items[0]| + |sep|..] == rest;
      SplitJoin(items[1..], sep);
    }
  }

  // ---------------------------------------------------------------------
  // Byte size
  // ---------------------------------------------------------------------

  /** The number of bytes UTF-8 uses for one character. */
  function Utf8CharSize(c: char): (n: nat)
    ensures 1 <= n <= 4
    ensures n == 1 <==> c as int < 0x80
  {
    if c as int < 0x80 then 1
    else if c as int < 0x800 then 2
    else if c as int < 0x10000 then 3
    else 4
  }

  /** `String#bytesize` of a UTF-8 string. */
  function Utf8Size(s: string): (n: nat)
    ensures |s| <= n <= 4 * |s|
  {
    if s == [] then 0 else Utf8CharSize(s[0]) + Utf8Size(s[1..])
  }

  lemma {:induction false} Utf8SizeAppend(a: string, b: string)
    ensures Utf8Size(a + b) == Utf8Size(a) + Utf8Size(b)
    decreases |a|
  {
    if a != [] {
      assert (a + b)[1..] == a[1..] + b;
      Utf8SizeAppend(a[1..], b);
    } else {
      assert a + b == b;
    }
  }
}
