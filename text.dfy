/**
 * String and byte helpers standing in for the parts of Go's standard library the
 * orchestrator uses: `encoding/hex`, `%d` formatting, `strings.Join`, `strings.SplitN`,
 * `strings.HasPrefix` and `strings.TrimPrefix`. Each encoder comes with its inverse and a
 * round-trip lemma, so that properties of the strings the orchestrator builds can be
 * stated as "the parts can be recovered".
 */
module Text {
  import opened Wrappers

  type Byte = b: int | 0 <= b < 256
  type Bytes = seq<Byte>

  const HEX_DIGITS: string := "0123456789abcdef"

  // ---------------------------------------------------------------------------
  // Searching

  /** Index of the first occurrence of `x` in `s`. */
  function IndexOf<T(==)>(s: seq<T>, x: T): (i: nat)
    requires x in s
    ensures i < |s| && s[i] == x
    ensures forall j :: 0 <= j < i ==> s[j] != x
  {
    if s[0] == x then 0 else 1 + IndexOf(s[1..], x)
  }

  /** `IndexOf` finds the separator right after a separator-free head. */
  lemma IndexOfAfter<T>(head: seq<T>, x: T, tail: seq<T>)
    requires x !in head
    ensures IndexOf(head + [x] + tail, x) == |head|
  {
    var s := head + [x] + tail;
    assert s[|head|] == x;
    assert forall j :: 0 <= j < |head| ==> s[j] == head[j];
  }

  predicate HasPrefix(s: string, prefix: string) {
    |prefix| <= |s| && s[..|prefix|] == prefix
  }

  /** Go's strings.TrimPrefix. */
  function TrimPrefix(s: string, prefix: string): (r: string)
    ensures HasPrefix(s, prefix) ==> prefix + r == s
    ensures !HasPrefix(s, prefix) ==> r == s
  {
    if HasPrefix(s, prefix) then s[|prefix|..] else s
  }

  // ---------------------------------------------------------------------------
  // Base16 (section 8 of RFC 4648), lowercase, as Go's hex.EncodeToString

  function HexEncode(b: Bytes): (s: string)
    ensures |s| == 2 * |b|
    ensures forall i :: 0 <= i < |s| ==> s[i] in HEX_DIGITS
  {
    if b == [] then ""
    else [HEX_DIGITS[b[0] / 16], HEX_DIGITS[b[0] % 16]] + HexEncode(b[1..])
  }

  /** The value of one lowercase hex digit; None for every other character. */
  function HexValue(c: char): (v: Option<nat>)
    ensures v.Some? ==> v.value < 16 && HEX_DIGITS[v.value] == c
  {
    if '0' <= c <= '9' then Some(c as int - '0' as int)
    else if 'a' <= c <= 'f' then Some(c as int - 'a' as int + 10)
    else None
  }

  /** Inverse of HexEncode: accepts exactly even-length strings of lowercase hex digits. */
  function HexDecode(s: string): (r: Option<Bytes>)
    decreases |s|
  {
    if s == [] then Some([])
    else if |s| == 1 then None
    else
      var hi, lo := HexValue(s[0]), HexValue(s[1]);
      if hi.None? || lo.None? then None
      else
        match HexDecode(s[2..])
        case None => None
        case Some(rest) => Some([hi.value * 16 + lo.value] + rest)
  }

  lemma HexValueOfDigit(d: nat)
    requires d < 16
    ensures HexValue(HEX_DIGITS[d]) == Some(d)
  {
  }

  lemma {:induction false} HexRoundTrip(b: Bytes)
    ensures HexDecode(HexEncode(b)) == Some(b)
  {
    if b != [] {
      HexRoundTrip(b[1..]);
      HexDecodeStep(b[0], HexEncode(b[1..]), b[1..]);
      assert [b[0]] + b[1..] == b;
    }
  }

  /** Decoding a digit pair in front of an encoding prepends its byte. */
  lemma HexDecodeStep(x: Byte, t: string, rest: Bytes)
    requires HexDecode(t) == Some(rest)
    ensures HexDecode([HEX_DIGITS[x / 16], HEX_DIGITS[x % 16]] + t) == Some([x] + rest)
  {
    var s := [HEX_DIGITS[x / 16], HEX_DIGITS[x % 16]] + t;
    assert s[0] == HEX_DIGITS[x / 16] && s[1] == HEX_DIGITS[x % 16] && s[2..] == t;
    HexValueOfDigit(x / 16);
    HexValueOfDigit(x % 16);
  }

  // ---------------------------------------------------------------------------
  // Decimal integers, as Go's %d

  function DigitChar(d: nat): (c: char)
    requires d < 10
    ensures '0' <= c <= '9'
  {
    (d + '0' as int) as char
  }

  function NatToString(n: nat): (s: string)
    ensures |s| >= 1
    ensures forall i :: 0 <= i < |s| ==> '0' <= s[i] <= '9'
    decreases n
  {
    if n < 10 then [DigitChar(n)] else NatToString(n / 10) + [DigitChar(n % 10)]
  }

  function IntToString(i: int): (s: string)
    ensures |s| >= 1
    ensures i >= 0 ==> forall k :: 0 <= k < |s| ==> '0' <= s[k] <= '9'
    ensures i < 0 ==> s[0] == '-'
    ensures forall k :: 0 <= k < |s| ==> s[k] == '-' || '0' <= s[k] <= '9'
  {
    if i < 0 then "-" + NatToString(-i) else NatToString(i)
  }

  /** Inverse of NatToString on non-empty digit strings. */
  function ParseNat(s: string): (r: Option<nat>)
    decreases |s|
  {
    if s == [] || !('0' <= s[|s| - 1] <= '9') then None
    else
      var d := s[|s| - 1] as int - '0' as int;
      if |s| == 1 then Some(d)
      else
        match ParseNat(s[..|s| - 1])
        case None => None
        case Some(p) => Some(p * 10 + d)
  }

  /** Inverse of IntToString. */
  function ParseInt(s: string): (r: Option<int>) {
    if |s| > 0 && s[0] == '-' then
      match ParseNat(s[1..])
      case None => None
      case Some(n) => var v: int := n; Some(-v)
    else ParseNat(s)
  }

  lemma {:induction false} NatRoundTrip(n: nat)
    ensures ParseNat(NatToString(n)) == Some(n)
    decreases n
  {
    if n >= 10 {
      var s := NatToString(n);
      assert s[..|s| - 1] == NatToString(n / 10);
      NatRoundTrip(n / 10);
    }
  }

  lemma IntRoundTrip(i: int)
    ensures ParseInt(IntToString(i)) == Some(i)
  {
    if i < 0 {
      NegativeRoundTrip(-i);
    } else {
      var s := NatToString(i);
      assert s[0] != '-';
      NatRoundTrip(i);
    }
  }

  lemma NegativeRoundTrip(n: nat)
    ensures ParseInt("-" + NatToString(n)) == Some(-(n as int))
  {
    var s := "-" + NatToString(n);
    assert s[0] == '-' && s[1..] == NatToString(n);
    NatRoundTrip(n);
  }

  /** Distinct integers print differently. */
  lemma IntToStringInjective(a: int, b: int)
    requires IntToString(a) == IntToString(b)
    ensures a == b
  {
    IntRoundTrip(a);
    IntRoundTrip(b);
  }

  // ---------------------------------------------------------------------------
  // Joining and splitting

  /** Go's strings.Join. */
  function Join(parts: seq<string>, sep: string): string {
    if |parts| == 0 then ""
    else if |parts| == 1 then parts[0]
    else parts[0] + sep + Join(parts[1..], sep)
  }

  /**
   * Go's strings.SplitN with a one-character separator: at most `n` pieces
   * (all of them when `n < 0`, none when `n == 0`); the last piece is the unsplit rest.
   */
  function SplitN(s: string, sep: char, n: int): (parts: seq<string>)
    ensures n != 0 ==> |parts| >= 1
    ensures n > 0 ==> |parts| <= n
    decreases |s|
  {
    if n == 0 then []
    else if n == 1 || sep !in s then [s]
    else
      var i := IndexOf(s, sep);
      [s[..i]] + SplitN(s[i + 1..], sep, if n < 0 then n else n - 1)
  }

  /** Splitting at every separator: the inverse of Join. */
  function Split(s: string, sep: char): (parts: seq<string>) {
    SplitN(s, sep, -1)
  }

  lemma {:induction false} SplitJoin(parts: seq<string>, sep: char)
    requires |parts| >= 1
    requires forall k :: 0 <= k < |parts| ==> sep !in parts[k]
    ensures Split(Join(parts, [sep]), sep) == parts
    decreases |parts|
  {
    if |parts| > 1 {
      var rest := Join(parts[1..], [sep]);
      var s := Join(parts, [sep]);
      assert s == parts[0] + [sep] + rest;
      IndexOfAfter(parts[0], sep, rest);
      assert s[..|parts[0]|] == parts[0];
      assert s[|parts[0]| + 1..] == rest;
      SplitJoin(parts[1..], sep);
      assert parts == [parts[0]] + parts[1..];
    }
  }
}
