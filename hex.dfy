/** Lower-case hexadecimal rendering of random bytes, as Node's
    `Buffer.toString("hex")` produces it for `crypto.randomBytes(n)`.
    Invite tokens (5 bytes) and temporary passwords (16 bytes) are built
    from it. */
module Hex {
  import opened Wrappers

  type byte = x: nat | x < 256

  predicate IsHexDigit(c: char) {
    '0' <= c <= '9' || 'a' <= c <= 'f'
  }

  predicate IsLowerHex(s: string) {
    forall i :: 0 <= i < |s| ==> IsHexDigit(s[i])
  }

  function DigitChar(n: nat): (c: char)
    requires n < 16
    ensures IsHexDigit(c)
  {
    if n < 10 then '0' + n as char else 'a' + (n - 10) as char
  }

  /** The value of one lower-case hex digit, or None for any other character. */
  function DigitValue(c: char): (r: Option<nat>)
    ensures r.Some? <==> IsHexDigit(c)
    ensures r.Some? ==> r.value < 16 && DigitChar(r.value) == c
  {
    if '0' <= c <= '9' then Some(c as nat - '0' as nat)
    else if 'a' <= c <= 'f' then Some(c as nat - 'a' as nat + 10)
    else None
  }

  lemma DigitRoundTrip(n: nat)
    requires n < 16
    ensures DigitValue(DigitChar(n)) == Some(n)
  {
  }

  lemma NibbleSplit(hi: nat, lo: nat)
    requires hi < 16 && lo < 16
    ensures (hi * 16 + lo) / 16 == hi && (hi * 16 + lo) % 16 == lo
  {
  }

  lemma NibbleJoin(b: byte)
    ensures b / 16 < 16 && (b / 16) * 16 + b % 16 == b
  {
  }

  /** Each byte becomes two digits, high nibble first. */
  function ToHex(bytes: seq<byte>): (s: string)
    ensures |s| == 2 * |bytes|
    ensures IsLowerHex(s)
  {
    if bytes == [] then ""
    else [DigitChar(bytes[0] / 16), DigitChar(bytes[0] % 16)] + ToHex(bytes[1..])
  }

  /** Inverse of ToHex: reads pairs of lower-case hex digits back into bytes. */
  function FromHex(s: string): Option<seq<byte>>
  {
    if s == [] then Some([])
    else if |s| == 1 then None
    else
      var hi, lo, rest := DigitValue(s[0]), DigitValue(s[1]), FromHex(s[2..]);
      if hi.Some? && lo.Some? && rest.Some? then Some([hi.value * 16 + lo.value] + rest.value)
      else None
  }

  lemma FromHexCons(hi: nat, lo: nat, t: string)
    requires hi < 16 && lo < 16
    ensures FromHex([DigitChar(hi), DigitChar(lo)] + t) ==
      if FromHex(t).Some? then Some([hi * 16 + lo] + FromHex(t).value) else None
  {
    var s := [DigitChar(hi), DigitChar(lo)] + t;
    assert s[2..] == t;
    DigitRoundTrip(hi);
    DigitRoundTrip(lo);
  }

  lemma {:induction false} FromHexToHex(bytes: seq<byte>)
    ensures FromHex(ToHex(bytes)) == Some(bytes)
  {
    if bytes != [] {
      var b := bytes[0];
      NibbleJoin(b);
      FromHexToHex(bytes[1..]);
      FromHexCons(b / 16, b % 16, ToHex(bytes[1..]));
      assert [b] + bytes[1..] == bytes;
    }
  }

  lemma {:induction false} ToHexFromHex(s: string, bytes: seq<byte>)
    requires FromHex(s) == Some(bytes)
    ensures ToHex(bytes) == s
    ensures |s| == 2 * |bytes|
  {
    if s != [] {
      var hi := DigitValue(s[0]).value;
      var lo := DigitValue(s[1]).value;
      var rest := FromHex(s[2..]).value;
      ToHexFromHex(s[2..], rest);
      assert bytes == [hi * 16 + lo] + rest;
      NibbleSplit(hi, lo);
      assert s == [s[0], s[1]] + s[2..];
    }
  }

  /** Rendering is injective: different byte strings never give the same text. */
  lemma ToHexInjective(a: seq<byte>, b: seq<byte>)
    requires ToHex(a) == ToHex(b)
    ensures a == b
  {
    FromHexToHex(a);
    FromHexToHex(b);
  }
}
