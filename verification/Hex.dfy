/** Hexadecimal text: what signatures and keys travel as. */
module Hex {
  import opened Wrappers
  import opened ByteStrings

  predicate IsHexDigit(c: char) {
    '0' <= c <= '9' || 'a' <= c <= 'f' || 'A' <= c <= 'F'
  }

  function Nibble(c: char): (n: nat)
    requires IsHexDigit(c)
    ensures n < 16
  {
    if c <= '9' then c as int - '0' as int
    else if c <= 'F' then c as int - 'A' as int + 10
    else c as int - 'a' as int + 10
  }

  predicate AllHex(s: string) {
    forall i :: 0 <= i < |s| ==> IsHexDigit(s[i])
  }

  /** Without its optional prefix. */
  function Clean(hex: string): string {
    if |hex| >= 2 && hex[..2] == "0x" then hex[2..] else hex
  }

  /** Defined exactly on an even number of digits of either case, behind an optional prefix. */
  function FromHex(hex: string): Option<Bytes> {
    var clean := Clean(hex);
    if |clean| % 2 != 0 || !AllHex(clean) then None
    else Some(seq(|clean| / 2, i requires 0 <= i < |clean| / 2 => 16 * Nibble(clean[2 * i]) + Nibble(clean[2 * i + 1])))
  }

  method HexToBytes(hex: string) returns (r: Option<Bytes>)
    ensures r == FromHex(hex)
  {
    var clean := Clean(hex);
    if |clean| % 2 != 0 { return None; }
    var i := 0;
    while i < |clean|
      invariant 0 <= i <= |clean| && AllHex(clean[..i])
    {
      if !IsHexDigit(clean[i]) { return None; }
      assert clean[..i + 1] == clean[..i] + [clean[i]];
      i := i + 1;
    }
    assert clean[..i] == clean;
    var out := new Byte[|clean| / 2];
    i := 0;
    while i < out.Length
      invariant 0 <= i <= out.Length
      invariant forall k :: 0 <= k < i ==> out[k] == 16 * Nibble(clean[2 * k]) + Nibble(clean[2 * k + 1])
    {
      out[i] := 16 * Nibble(clean[2 * i]) + Nibble(clean[2 * i + 1]);
      i := i + 1;
    }
    r := Some(out[..]);
    assert out[..] == FromHex(hex).value;
  }

  const DIGITS := "0123456789abcdef"

  function ToHex(b: Bytes): string {
    if b == [] then "" else ToHex(b[..|b| - 1]) + [DIGITS[b[|b| - 1] / 16], DIGITS[b[|b| - 1] % 16]]
  }

  lemma DigitBack(n: nat)
    requires n < 16
    ensures IsHexDigit(DIGITS[n]) && Nibble(DIGITS[n]) == n && DIGITS[n] != 'x'
  {
  }

  lemma {:induction false} ToHexDigits(b: Bytes)
    ensures |ToHex(b)| == 2 * |b| && AllHex(ToHex(b))
    ensures forall i :: 0 <= i < |b| ==> 16 * Nibble(ToHex(b)[2 * i]) + Nibble(ToHex(b)[2 * i + 1]) == b[i]
  {
    if b != [] {
      var front, last := b[..|b| - 1], b[|b| - 1];
      ToHexDigits(front);
      DigitBack(last / 16);
      DigitBack(last % 16);
      var s := ToHex(b);
      forall i | 0 <= i < |b| ensures 16 * Nibble(s[2 * i]) + Nibble(s[2 * i + 1]) == b[i] {
        if i < |front| {
          assert s[2 * i] == ToHex(front)[2 * i] && s[2 * i + 1] == ToHex(front)[2 * i + 1] && front[i] == b[i];
        }
      }
    }
  }

  lemma CleanDigits(s: string)
    requires AllHex(s)
    ensures Clean(s) == s && Clean("0x" + s) == s
  {
    assert |s| >= 2 ==> s[..2][1] == s[1];
    assert "0x"[1] == 'x';
  }

  lemma ReadDigits(s: string, b: Bytes)
    requires |s| == 2 * |b| && AllHex(s)
    requires forall i :: 0 <= i < |b| ==> 16 * Nibble(s[2 * i]) + Nibble(s[2 * i + 1]) == b[i]
    ensures FromHex(s) == Some(b) && FromHex("0x" + s) == Some(b)
  {
    CleanDigits(s);
    assert FromHex(s).value == b;
  }

  /** Reading back what was written, with or without the prefix, recovers every byte string. */
  lemma HexRoundTrip(b: Bytes)
    ensures FromHex(ToHex(b)) == Some(b) && FromHex("0x" + ToHex(b)) == Some(b)
  {
    ToHexDigits(b);
    ReadDigits(ToHex(b), b);
  }
}
