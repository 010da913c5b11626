/** Ciphertext framing `b64url(iv):b64url(ct)` (RFC 4648, section 5). */
module Framing {
  import opened Wrappers
  import opened ByteStrings
  import opened Strings

  type Sextet = n: int | 0 <= n < 64

  function Glyph(n: Sextet): char {
    if n < 26 then 'A' + n as char
    else if n < 52 then 'a' + (n - 26) as char
    else if n < 62 then '0' + (n - 52) as char
    else if n == 62 then '+' else '/'
  }

  function SextetOf(c: char): Option<Sextet> {
    if 'A' <= c <= 'Z' then Some((c - 'A') as int)
    else if 'a' <= c <= 'z' then Some((c - 'a') as int + 26)
    else if '0' <= c <= '9' then Some((c - '0') as int + 52)
    else if c == '+' then Some(62) else if c == '/' then Some(63) else None
  }

  /** Three bytes to four sextets, a rest of one or two bytes to two or three. */
  function Pack(b: seq<Byte>): seq<Sextet> {
    if |b| == 0 then []
    else if |b| == 1 then [b[0] / 4, b[0] % 4 * 16]
    else if |b| == 2 then [b[0] / 4, b[0] % 4 * 16 + b[1] / 16, b[1] % 16 * 4]
    else Four(b[0], b[1], b[2]) + Pack(b[3..])
  }

  function Four(x: Byte, y: Byte, z: Byte): (n: seq<Sextet>)
    ensures |n| == 4
  {
    [x / 4, x % 4 * 16 + y / 16, y % 16 * 4 + z / 64, z % 64]
  }

  function Three(n: seq<Sextet>): (b: seq<Byte>)
    requires |n| == 4
    ensures |b| == 3
  {
    [n[0] as int * 4 + n[1] as int / 16, n[1] as int % 16 * 16 + n[2] as int / 4, n[2] as int % 4 * 64 + n[3] as int]
  }

  /** Whole bytes of a sextet string; left-over bits are dropped. */
  function Unpack(n: seq<Sextet>): seq<Byte> {
    if |n| < 2 then []
    else if |n| == 2 then [n[0] as int * 4 + n[1] as int / 16]
    else if |n| == 3 then [n[0] as int * 4 + n[1] as int / 16, n[1] as int % 16 * 16 + n[2] as int / 4]
    else Three(n[..4]) + Unpack(n[4..])
  }

  function Text(n: seq<Sextet>): string {
    seq(|n|, i requires 0 <= i < |n| => Glyph(n[i]))
  }

  /** Base64 without padding. */
  function Unpadded(b: seq<Byte>): string {
    Text(Pack(b))
  }

  function Padding(length: nat): string {
    match length % 4 case 2 => "==" case 3 => "=" case 1 => "===" case _ => ""
  }

  /** `btoa`. */
  function Btoa(b: seq<Byte>): string {
    Unpadded(b) + Padding(|Unpadded(b)|)
  }

  function Sextets(s: string): Option<seq<Sextet>> {
    if Standard(s) then Some(seq(|s|, i requires 0 <= i < |s| => SextetOf(s[i]).value)) else None
  }

  predicate Standard(s: string) {
    forall i :: 0 <= i < |s| ==> SextetOf(s[i]).Some?
  }

  function DropPadding(s: string, most: nat): string {
    if most > 0 && s != "" && s[|s| - 1] == '=' then DropPadding(s[..|s| - 1], most - 1) else s
  }

  predicate Blank(c: char) {
    c == ' ' || c == '\t' || c == '\n' || c == '\r' || c == '\U{c}'
  }

  function WithoutBlanks(s: string): string {
    if s == "" then ""
    else WithoutBlanks(s[..|s| - 1]) + if Blank(s[|s| - 1]) then "" else [s[|s| - 1]]
  }

  /**
   * `atob`, the forgiving decoder: blanks are dropped; a length divisible by four may end in up to
   * two `=`; after that a lone last character or any other character is an error.
   */
  function Atob(s: string): Option<seq<Byte>> {
    var t := WithoutBlanks(s);
    Decoded(if |t| % 4 == 0 then DropPadding(t, 2) else t)
  }

  function Decoded(t: string): Option<seq<Byte>> {
    if |t| % 4 == 1 then None
    else
      match Sextets(t)
      case Some(n) => Some(Unpack(n))
      case None => None
  }

  function Replace(s: string, from: char, to: char): string {
    seq(|s|, i requires 0 <= i < |s| => if s[i] == from then to else s[i])
  }

  function B64UrlEncode(b: seq<Byte>): string {
    var s := Replace(Replace(Btoa(b), '+', '-'), '/', '_');
    DropPadding(s, |s|)
  }

  /** The padding a length calls for. */
  function Restored(length: nat): string {
    if length % 4 != 0 then seq(4 - length % 4, _ => '=') else ""
  }

  function B64UrlDecode(s: string): Option<seq<Byte>> {
    Atob(Replace(Replace(s, '-', '+'), '_', '/') + Restored(|s|))
  }

  lemma GlyphRoundTrip(n: Sextet)
    ensures SextetOf(Glyph(n)) == Some(n)
    ensures Glyph(n) != '-' && Glyph(n) != '_' && Glyph(n) != '=' && Glyph(n) != ':'
  {
  }

  lemma TextStandard(n: seq<Sextet>)
    ensures Standard(Text(n)) && Sextets(Text(n)) == Some(n)
  {
    forall i | 0 <= i < |n| ensures SextetOf(Text(n)[i]) == Some(n[i]) { GlyphRoundTrip(n[i]); }
    var s := Text(n);
    assert seq(|s|, i requires 0 <= i < |s| => SextetOf(s[i]).value) == n;
  }

  lemma {:induction false} PackRoundTrip(b: seq<Byte>)
    ensures Unpack(Pack(b)) == b
    ensures |Pack(b)| % 4 != 1
  {
    if |b| < 3 {
      ShortRoundTrip(b);
    } else {
      PackRoundTrip(b[3..]);
      FourFirst(b[0], b[1], b[2], Pack(b[3..]));
      assert b == [b[0], b[1], b[2]] + b[3..];
    }
  }

  lemma ShortRoundTrip(b: seq<Byte>)
    requires |b| < 3
    ensures Unpack(Pack(b)) == b && |Pack(b)| % 4 != 1
  {
    if |b| == 2 { First(b[0], b[1]); }
  }

  lemma FourFirst(x: Byte, y: Byte, z: Byte, rest: seq<Sextet>)
    ensures Unpack(Four(x, y, z) + rest) == [x, y, z] + Unpack(rest)
  {
    var n := Four(x, y, z);
    assert (n + rest)[..4] == n && (n + rest)[4..] == rest;
    FourThree(x, y, z);
  }

  lemma FourThree(x: Byte, y: Byte, z: Byte)
    ensures Three(Four(x, y, z)) == [x, y, z]
  {
    First(x, y);
    Second(x, y, z);
    Third(y, z);
  }

  lemma First(x: int, y: int)
    requires 0 <= x < 256 && 0 <= y < 256
    ensures x / 4 * 4 + (x % 4 * 16 + y / 16) / 16 == x
  {
  }

  lemma Second(x: int, y: int, z: int)
    requires 0 <= x < 256 && 0 <= y < 256 && 0 <= z < 256
    ensures (x % 4 * 16 + y / 16) % 16 * 16 + (y % 16 * 4 + z / 64) / 4 == y
  {
  }

  lemma Third(y: int, z: int)
    requires 0 <= y < 256 && 0 <= z < 256
    ensures (y % 16 * 4 + z / 64) % 4 * 64 + z % 64 == z
  {
  }

  lemma {:induction false} DropsExactly(s: string, pad: string, most: nat)
    requires Standard(s) && |pad| <= most && forall i :: 0 <= i < |pad| ==> pad[i] == '='
    ensures DropPadding(s + pad, most) == s
    decreases |pad|
  {
    var t := s + pad;
    if pad != "" {
      assert t[..|t| - 1] == s + pad[..|pad| - 1];
      DropsExactly(s, pad[..|pad| - 1], most - 1);
    } else {
      assert t == s;
      if s != "" { assert SextetOf(s[|s| - 1]).Some?; }
    }
  }

  function ToUrl(s: string): string {
    Replace(Replace(s, '+', '-'), '/', '_')
  }

  function FromUrl(s: string): string {
    Replace(Replace(s, '-', '+'), '_', '/')
  }

  /** The URL alphabet is as good as the standard one, and the padding is recoverable from the length. */
  lemma EncodeIsUnpadded(b: seq<Byte>)
    ensures B64UrlEncode(b) == ToUrl(Unpadded(b))
    ensures FromUrl(ToUrl(Unpadded(b))) == Unpadded(b)
    ensures Free(':', B64UrlEncode(b))
  {
    var u := Unpadded(b);
    TextStandard(Pack(b));
    var pad := Padding(|u|);
    assert ToUrl(u + pad) == ToUrl(u) + pad;
    UrlDrops(u, pad);
    assert FromUrl(ToUrl(u)) == u by {
      forall i | 0 <= i < |u| ensures FromUrl(ToUrl(u))[i] == u[i] {
        assert SextetOf(u[i]).Some?;
      }
    }
    forall i | 0 <= i < |u| ensures ToUrl(u)[i] != ':' {
      assert SextetOf(u[i]).Some?;
    }
  }

  lemma {:induction false} UrlDrops(u: string, pad: string)
    requires Standard(u) && |pad| <= 3 && forall i :: 0 <= i < |pad| ==> pad[i] == '='
    ensures DropPadding(ToUrl(u) + pad, |ToUrl(u) + pad|) == ToUrl(u)
  {
    UrlDropsMost(u, pad, |u| + |pad|);
  }

  lemma {:induction false} UrlDropsMost(u: string, pad: string, most: nat)
    requires Standard(u) && |pad| <= most && forall i :: 0 <= i < |pad| ==> pad[i] == '='
    ensures DropPadding(ToUrl(u) + pad, most) == ToUrl(u)
    decreases |pad|
  {
    var t := ToUrl(u) + pad;
    if pad != "" {
      assert t[..|t| - 1] == ToUrl(u) + pad[..|pad| - 1];
      UrlDropsMost(u, pad[..|pad| - 1], most - 1);
    } else {
      assert t == ToUrl(u);
      if u != "" { assert SextetOf(u[|u| - 1]).Some?; }
    }
  }

  lemma AtobOf(u: string, pad: string, n: seq<Sextet>)
    requires Standard(u) && Sextets(u) == Some(n) && |u| % 4 != 1
    requires (|u| + |pad|) % 4 == 0 && |pad| <= 2 && forall i :: 0 <= i < |pad| ==> pad[i] == '='
    ensures Atob(u + pad) == Some(Unpack(n))
  {
    DropsExactly(u, pad, 2);
    DecodedText(u, n);
    forall i | 0 <= i < |u + pad| ensures !Blank((u + pad)[i]) {
      if i < |u| { assert SextetOf(u[i]).Some?; }
    }
    NoBlanks(u + pad);
    AtobPadded(u + pad, u);
  }

  lemma {:induction false} NoBlanks(s: string)
    requires forall i :: 0 <= i < |s| ==> !Blank(s[i])
    ensures WithoutBlanks(s) == s
  {
    if s != "" { NoBlanks(s[..|s| - 1]); }
  }

  lemma RestoredLength(k: nat)
    requires k % 4 != 1
    ensures (k + |Restored(k)|) % 4 == 0 && |Restored(k)| <= 2
    ensures forall i :: 0 <= i < |Restored(k)| ==> Restored(k)[i] == '='
  {
  }

  lemma DecodedText(t: string, n: seq<Sextet>)
    requires |t| % 4 != 1 && Sextets(t) == Some(n)
    ensures Decoded(t) == Some(Unpack(n))
  {
  }

  lemma AtobPadded(s: string, t: string)
    requires WithoutBlanks(s) == s && |s| % 4 == 0 && DropPadding(s, 2) == t
    ensures Atob(s) == Decoded(t)
  {
  }

  lemma DecodesAs(s: string, u: string)
    requires FromUrl(s) == u && |s| == |u|
    ensures B64UrlDecode(s) == Atob(u + Restored(|u|))
  {
  }

  /** Unpadded base64url decodes to the bytes it encodes, the padding restored from the length. */
  lemma B64UrlRoundTrip(b: seq<Byte>)
    ensures B64UrlDecode(B64UrlEncode(b)) == Some(b)
  {
    EncodeIsUnpadded(b);
    PackRoundTrip(b);
    TextStandard(Pack(b));
    RestoredLength(|Pack(b)|);
    AtobOf(Unpadded(b), Restored(|Pack(b)|), Pack(b));
    DecodesAs(B64UrlEncode(b), Unpadded(b));
  }

  // The frame around one ciphertext.

  datatype Opened = Opened(iv: seq<Byte>, ct: seq<Byte>) | Malformed

  function Seal(iv: seq<Byte>, ct: seq<Byte>): string {
    B64UrlEncode(iv) + ":" + B64UrlEncode(ct)
  }

  function Open(ciphertext: string): Opened {
    var parts := Split(':', ciphertext);
    if |parts| != 2 then Malformed
    else
      match (B64UrlDecode(parts[0]), B64UrlDecode(parts[1]))
      case (Some(iv), Some(ct)) => Opened(iv, ct)
      case _ => Malformed
  }

  /** Every sealed pair splits into exactly two parts that decode to the same bytes. */
  lemma FrameRoundTrip(iv: seq<Byte>, ct: seq<Byte>)
    ensures |Split(':', Seal(iv, ct))| == 2
    ensures Open(Seal(iv, ct)) == Opened(iv, ct)
  {
    var x, y := B64UrlEncode(iv), B64UrlEncode(ct);
    EncodeIsUnpadded(iv);
    EncodeIsUnpadded(ct);
    B64UrlRoundTrip(iv);
    B64UrlRoundTrip(ct);
    IndexOfAbsent(':', x);
    IndexOfAbsent(':', y);
    SplitJoin(':', x, y);
    assert Seal(iv, ct) == x + [':'] + y;
    assert Split(':', x) + Split(':', y) == [x, y];
  }
}
