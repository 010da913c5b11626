/** Base58 by in-place long division, its reference decoder, and the generated passkeys. */
module Base58 {
  import opened Wrappers
  import opened ByteStrings

  type Digit = d: int | 0 <= d < 58

  /** The Bitcoin alphabet, run by run: no `0`, `O`, `I` or `l`. */
  const ALPHABET := "123456789" + "ABCDEFGH" + "JKLMN" + "PQRSTUVWXYZ" + "abcdefghijk" + "mnopqrstuvwxyz"

  /** The zero digit, `ALPHABET[0]`. */
  const ONE := '1'

  const MIN_PASSKEY_BYTES := 16
  const DEFAULT_PASSKEY_BYTES := 24
  const MIN_PASSKEY_LENGTH := 16

  // Numbers: bytes most significant first, base-58 digits least significant first.

  function Number(bytes: seq<Byte>): nat {
    if bytes == [] then 0 else 256 * Number(bytes[..|bytes| - 1]) + bytes[|bytes| - 1]
  }

  function Value(digits: seq<Digit>): nat {
    if digits == [] then 0 else digits[0] + 58 * Value(digits[1..])
  }

  function Push(carry: nat): seq<Digit> {
    if carry == 0 then [] else [carry % 58] + Push(carry / 58)
  }

  /** One round of the long division: `256 * digits + carry`, digit by digit. */
  function MulAdd(digits: seq<Digit>, carry: nat): seq<Digit>
    decreases digits
  {
    if digits == [] then Push(carry)
    else
      var c := digits[0] * 256 + carry;
      [c % 58] + MulAdd(digits[1..], c / 58)
  }

  function Digits(bytes: seq<Byte>): seq<Digit> {
    if bytes == [] then [] else MulAdd(Digits(bytes[..|bytes| - 1]), bytes[|bytes| - 1])
  }

  predicate Canonical(digits: seq<Digit>) {
    digits != [] ==> digits[|digits| - 1] != 0
  }

  lemma {:induction false} PushValue(carry: nat)
    ensures Value(Push(carry)) == carry
    ensures Canonical(Push(carry)) && (carry > 0 ==> Push(carry) != [])
    ensures carry <= 255 ==> |Push(carry)| <= 2
  {
    if carry != 0 {
      PushValue(carry / 58);
      if carry <= 255 { assert Push(carry / 58 / 58) == []; }
    }
  }

  lemma {:induction false} MulAddValue(digits: seq<Digit>, carry: nat)
    ensures Value(MulAdd(digits, carry)) == 256 * Value(digits) + carry
    decreases digits
  {
    if digits == [] {
      PushValue(carry);
    } else {
      var c := digits[0] * 256 + carry;
      MulAddValue(digits[1..], c / 58);
      assert MulAdd(digits, carry)[1..] == MulAdd(digits[1..], c / 58);
    }
  }

  /** Each further byte adds one or two digits, and never a leading zero. */
  lemma {:induction false} MulAddCanonical(digits: seq<Digit>, carry: nat)
    requires Canonical(digits) && carry <= 255
    requires digits != [] || carry > 0
    ensures Canonical(MulAdd(digits, carry))
    ensures |digits| + 1 <= |MulAdd(digits, carry)| <= |digits| + 2
    decreases digits
  {
    if digits == [] {
      PushValue(carry);
    } else {
      var c := digits[0] * 256 + carry;
      MulAddCanonical(digits[1..], c / 58);
    }
  }

  lemma {:induction false} DigitsValue(bytes: seq<Byte>)
    ensures Value(Digits(bytes)) == Number(bytes)
  {
    if bytes != [] {
      DigitsValue(bytes[..|bytes| - 1]);
      MulAddValue(Digits(bytes[..|bytes| - 1]), bytes[|bytes| - 1]);
    }
  }

  lemma {:induction false} DigitsCanonical(bytes: seq<Byte>)
    requires bytes != [] ==> bytes[0] != 0
    ensures Canonical(Digits(bytes))
    ensures |bytes| <= |Digits(bytes)| <= 2 * |bytes|
  {
    if bytes != [] {
      DigitsCanonical(bytes[..|bytes| - 1]);
      MulAddCanonical(Digits(bytes[..|bytes| - 1]), bytes[|bytes| - 1]);
    }
  }

  /** Canonical numerals are equal when their values are. */
  lemma {:induction false} ValueInjective(a: seq<Digit>, b: seq<Digit>)
    requires Canonical(a) && Canonical(b) && Value(a) == Value(b)
    ensures a == b
  {
    PositiveValue(a);
    PositiveValue(b);
    if a != [] {
      assert Value(a) == a[0] + 58 * Value(a[1..]);
      assert Value(b) == b[0] + 58 * Value(b[1..]);
      ValueInjective(a[1..], b[1..]);
    }
  }

  lemma {:induction false} PositiveValue(a: seq<Digit>)
    requires Canonical(a)
    ensures Value(a) == 0 <==> a == []
  {
    if a != [] { PositiveValue(a[1..]); }
  }

  // Text.

  function LeadingZeros(bytes: seq<Byte>): (z: nat)
    ensures z <= |bytes|
    ensures z < |bytes| ==> bytes[z] != 0
    ensures forall i :: 0 <= i < z ==> bytes[i] == 0
  {
    if bytes == [] || bytes[0] != 0 then 0 else 1 + LeadingZeros(bytes[1..])
  }

  function Ones(n: nat): string {
    seq(n, _ => ONE)
  }

  /** Digits most significant first, in a given alphabet. */
  function Render(alphabet: string, digits: seq<Digit>): string
    requires |alphabet| == 58
  {
    if digits == [] then "" else Render(alphabet, digits[1..]) + [alphabet[digits[0]]]
  }

  function Encode(bytes: seq<Byte>): string {
    var z := LeadingZeros(bytes);
    Ones(z) + Render(ALPHABET, Digits(bytes[z..]))
  }

  /** The reference decoder's digit: the alphabet's six runs of consecutive characters. */
  function DigitOf(c: char): Option<Digit> {
    if '1' <= c <= '9' then Some((c - '1') as int)
    else if 'A' <= c <= 'H' then Some((c - 'A') as int + 9)
    else if 'J' <= c <= 'N' then Some((c - 'J') as int + 17)
    else if 'P' <= c <= 'Z' then Some((c - 'P') as int + 22)
    else if 'a' <= c <= 'k' then Some((c - 'a') as int + 33)
    else if 'm' <= c <= 'z' then Some((c - 'm') as int + 44)
    else None
  }

  /** An alphabet the reference decoder reads. */
  ghost predicate Readable(alphabet: string) {
    |alphabet| == 58 && forall d: Digit :: DigitOf(alphabet[d]) == Some(d)
  }

  function CharacterOf(d: Digit): char {
    if d < 9 then '1' + d as char
    else if d < 17 then 'A' + (d - 9) as char
    else if d < 22 then 'J' + (d - 17) as char
    else if d < 33 then 'P' + (d - 22) as char
    else if d < 44 then 'a' + (d - 33) as char
    else 'm' + (d - 44) as char
  }

  lemma LowerHalf(d: Digit)
    requires d < 22
    ensures ALPHABET[d] == CharacterOf(d)
  {
  }

  lemma UpperHalf(d: Digit)
    requires 22 <= d
    ensures ALPHABET[d] == CharacterOf(d)
  {
  }

  lemma CharacterDigit(d: Digit)
    ensures DigitOf(CharacterOf(d)) == Some(d)
  {
  }

  lemma AlphabetReadable()
    ensures Readable(ALPHABET) && ALPHABET[0] == ONE
  {
    forall d: Digit ensures DigitOf(ALPHABET[d]) == Some(d) {
      if d < 22 { LowerHalf(d); } else { UpperHalf(d); }
      CharacterDigit(d);
    }
  }

  function ParseDigits(s: string): Option<nat> {
    if s == "" then Some(0)
    else
      match (ParseDigits(s[..|s| - 1]), DigitOf(s[|s| - 1]))
      case (Some(n), Some(d)) => Some(58 * n + d)
      case _ => None
  }

  function ToBytes(n: nat): seq<Byte> {
    if n == 0 then [] else ToBytes(n / 256) + [n % 256]
  }

  function LeadingOnes(s: string): (z: nat)
    ensures z <= |s|
  {
    if s == "" || s[0] != ONE then 0 else 1 + LeadingOnes(s[1..])
  }

  function Zeros(n: nat): seq<Byte> {
    seq(n, _ => 0)
  }

  /** The reference: each leading `1` is a zero byte, the rest is one big-endian number. */
  function Decode(s: string): Option<seq<Byte>> {
    var z := LeadingOnes(s);
    match ParseDigits(s[z..])
    case Some(n) => Some(Zeros(z) + ToBytes(n))
    case None => None
  }

  lemma {:induction false} ParseRender(alphabet: string, digits: seq<Digit>)
    requires Readable(alphabet)
    ensures ParseDigits(Render(alphabet, digits)) == Some(Value(digits))
    ensures |Render(alphabet, digits)| == |digits|
    ensures digits != [] ==> Render(alphabet, digits)[0] == alphabet[digits[|digits| - 1]]
  {
    if digits != [] {
      ParseRender(alphabet, digits[1..]);
      var s := Render(alphabet, digits);
      assert s[..|s| - 1] == Render(alphabet, digits[1..]);
      assert DigitOf(s[|s| - 1]) == Some(digits[0]);
    }
  }

  lemma {:induction false} BytesOfNumber(bytes: seq<Byte>)
    requires bytes != [] ==> bytes[0] != 0
    ensures ToBytes(Number(bytes)) == bytes
    ensures bytes != [] ==> Number(bytes) > 0
  {
    if bytes != [] {
      BytesOfNumber(bytes[..|bytes| - 1]);
      var n := Number(bytes[..|bytes| - 1]);
      assert (256 * n + bytes[|bytes| - 1]) / 256 == n;
      assert (256 * n + bytes[|bytes| - 1]) % 256 == bytes[|bytes| - 1];
      assert bytes == bytes[..|bytes| - 1] + [bytes[|bytes| - 1]];
    }
  }

  lemma {:induction false} OnesThenOther(n: nat, s: string)
    requires s == "" || s[0] != ONE
    ensures LeadingOnes(Ones(n) + s) == n
  {
    if n != 0 {
      assert (Ones(n) + s)[1..] == Ones(n - 1) + s;
      OnesThenOther(n - 1, s);
    } else {
      assert Ones(n) + s == s;
    }
  }

  /**
   * Exact and canonical: the reference decoder recovers every byte string, including each leading
   * zero, and the first character behind the zero prefix is never `1`.
   */
  lemma RoundTrip(bytes: seq<Byte>)
    ensures Decode(Encode(bytes)) == Some(bytes)
    ensures LeadingOnes(Encode(bytes)) == LeadingZeros(bytes)
    ensures |bytes| <= |Encode(bytes)| <= 2 * |bytes|
  {
    var z := LeadingZeros(bytes);
    var rest, body := bytes[z..], Render(ALPHABET, Digits(bytes[z..]));
    AlphabetReadable();
    NumberRoundTrip(ALPHABET, rest);
    Reassembled(z, body, rest);
    ZeroPrefix(bytes);
  }

  lemma ZeroPrefix(bytes: seq<Byte>)
    ensures Zeros(LeadingZeros(bytes)) + bytes[LeadingZeros(bytes)..] == bytes
  {
    ZerosThenRest(bytes, LeadingZeros(bytes));
  }

  lemma ZerosThenRest(bytes: seq<Byte>, z: nat)
    requires z <= |bytes| && forall i :: 0 <= i < z ==> bytes[i] == 0
    ensures Zeros(z) + bytes[z..] == bytes
  {
  }

  lemma Reassembled(z: nat, body: string, rest: seq<Byte>)
    requires ParseDigits(body) == Some(Number(rest)) && ToBytes(Number(rest)) == rest
    requires body == "" || body[0] != ONE
    ensures Decode(Ones(z) + body) == Some(Zeros(z) + rest)
    ensures LeadingOnes(Ones(z) + body) == z
  {
    OnesThenOther(z, body);
    assert (Ones(z) + body)[z..] == body;
  }

  lemma NumberRoundTrip(alphabet: string, rest: seq<Byte>)
    requires Readable(alphabet) && alphabet[0] == ONE
    requires rest != [] ==> rest[0] != 0
    ensures var body := Render(alphabet, Digits(rest));
            && ParseDigits(body) == Some(Number(rest)) && ToBytes(Number(rest)) == rest
            && |rest| <= |body| <= 2 * |rest|
            && (body != "" ==> body[0] != ONE)
  {
    var digits := Digits(rest);
    DigitsCanonical(rest);
    DigitsValue(rest);
    BytesOfNumber(rest);
    ParseRender(alphabet, digits);
    if digits != [] {
      assert DigitOf(alphabet[digits[|digits| - 1]]) == Some(digits[|digits| - 1]) && DigitOf(alphabet[0]) == Some(0);
    }
  }

  lemma EncodeInjective(a: seq<Byte>, b: seq<Byte>)
    requires Encode(a) == Encode(b)
    ensures a == b
  {
    RoundTrip(a);
    RoundTrip(b);
  }

  // The other way round: every readable text is an encoding.

  /** The digits of a text, least significant first. */
  function TextDigits(s: string): seq<Digit>
    requires ParseDigits(s).Some?
  {
    if s == "" then [] else [DigitOf(s[|s| - 1]).value] + TextDigits(s[..|s| - 1])
  }

  /** An alphabet the reference decoder reads, and nothing else. */
  ghost predicate OnlyReadable(alphabet: string) {
    Readable(alphabet) && forall c: char :: DigitOf(c).Some? ==> alphabet[DigitOf(c).value] == c
  }

  lemma DigitCharacter(c: char)
    requires DigitOf(c).Some?
    ensures CharacterOf(DigitOf(c).value) == c
  {
  }

  lemma AlphabetOnlyReadable()
    ensures OnlyReadable(ALPHABET)
  {
    AlphabetReadable();
    forall c: char | DigitOf(c).Some? ensures ALPHABET[DigitOf(c).value] == c {
      var d := DigitOf(c).value;
      if d < 22 { LowerHalf(d); } else { UpperHalf(d); }
      DigitCharacter(c);
    }
  }

  lemma {:induction false} RenderText(alphabet: string, s: string)
    requires OnlyReadable(alphabet) && ParseDigits(s).Some?
    ensures Render(alphabet, TextDigits(s)) == s
    ensures Value(TextDigits(s)) == ParseDigits(s).value
    ensures |TextDigits(s)| == |s|
    ensures s != "" ==> DigitOf(s[0]) == Some(TextDigits(s)[|s| - 1])
  {
    if s != "" {
      var front := s[..|s| - 1];
      RenderText(alphabet, front);
      assert TextDigits(s)[1..] == TextDigits(front);
      assert s == front + [s[|s| - 1]];
    }
  }

  lemma {:induction false} NumberOfBytes(n: nat)
    ensures Number(ToBytes(n)) == n
    ensures n > 0 ==> ToBytes(n) != [] && ToBytes(n)[0] != 0
  {
    if n > 0 {
      NumberOfBytes(n / 256);
      assert ToBytes(n)[..|ToBytes(n)| - 1] == ToBytes(n / 256);
    }
  }

  lemma {:induction false} ZerosThenOther(z: nat, rest: seq<Byte>)
    requires rest != [] ==> rest[0] != 0
    ensures LeadingZeros(Zeros(z) + rest) == z && (Zeros(z) + rest)[z..] == rest
  {
    if z != 0 {
      assert (Zeros(z) + rest)[1..] == Zeros(z - 1) + rest;
      ZerosThenOther(z - 1, rest);
    } else {
      assert Zeros(z) + rest == rest;
    }
  }

  lemma {:induction false} LeadingOnesAre(s: string)
    ensures forall i :: 0 <= i < LeadingOnes(s) ==> s[i] == ONE
    ensures LeadingOnes(s) < |s| ==> s[LeadingOnes(s)] != ONE
  {
    if s != "" && s[0] == ONE {
      LeadingOnesAre(s[1..]);
      forall i | 0 < i < LeadingOnes(s) ensures s[i] == ONE { assert s[i] == s[1..][i - 1]; }
    }
  }

  lemma OnesInFront(s: string)
    ensures Ones(LeadingOnes(s)) + s[LeadingOnes(s)..] == s
    ensures LeadingOnes(s) < |s| ==> s[LeadingOnes(s)] != ONE
  {
    LeadingOnesAre(s);
    OnesThenRest(s, LeadingOnes(s));
  }

  lemma OnesThenRest(s: string, z: nat)
    requires z <= |s| && forall i :: 0 <= i < z ==> s[i] == ONE
    ensures Ones(z) + s[z..] == s
  {
  }

  lemma BodyIsDigits(alphabet: string, body: string)
    requires OnlyReadable(alphabet) && alphabet[0] == ONE
    requires ParseDigits(body).Some? && (body != "" ==> body[0] != ONE)
    ensures Render(alphabet, Digits(ToBytes(ParseDigits(body).value))) == body
  {
    var n := ParseDigits(body).value;
    RenderText(alphabet, body);
    NumberOfBytes(n);
    DigitsValue(ToBytes(n));
    DigitsCanonical(ToBytes(n));
    assert body != "" ==> alphabet[TextDigits(body)[|body| - 1]] == body[0];
    ValueInjective(TextDigits(body), Digits(ToBytes(n)));
  }

  /** Every text the reference decoder reads is the encoding of what it reads: encoding is a bijection. */
  lemma DecodeThenEncode(s: string)
    requires Decode(s).Some?
    ensures Encode(Decode(s).value) == s
  {
    var z := LeadingOnes(s);
    var body := s[z..];
    var n := ParseDigits(body).value;
    AlphabetReadable();
    AlphabetOnlyReadable();
    OnesInFront(s);
    NumberOfBytes(n);
    ZerosThenOther(z, ToBytes(n));
    BodyIsDigits(ALPHABET, body);
  }

  lemma MulAddStep(digits: seq<Digit>, j: nat, carry: nat)
    requires j < |digits|
    ensures var c := carry + digits[j] as int * 256;
            MulAdd(digits[j..], carry) == [c % 58] + MulAdd(digits[j + 1..], c / 58)
  {
    assert digits[j..][1..] == digits[j + 1..];
  }

  /**
   * One byte through the in-place carry loops. Every intermediate stays below 14848 and every
   * carry below 256, so truncation to 32 bits never bites; at most two digits are appended.
   */
  method CarryByte(before: seq<Digit>, byte: Byte) returns (digits: seq<Digit>)
    ensures digits == MulAdd(before, byte)
  {
    digits := before;
    var carry: nat := byte;
    var j := 0;
    while j < |digits|
      invariant 0 <= j <= |digits| == |before|
      invariant carry <= 255
      invariant digits[j..] == before[j..]
      invariant digits[..j] + MulAdd(before[j..], carry) == MulAdd(before, byte)
    {
      ghost var written := digits[..j];
      assert digits[j] == digits[j..][0] == before[j];
      MulAddStep(before, j, carry);
      carry := carry + digits[j] as int * 256;
      assert carry <= 14847;
      digits := digits[j := carry % 58];
      carry := carry / 58;
      assert digits[..j + 1] == written + [digits[j]];
      assert digits[j + 1..] == before[j + 1..];
      j := j + 1;
    }
    assert before[j..] == [] && digits[..j] == digits;
    digits := PushCarry(digits, carry);
  }

  /** What is left of the carry, appended digit by digit. */
  method PushCarry(before: seq<Digit>, last: nat) returns (digits: seq<Digit>)
    requires last <= 255
    ensures digits == before + Push(last) && |digits| <= |before| + 2
  {
    digits := before;
    var carry := last;
    PushValue(last);
    while carry > 0
      invariant digits + Push(carry) == before + Push(last)
      decreases carry
    {
      assert Push(carry) == [carry % 58] + Push(carry / 58);
      assert digits + Push(carry) == digits + [carry % 58] + Push(carry / 58);
      digits := digits + [carry % 58];
      carry := carry / 58;
    }
    assert digits + Push(0) == digits;
  }

  /** Between bytes, `digits` is the base-58 numeral of the bytes read so far. */
  method EncodeBase58(bytes: seq<Byte>) returns (out: string)
    ensures out == Encode(bytes)
  {
    if |bytes| == 0 {
      assert Encode(bytes) == "";
      return "";
    }
    var zeros := 0;
    while zeros < |bytes| && bytes[zeros] == 0
      invariant 0 <= zeros <= |bytes|
      invariant forall i :: 0 <= i < zeros ==> bytes[i] == 0
    {
      zeros := zeros + 1;
    }
    assert zeros == LeadingZeros(bytes);
    var digits: seq<Digit> := [];
    var i := zeros;
    while i < |bytes|
      invariant zeros <= i <= |bytes|
      invariant digits == Digits(bytes[zeros..i])
    {
      digits := CarryByte(digits, bytes[i]);
      i := i + 1;
      assert bytes[zeros..i][..|bytes[zeros..i]| - 1] == bytes[zeros..i - 1];
    }
    assert bytes[zeros..i] == bytes[zeros..];
    AlphabetReadable();
    out := Assemble(ALPHABET, zeros, digits);
  }

  /** One `1` per zero byte, then the digits most significant first. */
  method Assemble(alphabet: string, zeros: nat, digits: seq<Digit>) returns (out: string)
    requires |alphabet| == 58 && alphabet[0] == ONE
    ensures out == Ones(zeros) + Render(alphabet, digits)
  {
    out := "";
    var i := 0;
    while i < zeros
      invariant 0 <= i <= zeros && out == Ones(i)
    {
      out := out + [alphabet[0]];
      i := i + 1;
    }
    i := |digits| - 1;
    while i >= 0
      invariant -1 <= i < |digits|
      invariant out == Ones(zeros) + Render(alphabet, digits[i + 1..])
    {
      assert digits[i..][1..] == digits[i + 1..];
      out := out + [alphabet[digits[i]]];
      i := i - 1;
    }
    assert digits[i + 1..] == digits;
  }

  // Passkeys.

  datatype JsNumber = NaN | Infinite | Finite(r: real)

  function NormalizeBytes(requested: JsNumber): (n: nat)
    ensures n >= MIN_PASSKEY_BYTES
  {
    match requested
    case Finite(r) => if r.Floor > MIN_PASSKEY_BYTES then r.Floor else MIN_PASSKEY_BYTES
    case _ => DEFAULT_PASSKEY_BYTES
  }

  function CheckPasskeyLength(passkey: string): Option<string> {
    if |passkey| < MIN_PASSKEY_LENGTH then Some("Passkey too short") else None
  }

  /** Whatever was asked for and whatever the random source returned, the passkey is long enough. */
  method GenerateStrongPasskey(requested: JsNumber, random: seq<Byte>) returns (passkey: string)
    requires |random| == NormalizeBytes(requested)
    ensures CheckPasskeyLength(passkey).None?
    ensures Decode(passkey) == Some(random)
  {
    RoundTrip(random);
    passkey := EncodeBase58(random);
  }
}
