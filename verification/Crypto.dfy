/** Encryption of short texts into strings that can stand in a URL: padding, a block cipher
    chained over the blocks, base64 (section 4 of RFC 4648) and other characters for the
    three that a URL does not take. */
module Crypto {
  import opened Basics
  import Numerals

  type Byte = x: int | 0 <= x < 256

  type Bytes = seq<Byte>

  const BLOCK: nat := 16

  // ------------------------------------------------------------- the padding

  function Zeros(n: nat): (z: Bytes)
    ensures |z| == n && forall i :: 0 <= i < n ==> z[i] == 0
  {
    seq(n, _ => 0)
  }

  function Pad(pt: Bytes): Bytes {
    pt + [1] + Zeros(BLOCK - (|pt| + 1) % BLOCK)
  }

  /** Without the zero bytes at the end. */
  function StripZeros(s: Bytes): Bytes {
    if s != [] && s[|s| - 1] == 0 then StripZeros(s[..|s| - 1]) else s
  }

  function Unpad(s: Bytes): Bytes {
    var t := StripZeros(s);
    if t == [] then [] else t[..|t| - 1]
  }

  lemma {:induction false} StripAfterZeros(s: Bytes, n: nat)
    requires s != [] && s[|s| - 1] != 0
    ensures StripZeros(s + Zeros(n)) == s
  {
    if n == 0 {
      assert s + Zeros(0) == s;
    } else {
      StripAfterZeros(s, n - 1);
      assert (s + Zeros(n))[..|s + Zeros(n)| - 1] == s + Zeros(n - 1);
    }
  }

  lemma UnpadPad(pt: Bytes)
    ensures Unpad(Pad(pt)) == pt
  {
    StripAfterZeros(pt + [1], BLOCK - (|pt| + 1) % BLOCK);
  }

  /** Padding always adds at least one zero byte, so a text that one byte would fill up gets a
      whole block of zeros more. */
  lemma PaddedLength(pt: Bytes)
    ensures |Pad(pt)| % BLOCK == 0 && |pt| + 2 <= |Pad(pt)| <= |pt| + 17
    ensures |Pad(pt)| == |pt| + 17 <==> |pt| % BLOCK == 15
  {
  }

  // -------------------------------------------------------------- the cipher

  function XorBits(a: nat, b: nat, n: nat): nat {
    if n == 0 then 0 else (a + b) % 2 + 2 * XorBits(a / 2, b / 2, n - 1)
  }

  function Pow2(n: nat): nat {
    if n == 0 then 1 else 2 * Pow2(n - 1)
  }

  lemma {:induction false} XorBound(a: nat, b: nat, n: nat)
    ensures XorBits(a, b, n) < Pow2(n)
  {
    if n > 0 {
      XorBound(a / 2, b / 2, n - 1);
    }
  }

  lemma {:induction false} XorTwice(a: nat, b: nat, n: nat)
    requires a < Pow2(n)
    ensures XorBits(XorBits(a, b, n), b, n) == a
  {
    if n > 0 {
      hide XorBits;
      XorTwice(a / 2, b / 2, n - 1);
      XorStep(a, b, n);
      XorStep(XorBits(a, b, n), b, n);
      FirstBit(a, b, XorBits(a / 2, b / 2, n - 1));
    }
  }

  lemma XorStep(a: nat, b: nat, n: nat)
    requires n > 0
    ensures XorBits(a, b, n) == (a + b) % 2 + 2 * XorBits(a / 2, b / 2, n - 1)
  {
  }

  lemma FirstBit(a: nat, b: nat, x: nat)
    ensures var y := (a + b) % 2 + 2 * x; y / 2 == x && (y + b) % 2 == a % 2 && a == a % 2 + 2 * (a / 2)
  {
  }

  function XorByte(a: Byte, b: Byte): Byte {
    XorBound(a, b, 8);
    assert Pow2(8) == 256 by { assert Pow2(4) == 16; }
    XorBits(a, b, 8)
  }

  lemma XorByteTwice(a: Byte, b: Byte)
    ensures XorByte(XorByte(a, b), b) == a
  {
    assert Pow2(8) == 256 by { assert Pow2(4) == 16; }
    XorTwice(a, b, 8);
  }

  function Xor(s: Bytes, t: Bytes): (r: Bytes)
    requires |s| == |t|
    ensures |r| == |s| && forall i :: 0 <= i < |r| ==> r[i] == XorByte(s[i], t[i])
  {
    seq(|s|, i requires 0 <= i < |s| => XorByte(s[i], t[i]))
  }

  lemma XorUndoes(s: Bytes, t: Bytes)
    requires |s| == |t|
    ensures Xor(Xor(s, t), t) == s
  {
    forall i | 0 <= i < |s|
      ensures Xor(Xor(s, t), t)[i] == s[i]
    {
      XorByteTwice(s[i], t[i]);
    }
  }

  /** A block cipher with its key: any permutation of the blocks, with its inverse. */
  ghost predicate IsCipher(enc: Bytes -> Bytes, dec: Bytes -> Bytes) {
    && (forall b :: |b| == BLOCK ==> |enc(b)| == BLOCK)
    && (forall b :: |b| == BLOCK ==> |dec(b)| == BLOCK)
    && (forall b :: |b| == BLOCK ==> dec(enc(b)) == b)
  }

  predicate Whole(s: Bytes) { |s| % BLOCK == 0 }

  /** Every block is combined with the one before it and encrypted. */
  function Chain(enc: Bytes -> Bytes, prior: Bytes, text: Bytes): Bytes
    requires |prior| == BLOCK && Whole(text) && forall b :: |b| == BLOCK ==> |enc(b)| == BLOCK
    decreases |text|
  {
    if text == [] then []
    else
      var c := enc(Xor(text[..BLOCK], prior));
      c + Chain(enc, c, text[BLOCK..])
  }

  function Unchain(dec: Bytes -> Bytes, prior: Bytes, text: Bytes): Bytes
    requires |prior| == BLOCK && Whole(text) && forall b :: |b| == BLOCK ==> |dec(b)| == BLOCK
    decreases |text|
  {
    if text == [] then [] else Xor(dec(text[..BLOCK]), prior) + Unchain(dec, text[..BLOCK], text[BLOCK..])
  }

  lemma {:induction false} ChainLength(enc: Bytes -> Bytes, prior: Bytes, text: Bytes)
    requires |prior| == BLOCK && Whole(text) && forall b :: |b| == BLOCK ==> |enc(b)| == BLOCK
    ensures |Chain(enc, prior, text)| == |text|
    decreases |text|
  {
    if text != [] {
      ChainLength(enc, enc(Xor(text[..BLOCK], prior)), text[BLOCK..]);
    }
  }

  lemma ChainStep(enc: Bytes -> Bytes, prior: Bytes, block: Bytes, rest: Bytes)
    requires |prior| == BLOCK && |block| == BLOCK && Whole(rest) && forall b :: |b| == BLOCK ==> |enc(b)| == BLOCK
    ensures var c := enc(Xor(block, prior)); Chain(enc, prior, block + rest) == c + Chain(enc, c, rest)
  {
    assert (block + rest)[..BLOCK] == block && (block + rest)[BLOCK..] == rest;
  }

  lemma UnchainStep(dec: Bytes -> Bytes, prior: Bytes, c: Bytes, rest: Bytes)
    requires |prior| == BLOCK && |c| == BLOCK && Whole(rest) && forall b :: |b| == BLOCK ==> |dec(b)| == BLOCK
    ensures Unchain(dec, prior, c + rest) == Xor(dec(c), prior) + Unchain(dec, c, rest)
  {
    assert (c + rest)[..BLOCK] == c && (c + rest)[BLOCK..] == rest;
  }

  lemma WholeRest(text: Bytes)
    requires Whole(text) && text != []
    ensures |text| >= BLOCK && Whole(text[BLOCK..])
  {
  }

  lemma SameLength(s: Bytes, t: Bytes)
    requires Whole(s) && |s| == |t|
    ensures Whole(t)
  {
  }

  lemma OneBlock(enc: Bytes -> Bytes, dec: Bytes -> Bytes, prior: Bytes, block: Bytes)
    requires IsCipher(enc, dec) && |prior| == BLOCK && |block| == BLOCK
    ensures |enc(Xor(block, prior))| == BLOCK && |dec(enc(Xor(block, prior)))| == BLOCK
    ensures Xor(dec(enc(Xor(block, prior))), prior) == block
  {
    XorUndoes(block, prior);
  }

  lemma {:induction false} UnchainChain(enc: Bytes -> Bytes, dec: Bytes -> Bytes, prior: Bytes, text: Bytes)
    requires IsCipher(enc, dec) && |prior| == BLOCK && Whole(text)
    ensures Whole(Chain(enc, prior, text)) && Unchain(dec, prior, Chain(enc, prior, text)) == text
    decreases |text|
  {
    hide Whole;
    ChainLength(enc, prior, text);
    SameLength(text, Chain(enc, prior, text));
    if text != [] {
      WholeRest(text);
      var block, rest := text[..BLOCK], text[BLOCK..];
      assert text == block + rest;
      OneBlock(enc, dec, prior, block);
      var c := enc(Xor(block, prior));
      ChainLength(enc, c, rest);
      SameLength(rest, Chain(enc, c, rest));
      UnchainChain(enc, dec, c, rest);
      UnchainStep(dec, prior, c, Chain(enc, c, rest));
      ChainStep(enc, prior, block, rest);
    }
  }

  // -------------------------------------------------------------- base64

  function Letter(d: nat): char
    requires d < 64
  {
    if d < 26 then 'A' + d as char
    else if d < 52 then 'a' + (d - 26) as char
    else if d < 62 then '0' + (d - 52) as char
    else if d == 62 then '+' else '/'
  }

  /** The value of a letter; 64 for any other character. */
  function LetterValue(c: char): (d: nat)
    ensures d <= 64
  {
    if 'A' <= c <= 'Z' then c as int - 'A' as int
    else if 'a' <= c <= 'z' then 26 + (c as int - 'a' as int)
    else if '0' <= c <= '9' then 52 + (c as int - '0' as int)
    else if c == '+' then 62 else if c == '/' then 63 else 64
  }

  lemma LetterRead(d: nat)
    requires d < 64
    ensures LetterValue(Letter(d)) == d && Letter(d) != '=' && Letter(d) !in "-_."
  {
  }

  function Base64(s: Bytes): string {
    if s == [] then ""
    else if |s| == 1 then [Letter(s[0] / 4), Letter(s[0] % 4 * 16), '=', '=']
    else if |s| == 2 then [Letter(s[0] / 4), Letter(s[0] % 4 * 16 + s[1] / 16), Letter(s[1] % 16 * 4), '=']
    else
      [Letter(s[0] / 4), Letter(s[0] % 4 * 16 + s[1] / 16), Letter(s[1] % 16 * 4 + s[2] / 64), Letter(s[2] % 64)]
      + Base64(s[3..])
  }

  /** None for a text that is not the encoding of anything. */
  function FromBase64(t: string): Option<Bytes> {
    if t == "" then Some([])
    else if |t| < 4 then None
    else
      var a, b, c, d := LetterValue(t[0]), LetterValue(t[1]), LetterValue(t[2]), LetterValue(t[3]);
      if a == 64 || b == 64 then None
      else if c == 64 then (if t[2..] == "==" then Some([a * 4 + b / 16]) else None)
      else if d == 64 then (if t[3..] == "=" then Some([a * 4 + b / 16, b % 16 * 16 + c / 4]) else None)
      else
        match FromBase64(t[4..])
        case None => None
        case Some(rest) => Some([a * 4 + b / 16, b % 16 * 16 + c / 4, c % 4 * 64 + d] + rest)
  }

  lemma Sextets(x: Byte, y: Byte, z: Byte)
    ensures x / 4 < 64 && x % 4 * 16 + y / 16 < 64 && y % 16 * 4 + z / 64 < 64 && z % 64 < 64
    ensures (x / 4) * 4 + (x % 4 * 16 + y / 16) / 16 == x
    ensures (x % 4 * 16 + y / 16) % 16 * 16 + (y % 16 * 4 + z / 64) / 4 == y
    ensures (y % 16 * 4 + z / 64) % 4 * 64 + z % 64 == z
  {
    assert (x % 4 * 16 + y / 16) / 16 == x % 4 && (x % 4 * 16 + y / 16) % 16 == y / 16;
    assert (y % 16 * 4 + z / 64) / 4 == y % 16 && (y % 16 * 4 + z / 64) % 4 == z / 64;
  }

  lemma FromBase64Four(x: Byte, y: Byte, z: Byte, rest: string)
    ensures var t := [Letter(x / 4), Letter(x % 4 * 16 + y / 16), Letter(y % 16 * 4 + z / 64), Letter(z % 64)] + rest;
      FromBase64(t) == match FromBase64(rest) case None => None case Some(s) => Some([x, y, z] + s)
  {
    Sextets(x, y, z);
    LetterRead(x / 4);
    LetterRead(x % 4 * 16 + y / 16);
    LetterRead(y % 16 * 4 + z / 64);
    LetterRead(z % 64);
    var t := [Letter(x / 4), Letter(x % 4 * 16 + y / 16), Letter(y % 16 * 4 + z / 64), Letter(z % 64)] + rest;
    assert t[4..] == rest;
  }

  lemma {:induction false} Base64RoundTrip(s: Bytes)
    ensures FromBase64(Base64(s)) == Some(s)
  {
    hide FromBase64, Letter;
    if s == [] {
      EmptyText();
    } else if |s| >= 3 {
      Base64RoundTrip(s[3..]);
      FromBase64Four(s[0], s[1], s[2], Base64(s[3..]));
      assert s == [s[0], s[1], s[2]] + s[3..];
    } else if |s| == 2 {
      TwoBytes(s[0], s[1]);
      assert s == [s[0], s[1]];
    } else if |s| == 1 {
      OneByte(s[0]);
      assert s == [s[0]];
    }
  }

  lemma EmptyText()
    ensures FromBase64("") == Some([])
  {
  }

  lemma EqualsSign()
    ensures LetterValue('=') == 64
  {
  }

  lemma OneByte(x: Byte)
    ensures FromBase64(Base64([x])) == Some([x])
  {
    LetterRead(x / 4);
    LetterRead(x % 4 * 16);
    assert Base64([x])[2..] == "==";
    assert (x / 4) * 4 + (x % 4 * 16) / 16 == x;
  }

  lemma TwoBytes(x: Byte, y: Byte)
    ensures FromBase64(Base64([x, y])) == Some([x, y])
  {
    hide Letter, LetterValue;
    Sextets(x, y, 0);
    LetterRead(x / 4);
    LetterRead(x % 4 * 16 + y / 16);
    LetterRead(y % 16 * 4);
    EqualsSign();
    assert Base64([x, y])[3..] == "=";
  }

  lemma {:induction false} Base64Plain(s: Bytes)
    ensures forall i :: 0 <= i < |Base64(s)| ==> Base64(s)[i] !in "-_."
  {
    if |s| >= 3 {
      Base64Plain(s[3..]);
      LetterRead(s[0] / 4);
      LetterRead(s[0] % 4 * 16 + s[1] / 16);
      LetterRead(s[1] % 16 * 4 + s[2] / 64);
      LetterRead(s[2] % 64);
    } else if |s| == 2 {
      LetterRead(s[0] / 4);
      LetterRead(s[0] % 4 * 16 + s[1] / 16);
      LetterRead(s[1] % 16 * 4);
    } else if |s| == 1 {
      LetterRead(s[0] / 4);
      LetterRead(s[0] % 4 * 16);
    }
  }

  function Replaced(t: string, a: char, b: char): (r: string)
    ensures |r| == |t| && forall i :: 0 <= i < |t| ==> r[i] == if t[i] == a then b else t[i]
  {
    seq(|t|, i requires 0 <= i < |t| => if t[i] == a then b else t[i])
  }

  function ToUrl(t: string): string {
    Replaced(Replaced(Replaced(t, '+', '-'), '/', '_'), '=', '.')
  }

  function FromUrl(t: string): string {
    Replaced(Replaced(Replaced(t, '-', '+'), '_', '/'), '.', '=')
  }

  lemma UrlRoundTrip(t: string)
    requires forall i :: 0 <= i < |t| ==> t[i] !in "-_."
    ensures FromUrl(ToUrl(t)) == t
  {
    forall i | 0 <= i < |t|
      ensures FromUrl(ToUrl(t))[i] == t[i]
    {
      assert t[i] != '-' && t[i] != '_' && t[i] != '.' by {
        assert '-' == "-_."[0] && '_' == "-_."[1] && '.' == "-_."[2];
      }
    }
  }

  /** The result has only letters, digits, dots, dashes and underscores. */
  predicate UrlSafe(c: char) {
    'a' <= c <= 'z' || 'A' <= c <= 'Z' || '0' <= c <= '9' || c == '.' || c == '-' || c == '_'
  }

  lemma {:induction false} Base64Letters(s: Bytes)
    ensures forall i :: 0 <= i < |Base64(s)| ==> Base64(s)[i] == '=' || LetterValue(Base64(s)[i]) < 64
  {
    if |s| >= 3 {
      Base64Letters(s[3..]);
    }
  }

  // ---------------------------------------------------------------- the whole

  lemma PaddedWhole(pt: Bytes)
    ensures Whole(Pad(pt))
  {
    PaddedLength(pt);
  }

  function EncryptBinary(enc: Bytes -> Bytes, iv: Bytes, pt: Bytes): string
    requires |iv| == BLOCK && forall b :: |b| == BLOCK ==> |enc(b)| == BLOCK
  {
    PaddedWhole(pt);
    ToUrl(Base64(iv + Chain(enc, iv, Pad(pt))))
  }

  /** None where ValueError is raised: for what is not base64 or has a wrong length. */
  function DecryptBinary(dec: Bytes -> Bytes, ct: string): Option<Bytes>
    requires forall b :: |b| == BLOCK ==> |dec(b)| == BLOCK
  {
    match FromBase64(FromUrl(ct))
    case None => None
    case Some(all) =>
      if |all| < BLOCK || !Whole(all[BLOCK..]) then None
      else Some(Unpad(Unchain(dec, all[..BLOCK], all[BLOCK..])))
  }

  /** Decryption undoes encryption, for every text and every initial block. */
  lemma BinaryRoundTrip(enc: Bytes -> Bytes, dec: Bytes -> Bytes, iv: Bytes, pt: Bytes)
    requires IsCipher(enc, dec) && |iv| == BLOCK
    ensures DecryptBinary(dec, EncryptBinary(enc, iv, pt)) == Some(pt)
  {
    hide Base64, FromBase64, ToUrl, FromUrl, Chain, Unchain, Pad, Unpad, Whole;
    PaddedWhole(pt);
    var ct := Chain(enc, iv, Pad(pt));
    Base64Plain(iv + ct);
    UrlRoundTrip(Base64(iv + ct));
    Base64RoundTrip(iv + ct);
    assert (iv + ct)[..BLOCK] == iv && (iv + ct)[BLOCK..] == ct;
    UnchainChain(enc, dec, iv, Pad(pt));
    UnpadPad(pt);
  }

  lemma CiphertextIsUrlSafe(enc: Bytes -> Bytes, iv: Bytes, pt: Bytes)
    requires |iv| == BLOCK && forall b :: |b| == BLOCK ==> |enc(b)| == BLOCK
    ensures forall i :: 0 <= i < |EncryptBinary(enc, iv, pt)| ==> UrlSafe(EncryptBinary(enc, iv, pt)[i])
  {
    PaddedWhole(pt);
    Base64Letters(iv + Chain(enc, iv, Pad(pt)));
  }

  // ---------------------------------------------------------------- numbers

  function Ascii(s: string): (r: Bytes)
    requires forall i :: 0 <= i < |s| ==> s[i] < 128 as char
    ensures |r| == |s| && forall i :: 0 <= i < |s| ==> r[i] == s[i] as int
  {
    seq(|s|, i requires 0 <= i < |s| => s[i] as int)
  }

  function FromAscii(s: Bytes): (r: string)
    ensures |r| == |s| && forall i :: 0 <= i < |s| ==> r[i] == s[i] as char
  {
    seq(|s|, i requires 0 <= i < |s| => s[i] as char)
  }

  /** `%x`: a minus sign and the digits of the absolute value. */
  function HexOf(n: int): string {
    if n < 0 then "-" + Numerals.Show(-n, 16) else Numerals.Show(n, 16)
  }

  /** Reading a number in base 16 with an optional minus sign. */
  function ParseHex(s: string): Option<int> {
    if s != "" && s[0] == '-' then
      (if |s| > 1 && Numerals.AreDigits(s[1..], 16) then Some(-(Numerals.Read(s[1..], 16) as int)) else None)
    else if s != "" && Numerals.AreDigits(s, 16) then Some(Numerals.Read(s, 16) as int)
    else None
  }

  lemma HexIsAscii(n: int)
    ensures forall i :: 0 <= i < |HexOf(n)| ==> HexOf(n)[i] < 128 as char
  {
    var s := Numerals.Show(if n < 0 then -n else n, 16);
    forall i | 0 <= i < |s|
      ensures s[i] < 128 as char
    {
      assert Numerals.DigitValue(s[i]) < 16;
    }
  }

  lemma ParseHexOf(n: int)
    ensures ParseHex(HexOf(n)) == Some(n)
  {
    var digits := Numerals.Show(if n < 0 then -n else n, 16);
    Numerals.ReadShow(if n < 0 then -n else n, 16);
    assert Numerals.DigitValue(digits[0]) < 16;
    if n < 0 {
      assert HexOf(n)[1..] == digits;
    }
  }

  function EncryptNumber(enc: Bytes -> Bytes, iv: Bytes, n: int): string
    requires |iv| == BLOCK && forall b :: |b| == BLOCK ==> |enc(b)| == BLOCK
  {
    HexIsAscii(n);
    EncryptBinary(enc, iv, Ascii(HexOf(n)))
  }

  function DecryptNumber(dec: Bytes -> Bytes, ct: string): Option<int>
    requires forall b :: |b| == BLOCK ==> |dec(b)| == BLOCK
  {
    match DecryptBinary(dec, ct)
    case None => None
    case Some(pt) => ParseHex(FromAscii(pt))
  }

  lemma NumberRoundTrip(enc: Bytes -> Bytes, dec: Bytes -> Bytes, iv: Bytes, n: int)
    requires IsCipher(enc, dec) && |iv| == BLOCK
    ensures DecryptNumber(dec, EncryptNumber(enc, iv, n)) == Some(n)
  {
    HexIsAscii(n);
    BinaryRoundTrip(enc, dec, iv, Ascii(HexOf(n)));
    assert FromAscii(Ascii(HexOf(n))) == HexOf(n);
    ParseHexOf(n);
  }
}
