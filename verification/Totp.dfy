/**
 * One-time passwords: secrets in base32 as section 6 of RFC 4648 defines it, dynamic
 * truncation as in section 5.3 of RFC 4226, and the accepted time steps of section 5.2 of
 * RFC 6238. The keyed hash is a parameter.
 */
module Totp {
  import opened Text

  type Byte = x: int | 0 <= x < 256

  // ----- bits -----

  function Pow2(n: nat): (p: nat)
    ensures p >= 1
  {
    if n == 0 then 1 else 2 * Pow2(n - 1)
  }

  /** The `n` low bits of `v`, most significant first. */
  function ToBits(v: nat, n: nat): (bs: seq<bool>)
    ensures |bs| == n
  {
    if n == 0 then [] else ToBits(v / 2, n - 1) + [v % 2 == 1]
  }

  function FromBits(bs: seq<bool>): nat {
    if bs == [] then 0 else 2 * FromBits(bs[..|bs| - 1]) + (if bs[|bs| - 1] then 1 else 0)
  }

  lemma {:induction false} FromToBits(v: nat, n: nat)
    requires v < Pow2(n)
    ensures FromBits(ToBits(v, n)) == v
  {
    if n > 0 {
      FromToBits(v / 2, n - 1);
      var bs := ToBits(v, n);
      assert bs[..n - 1] == ToBits(v / 2, n - 1);
    }
  }

  lemma {:induction false} ToFromBits(bs: seq<bool>)
    ensures FromBits(bs) < Pow2(|bs|) && ToBits(FromBits(bs), |bs|) == bs
  {
    if bs != [] {
      ToFromBits(bs[..|bs| - 1]);
      assert FromBits(bs) / 2 == FromBits(bs[..|bs| - 1]);
    }
  }

  /** Reading two bit strings one after the other. */
  lemma {:induction false} FromBitsAppend(a: seq<bool>, b: seq<bool>)
    ensures FromBits(a + b) == FromBits(a) * Pow2(|b|) + FromBits(b)
  {
    if b == [] {
      assert a + b == a;
    } else {
      var rest := b[..|b| - 1];
      assert (a + b)[..|a + b| - 1] == a + rest;
      FromBitsAppend(a, rest);
      assert 2 * (FromBits(a) * Pow2(|rest|)) == FromBits(a) * (2 * Pow2(|rest|));
    }
  }

  /** The low bits of a value, by division. */
  lemma {:induction false} LowBits(v: nat, n: nat, k: nat)
    requires k <= n
    ensures FromBits(ToBits(v, n)[n - k..]) == v % Pow2(k)
    decreases n
  {
    if k > 0 {
      var bs := ToBits(v, n)[n - k..];
      assert bs[..|bs| - 1] == ToBits(v / 2, n - 1)[n - k..];
      LowBits(v / 2, n - 1, k - 1);
      HalfMod(v, Pow2(k - 1));
    }
  }

  lemma HalfMod(v: nat, p: nat)
    requires p > 0
    ensures v % (2 * p) == 2 * (v / 2 % p) + v % 2 && v / (2 * p) == v / 2 / p
  {
    var q, r := v / 2 / p, v / 2 % p;
    assert v / 2 == p * q + r;
    assert (2 * p) * q == 2 * (p * q);
    DivisionIs(v, 2 * p, q, 2 * r + v % 2);
  }

  lemma DivisionIs(v: nat, m: nat, q: nat, r: nat)
    requires m > 0 && r < m && v == m * q + r
    ensures v / m == q && v % m == r
  {
    var k, t := v / m, v % m;
    assert v == m * k + t;
    if k > q { Multiples(m, q + 1, k); } else if k < q { Multiples(m, k + 1, q); }
  }

  lemma Multiples(m: nat, a: nat, b: nat)
    requires a <= b
    ensures m * a <= m * b && m * (a + 1) == m * a + m
  {
    assert m * b == m * a + m * (b - a);
  }

  /** Values of `k` bits each, as one bit string. */
  function Unpack(vs: seq<nat>, k: nat): (bs: seq<bool>)
    ensures |bs| == k * |vs|
  {
    if vs == [] then [] else ToBits(vs[0], k) + Unpack(vs[1..], k)
  }

  /** The bit string cut into groups of `k`. */
  function Pack(bs: seq<bool>, k: nat): (vs: seq<nat>)
    requires k > 0
    decreases |bs|
  {
    if |bs| < k then [] else [FromBits(bs[..k])] + Pack(bs[k..], k)
  }

  lemma {:induction false} PackLength(bs: seq<bool>, k: nat, m: nat)
    requires k > 0 && |bs| == k * m
    ensures |Pack(bs, k)| == m && forall i :: 0 <= i < m ==> Pack(bs, k)[i] < Pow2(k)
    decreases m
  {
    if m > 0 {
      assert k * m >= k by { assert k * m == k * (m - 1) + k; }
      assert |bs[k..]| == k * (m - 1);
      PackLength(bs[k..], k, m - 1);
      ToFromBits(bs[..k]);
    }
  }

  lemma {:induction false} UnpackPack(bs: seq<bool>, k: nat, m: nat)
    requires k > 0 && |bs| == k * m
    ensures Unpack(Pack(bs, k), k) == bs
    decreases m
  {
    if m > 0 {
      assert k * m == k * (m - 1) + k;
      assert |bs[k..]| == k * (m - 1);
      UnpackPack(bs[k..], k, m - 1);
      ToFromBits(bs[..k]);
      assert bs == bs[..k] + bs[k..];
      assert Pack(bs, k)[1..] == Pack(bs[k..], k);
    }
  }

  lemma {:induction false} PackUnpack(vs: seq<nat>, k: nat)
    requires k > 0 && forall i :: 0 <= i < |vs| ==> vs[i] < Pow2(k)
    ensures Pack(Unpack(vs, k), k) == vs
  {
    if vs != [] {
      PackUnpack(vs[1..], k);
      FromToBits(vs[0], k);
      var bs := Unpack(vs, k);
      assert |bs| >= k && bs[..k] == ToBits(vs[0], k) && bs[k..] == Unpack(vs[1..], k);
    }
  }

  // ----- base32 -----

  /** The alphabet: A to Z, then 2 to 7. */
  function Letter(v: nat): char
    requires v < 32
  {
    if v < 26 then 'A' + v as char else '2' + (v - 26) as char
  }

  function ValueOf(c: char): Option<nat> {
    if 'A' <= c <= 'Z' then Some((c - 'A') as nat)
    else if '2' <= c <= '7' then Some((c - '2') as nat + 26)
    else None
  }

  lemma LetterReadsBack(v: nat)
    requires v < 32
    ensures ValueOf(Letter(v)) == Some(v) && Letter(v) != '='
  {
  }

  function Letters(vs: seq<nat>): (s: string)
    requires forall i :: 0 <= i < |vs| ==> vs[i] < 32
    ensures |s| == |vs| && forall i :: 0 <= i < |vs| ==> s[i] == Letter(vs[i])
  {
    seq(|vs|, i requires 0 <= i < |vs| => Letter(vs[i]))
  }

  function Pad(n: nat): (s: string)
    ensures |s| == n && forall i :: 0 <= i < n ==> s[i] == '='
  {
    seq(n, _ => '=')
  }

  function Zeros(n: nat): (bs: seq<bool>)
    ensures |bs| == n
  {
    seq(n, _ => false)
  }

  /** How much is missing to the next multiple of five, and of eight. */
  function ToFive(n: nat): (m: nat)
    ensures m < 5 && (n + m) % 5 == 0
  {
    if n % 5 == 0 then 0 else 5 - n % 5
  }

  function ToEight(n: nat): (m: nat)
    ensures m < 8 && (n + m) % 8 == 0
  {
    if n % 8 == 0 then 0 else 8 - n % 8
  }

  /** The five-bit groups of a byte string, the last one filled with zero bits. */
  function Groups(b: seq<Byte>): (vs: seq<nat>)
    ensures forall i :: 0 <= i < |vs| ==> vs[i] < 32
    ensures 5 * |vs| == 8 * |b| + ToFive(8 * |b|)
  {
    var bits := Unpack(b, 8);
    var full := bits + Zeros(ToFive(|bits|));
    assert |full| == 5 * (|full| / 5);
    PackLength(full, 5, |full| / 5);
    assert Pow2(5) == 32;
    Pack(full, 5)
  }

  /** `base32.StdEncoding.EncodeToString`. */
  function Encode(b: seq<Byte>): string {
    Letters(Groups(b)) + Pad(ToEight(|Groups(b)|))
  }

  function Unpadded(s: string): string {
    if s != "" && s[|s| - 1] == '=' then Unpadded(s[..|s| - 1]) else s
  }

  function Values(s: string): Option<seq<nat>> {
    if s == "" then Some([])
    else if ValueOf(s[0]).None? || Values(s[1..]).None? then None
    else Some([ValueOf(s[0]).value] + Values(s[1..]).value)
  }

  /** `base32.StdEncoding.DecodeString`: whole groups of eight, padding of a legal length. */
  function Decode(s: string): Option<seq<nat>> {
    var data := Unpadded(s);
    if |s| % 8 != 0 || |s| - |data| !in {0, 1, 3, 4, 6} then None else
    var vs := Values(data);
    if vs.None? then None
    else
      var bits := Unpack(vs.value, 5);
      Some(Pack(bits[..8 * (|bits| / 8)], 8))
  }

  /** A new secret: the encoding without its padding. */
  function NewSecret(b: seq<Byte>): string { Unpadded(Encode(b)) }

  function UpperChar(c: char): char {
    if 'a' <= c <= 'z' then c - 'a' + 'A' else c
  }

  function Upper(s: string): (r: string)
    ensures |r| == |s| && forall i :: 0 <= i < |s| ==> r[i] == UpperChar(s[i])
  {
    seq(|s|, i requires 0 <= i < |s| => UpperChar(s[i]))
  }

  function PadBase32(s: string): string {
    var u := Upper(TrimSpace(s));
    u + Pad(ToEight(|u|))
  }

  lemma {:induction false} UnpaddedDropsPad(s: string, n: nat)
    requires s == "" || s[|s| - 1] != '='
    ensures Unpadded(s + Pad(n)) == s
  {
    var t := s + Pad(n);
    if n == 0 {
      assert t == s;
    } else {
      assert t[..|t| - 1] == s + Pad(n - 1);
      UnpaddedDropsPad(s, n - 1);
    }
  }

  lemma SecretIsLetters(b: seq<Byte>)
    ensures NewSecret(b) == Letters(Groups(b))
  {
    var s := Letters(Groups(b));
    if s != "" { LetterReadsBack(Groups(b)[|s| - 1]); }
    UnpaddedDropsPad(s, ToEight(|Groups(b)|));
  }

  lemma LettersAreBare(vs: seq<nat>)
    requires forall i :: 0 <= i < |vs| ==> vs[i] < 32
    ensures Upper(TrimSpace(Letters(vs))) == Letters(vs)
  {
    var s := Letters(vs);
    assert forall i :: 0 <= i < |s| ==> !IsSpace(s[i]) && UpperChar(s[i]) == s[i];
    assert TrimLeft(s) == s && TrimRight(s) == s;
  }

  /** `padBase32` restores exactly the padded encoding the secret was cut from. */
  lemma PadRestores(b: seq<Byte>)
    ensures PadBase32(NewSecret(b)) == Encode(b)
  {
    SecretIsLetters(b);
    LettersAreBare(Groups(b));
  }

  lemma {:induction false} ValuesOfLetters(vs: seq<nat>)
    requires forall i :: 0 <= i < |vs| ==> vs[i] < 32
    ensures Values(Letters(vs)) == Some(vs)
  {
    if vs != [] {
      LetterReadsBack(vs[0]);
      var s := Letters(vs);
      assert s[0] == Letter(vs[0]) && s[1..] == Letters(vs[1..]);
      ValuesOfLetters(vs[1..]);
      assert [vs[0]] + vs[1..] == vs;
    }
  }

  /** Only legal amounts of padding arise. */
  lemma PaddingIsLegal(n: nat, m: nat)
    requires 5 * m == 8 * n + ToFive(8 * n)
    ensures ToEight(m) in {0, 1, 3, 4, 6}
  {
    var q, r := n / 5, n % 5;
    assert n == 5 * q + r;
    var over, extra := [0, 0, 1, 1, 2][r], [0, 2, 4, 5, 7][r];
    FifthOver(8 * n, 8 * q + r + over, 3 * r - 5 * over);
    assert m == 8 * q + extra;
    EighthOver(m, q, extra);
  }

  lemma FifthOver(a: nat, q: nat, r: nat)
    requires a == 5 * q + r && r < 5
    ensures ToFive(a) == if r == 0 then 0 else 5 - r
  {
  }

  lemma EighthOver(a: nat, q: nat, r: nat)
    requires a == 8 * q + r && r < 8
    ensures ToEight(a) == if r == 0 then 0 else 8 - r
  {
  }

  lemma BytesAreSmall(b: seq<Byte>)
    ensures forall i :: 0 <= i < |b| ==> b[i] < Pow2(8)
  {
    assert Pow2(8) == 256 by { assert Pow2(4) == 16; }
  }

  /** Decoding undoes encoding, for every byte string. */
  lemma DecodeEncode(b: seq<Byte>)
    ensures Decode(Encode(b)) == Some(b)
  {
    hide Unpack, Pack, Values, Unpadded;
    var vs := Groups(b);
    SecretIsLetters(b);
    PaddingIsLegal(|b|, |vs|);
    ValuesOfLetters(vs);
    var bits := Unpack(b, 8);
    var full := bits + Zeros(ToFive(|bits|));
    UnpackPack(full, 5, |full| / 5);
    assert |full| / 8 == |b|;
    assert full[..8 * |b|] == bits;
    BytesAreSmall(b);
    PackUnpack(b, 8);
  }

  const ALPHABET := "ABCDEFGHIJKLMNOPQRSTUVWXYZ234567"

  lemma LetterIsStandard(v: nat)
    requires v < 32
    ensures |ALPHABET| == 32 && Letter(v) == ALPHABET[v]
  {
  }

  /**
   * The encoding, bit by bit: letters of the alphabet whose five-bit values spell the bytes'
   * bits and up to four zero bits, then equals signs up to a whole group of eight.
   */
  lemma EncodeIsStandard(b: seq<Byte>) returns (vs: seq<nat>, zeros: seq<bool>)
    ensures |vs| <= |Encode(b)| < |vs| + 8 && |Encode(b)| % 8 == 0
    ensures forall i :: 0 <= i < |vs| ==> vs[i] < 32 && Encode(b)[i] == ALPHABET[vs[i]]
    ensures forall i :: |vs| <= i < |Encode(b)| ==> Encode(b)[i] == '='
    ensures |zeros| < 5 && (forall i :: 0 <= i < |zeros| ==> !zeros[i]) && Unpack(vs, 5) == Unpack(b, 8) + zeros
  {
    hide Unpack, Pack, Letter, ALPHABET;
    LetterIsStandard(0);
    var bits := Unpack(b, 8);
    vs, zeros := Groups(b), Zeros(ToFive(|bits|));
    UnpackPack(bits + zeros, 5, |bits + zeros| / 5);
    forall i | 0 <= i < |vs| ensures Encode(b)[i] == ALPHABET[vs[i]] { LetterIsStandard(vs[i]); }
  }

  /** A stored secret yields the original key, for every byte string. */
  lemma SecretRoundTrip(b: seq<Byte>)
    ensures Decode(PadBase32(NewSecret(b))) == Some(b)
  {
    PadRestores(b);
    DecodeEncode(b);
  }

  // ----- codes -----

  type Mac = s: seq<Byte> | |s| == 20 witness seq(20, _ => 0)

  /** Dynamic truncation: four bytes at the offset the last one names, without the sign bit. */
  function Truncate(sum: Mac): (v: nat)
    ensures v < 0x8000_0000
  {
    var off := sum[19] % 16;
    var a: int, b: int, c: int, d: int := sum[off], sum[off + 1], sum[off + 2], sum[off + 3];
    (a % 128) * 0x100_0000 + b * 0x1_0000 + c * 0x100 + d
  }

  /**
   * The offset is the low four bits of the last byte, and the value the last 31 of the 32
   * bits of the four bytes there, the first byte first.
   */
  lemma TruncateReadsBits(sum: Mac)
    ensures var off := FromBits(ToBits(sum[19], 8)[4..]);
      off <= 15 && Truncate(sum) == FromBits(Unpack(sum[off..off + 4], 8)[1..])
  {
    LowBits(sum[19], 8, 4);
    assert Pow2(4) == 16;
    var off := sum[19] % 16;
    FourBytes(sum[off], sum[off + 1], sum[off + 2], sum[off + 3]);
    assert sum[off..off + 4] == [sum[off], sum[off + 1], sum[off + 2], sum[off + 3]];
  }

  lemma FourBytes(a: Byte, b: Byte, c: Byte, d: Byte)
    ensures FromBits(Unpack([a, b, c, d], 8)[1..]) == (a % 128) * 0x100_0000 + b * 0x1_0000 + c * 0x100 + d
  {
    hide ToBits, FromBits;
    var w, x, y, z := ToBits(a, 8), ToBits(b, 8), ToBits(c, 8), ToBits(d, 8);
    UnpackFour(a, b, c, d);
    assert (w + (x + (y + z)))[1..] == w[1..] + (x + (y + z));
    LowBits(a, 8, 7);
    ByteReads(b);
    ByteReads(c);
    ByteReads(d);
    FromBitsAppend(w[1..], x + (y + z));
    FromBitsAppend(x, y + z);
    FromBitsAppend(y, z);
    Powers();
  }

  lemma ByteReads(v: Byte)
    ensures FromBits(ToBits(v, 8)) == v
  {
    Powers();
    FromToBits(v, 8);
  }

  lemma Powers()
    ensures Pow2(7) == 128 && Pow2(8) == 256 && Pow2(16) == 0x1_0000 && Pow2(24) == 0x100_0000
  {
    assert Pow2(4) == 16 && Pow2(12) == 4096 && Pow2(20) == 0x10_0000;
  }

  lemma {:induction false} UnpackAppend(a: seq<nat>, b: seq<nat>, k: nat)
    ensures Unpack(a + b, k) == Unpack(a, k) + Unpack(b, k)
  {
    if a == [] {
      assert a + b == b;
    } else {
      assert (a + b)[1..] == a[1..] + b;
      UnpackAppend(a[1..], b, k);
    }
  }

  lemma UnpackOne(v: nat)
    ensures Unpack([v], 8) == ToBits(v, 8)
  {
    assert [v][1..] == [] && ToBits(v, 8) + [] == ToBits(v, 8);
  }

  lemma UnpackFour(a: nat, b: nat, c: nat, d: nat)
    ensures Unpack([a, b, c, d], 8) == ToBits(a, 8) + (ToBits(b, 8) + (ToBits(c, 8) + ToBits(d, 8)))
  {
    hide ToBits, Unpack;
    assert [a, b, c, d] == [a] + ([b] + ([c] + [d]));
    UnpackAppend([a], [b] + ([c] + [d]), 8);
    UnpackAppend([b], [c] + [d], 8);
    UnpackAppend([c], [d], 8);
    UnpackOne(a);
    UnpackOne(b);
    UnpackOne(c);
    UnpackOne(d);
  }

  function Digit(d: nat): (c: char)
    requires d < 10
    ensures '0' <= c <= '9' && (c - '0') as nat == d
  {
    '0' + d as char
  }

  /** The last `n` decimal digits of a value. */
  function Digits(v: nat, n: nat): (s: string)
    ensures |s| == n && forall i :: 0 <= i < n ==> '0' <= s[i] <= '9'
  {
    if n == 0 then "" else Digits(v / 10, n - 1) + [Digit(v % 10)]
  }

  function Number(s: string): nat
    requires forall i :: 0 <= i < |s| ==> '0' <= s[i] <= '9'
  {
    if s == "" then 0 else 10 * Number(s[..|s| - 1]) + (s[|s| - 1] - '0') as nat
  }

  function Pow10(n: nat): nat {
    if n == 0 then 1 else 10 * Pow10(n - 1)
  }

  /** The digits print the value, so different values print differently. */
  lemma {:induction false} DigitsReadBack(v: nat, n: nat)
    requires v < Pow10(n)
    ensures Number(Digits(v, n)) == v
  {
    if n > 0 {
      DigitsReadBack(v / 10, n - 1);
      assert Digits(v, n)[..n - 1] == Digits(v / 10, n - 1);
    }
  }

  const WORD: nat := 0x1_0000_0000_0000_0000

  /** The counter as an unsigned 64-bit word, its bits in order, as eight bytes. */
  function Message(counter: int): (bytes: seq<nat>)
    ensures |bytes| == 8 && Unpack(bytes, 8) == ToBits(counter % WORD, 64)
  {
    var bits := ToBits(counter % WORD, 64);
    UnpackPack(bits, 8, 8);
    PackLength(bits, 8, 8);
    Pack(bits, 8)
  }

  /** `totpCode` for a key hash `mac`; the message is the counter. */
  function Code(mac: (seq<nat>, seq<nat>) -> Mac, secret: string, counter: int): (c: Option<string>)
    ensures c.Some? ==> |c.value| == 6 && forall i :: 0 <= i < 6 ==> '0' <= c.value[i] <= '9'
  {
    match Decode(PadBase32(secret))
    case None => None
    case Some(key) => Some(Digits(Truncate(mac(key, Message(counter))) % 1_000_000, 6))
  }

  /** `VerifyTOTP` accepts exactly the codes of the previous, the current and the next step. */
  method VerifyTotp(mac: (seq<nat>, seq<nat>) -> Mac, secret: string, input: string, nowSec: nat) returns (ok: bool)
    ensures ok <==> exists step :: nowSec / 30 - 1 <= step <= nowSec / 30 + 1 && Code(mac, secret, step) == Some(TrimSpace(input))
  {
    var trimmed := TrimSpace(input);
    if |trimmed| != 6 { return false; }
    var now := nowSec / 30;
    var offsets := [-1, 0, 1];
    for i := 0 to 3
      invariant forall step :: now - 1 <= step < now + i - 1 ==> Code(mac, secret, step) != Some(trimmed)
    {
      var c := Code(mac, secret, now + offsets[i]);
      if c.Some? && c.value == trimmed { return true; }
    }
    return false;
  }

  /**
   * The code of an enrolled key, bit by bit: the message holds the 64 bits of the counter,
   * and the six digits print the 31 bits at the hash's offset modulo a million.
   */
  lemma EnrolledKeyIsUsed(mac: (seq<nat>, seq<nat>) -> Mac, key: seq<Byte>, counter: int) returns (message: seq<nat>)
    ensures |message| == 8 && (forall i :: 0 <= i < 8 ==> message[i] < 256)
    ensures Unpack(message, 8) == ToBits(counter % 0x1_0000_0000_0000_0000, 64)
    ensures var sum := mac(key, message);
      var off := FromBits(ToBits(sum[19], 8)[4..]);
      var c := Code(mac, NewSecret(key), counter);
      off <= 15 && c.Some? && |c.value| == 6
      && Number(c.value) == FromBits(Unpack(sum[off..off + 4], 8)[1..]) % 1_000_000
  {
    hide ToBits, FromBits, Unpack, Truncate, Digits, Number, Decode, PadBase32, NewSecret;
    message := Message(counter);
    PackLength(ToBits(counter % WORD, 64), 8, 8);
    Powers();
    SecretRoundTrip(key);
    TruncateReadsBits(mac(key, message));
    SixDigits(Truncate(mac(key, message)));
  }

  lemma SixDigits(v: nat)
    ensures Number(Digits(v % 1_000_000, 6)) == v % 1_000_000
  {
    assert Pow10(3) == 1000 && Pow10(6) == 1_000_000;
    DigitsReadBack(v % 1_000_000, 6);
  }
}
