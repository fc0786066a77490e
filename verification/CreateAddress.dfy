/** The bytes hashed by createAddress (evm/evm.go): the RLP of [deployer, nonce]
    (Appendix B of the Yellow Paper), and a strict decoder that reads them back. */
module CreateAddress {
  import opened Types

  // ---------- big-endian integers ----------

  /** The shortest big-endian form; zero is the empty string. */
  function BigEndian(n: nat): seq<Byte> {
    if n == 0 then [] else BigEndian(n / 256) + [n % 256]
  }

  function FromBigEndian(b: seq<Byte>): nat {
    if b == [] then 0 else FromBigEndian(b[..|b| - 1]) * 256 + b[|b| - 1]
  }

  lemma {:induction false} BigEndianRoundTrip(n: nat)
    ensures FromBigEndian(BigEndian(n)) == n
    ensures n > 0 ==> BigEndian(n) != [] && BigEndian(n)[0] != 0
  {
    if n > 0 {
      BigEndianRoundTrip(n / 256);
      var b := BigEndian(n);
      assert b[..|b| - 1] == BigEndian(n / 256);
      if n >= 256 { assert b[0] == BigEndian(n / 256)[0]; }
    }
  }

  function Pow256(k: nat): nat {
    if k == 0 then 1 else 256 * Pow256(k - 1)
  }

  lemma {:induction false} BigEndianLength(n: nat, k: nat)
    requires n < Pow256(k)
    ensures |BigEndian(n)| <= k
  {
    if n > 0 {
      BigEndianLength(n / 256, k - 1);
    }
  }

  // ---------- RLP, as Appendix B defines it ----------

  /** The prefix for a payload of n bytes; `offset` is 0x80 for strings and 0xc0 for lists. */
  function Prefix(n: nat, offset: nat): seq<Byte>
    requires (offset == 0x80 || offset == 0xc0) && |BigEndian(n)| <= 8
  {
    if n < 56 then [offset + n] else [offset + 55 + |BigEndian(n)|] + BigEndian(n)
  }

  function EncodeStr(b: seq<Byte>): seq<Byte>
    requires |b| < 56
  {
    if |b| == 1 && b[0] < 0x80 then b else Prefix(|b|, 0x80) + b
  }

  function Preimage(deployer: seq<Byte>, nonce: U64): seq<Byte>
    requires |deployer| == 20
  {
    NonceIsShort(nonce);
    ShortPrefix(|EncodeStr(deployer) + EncodeStr(BigEndian(nonce))|);
    Prefix(|EncodeStr(deployer) + EncodeStr(BigEndian(nonce))|, 0xc0)
    + EncodeStr(deployer) + EncodeStr(BigEndian(nonce))
  }

  lemma NonceIsShort(nonce: U64)
    ensures |BigEndian(nonce)| <= 8
  {
    assert Pow256(8) == TWO_64 by {
      assert Pow256(0) == 1 && Pow256(1) == 0x100 && Pow256(2) == 0x1_0000 && Pow256(3) == 0x100_0000;
      assert Pow256(4) == 0x1_0000_0000 && Pow256(5) == 0x100_0000_0000 && Pow256(6) == 0x1_0000_0000_0000;
    }
    BigEndianLength(nonce, 8);
  }

  lemma ShortPrefix(n: nat)
    requires n < 56
    ensures |BigEndian(n)| <= 8
  {
    assert Pow256(1) == 256;
    BigEndianLength(n, 1);
  }

  // ---------- a strict decoder ----------

  /** One string from the front: its payload and what follows. Anything but the shortest
      encoding of a string shorter than 56 bytes is rejected. */
  function DecodeStr(s: seq<Byte>): Option<(seq<Byte>, seq<Byte>)> {
    if s == [] then None
    else if s[0] < 0x80 then Some((s[..1], s[1..]))
    else if s[0] < 0x80 + 56 then
      var n := s[0] - 0x80;
      if |s| < 1 + n || (n == 1 && s[1] < 0x80) then None else Some((s[1..1 + n], s[1 + n..]))
    else None
  }

  /** A list of exactly two strings, the second an integer without leading zeros. */
  function Decode(s: seq<Byte>): Option<(seq<Byte>, nat)> {
    if s == [] || !(0xc0 <= s[0] < 0xc0 + 56) || |s| != 1 + s[0] - 0xc0 then None
    else match DecodeStr(s[1..])
      case None => None
      case Some((first, rest)) =>
        match DecodeStr(rest)
        case None => None
        case Some((second, end)) =>
          if end != [] || (second != [] && second[0] == 0) then None
          else Some((first, FromBigEndian(second)))
  }

  lemma DecodeEncodeStr(b: seq<Byte>, rest: seq<Byte>)
    requires |b| < 56
    ensures DecodeStr(EncodeStr(b) + rest) == Some((b, rest))
  {
    var s := EncodeStr(b) + rest;
    if |b| == 1 && b[0] < 0x80 {
      assert s[..1] == b && s[1..] == rest;
    } else {
      assert s[1..1 + |b|] == b && s[1 + |b|..] == rest;
    }
  }

  lemma PreimageShape(deployer: seq<Byte>, nonce: U64)
    requires |deployer| == 20
    ensures |BigEndian(nonce)| <= 8
    ensures var p := EncodeStr(deployer) + EncodeStr(BigEndian(nonce));
            |p| < 56 && Preimage(deployer, nonce) == [0xc0 + |p|] + p
  {
    NonceIsShort(nonce);
  }

  lemma PairDecodes(s: seq<Byte>, a: seq<Byte>, b: seq<Byte>)
    requires |a| < 56 && |b| < 56 && (b == [] || b[0] != 0)
    requires var p := EncodeStr(a) + EncodeStr(b); |p| < 56 && s == [0xc0 + |p|] + p
    ensures Decode(s) == Some((a, FromBigEndian(b)))
  {
    hide EncodeStr, DecodeStr, FromBigEndian;
    DecodeEncodeStr(a, EncodeStr(b));
    DecodeEncodeStr(b, []);
    assert s[1..] == EncodeStr(a) + EncodeStr(b);
    assert EncodeStr(b) + [] == EncodeStr(b);
  }

  /** The preimage decodes to the deployer and nonce it was made from. */
  lemma PreimageDecodes(deployer: seq<Byte>, nonce: U64)
    requires |deployer| == 20
    ensures Decode(Preimage(deployer, nonce)) == Some((deployer, nonce))
  {
    hide EncodeStr, Decode, BigEndian, FromBigEndian, Preimage;
    BigEndianRoundTrip(nonce);
    PreimageShape(deployer, nonce);
    BigEndianOfZero(nonce);
    PairDecodes(Preimage(deployer, nonce), deployer, BigEndian(nonce));
  }

  lemma BigEndianOfZero(n: nat)
    ensures n == 0 ==> BigEndian(n) == []
  {
  }

  /** Hence two creations hash the same bytes only if deployer and nonce are the same. */
  lemma PreimageIsInjective(d1: seq<Byte>, n1: U64, d2: seq<Byte>, n2: U64)
    requires |d1| == 20 && |d2| == 20 && Preimage(d1, n1) == Preimage(d2, n2)
    ensures d1 == d2 && n1 == n2
  {
    PreimageDecodes(d1, n1);
    PreimageDecodes(d2, n2);
  }

  /** Canonical: the preimage is the only input the strict decoder reads as this pair. */
  lemma PreimageIsCanonical(s: seq<Byte>, deployer: seq<Byte>, nonce: U64)
    requires |deployer| == 20 && Decode(s) == Some((deployer, nonce))
    ensures s == Preimage(deployer, nonce)
  {
    var first, rest := DecodeStr(s[1..]).value.0, DecodeStr(s[1..]).value.1;
    var second := DecodeStr(rest).value.0;
    DecodedIsEncoded(s[1..]);
    DecodedIsEncoded(rest);
    FromBigEndianRoundTrip(second);
    NonceIsShort(nonce);
    assert s == [s[0]] + s[1..];
    assert rest == EncodeStr(second) + [] == EncodeStr(second);
  }

  lemma DecodedIsEncoded(s: seq<Byte>)
    requires DecodeStr(s).Some?
    ensures var (b, rest) := DecodeStr(s).value; |b| < 56 && s == EncodeStr(b) + rest
  {
  }

  lemma {:induction false} FromBigEndianRoundTrip(b: seq<Byte>)
    requires b != [] ==> b[0] != 0
    ensures BigEndian(FromBigEndian(b)) == b
    ensures b != [] ==> FromBigEndian(b) > 0
  {
    if b != [] {
      var front, last := b[..|b| - 1], b[|b| - 1];
      var high := FromBigEndian(front);
      FromBigEndianRoundTrip(front);
      assert FromBigEndian(b) == high * 256 + last;
      assert (high * 256 + last) / 256 == high && (high * 256 + last) % 256 == last;
      assert front == [] ==> b == [last] && high == 0 && last > 0;
      assert b == front + [last];
    }
  }

  // ---------- the code ----------

  /** The loop that fills an 8-byte buffer from the right. */
  method NonceBytes(nonce: U64) returns (r: seq<Byte>)
    ensures r == BigEndian(nonce)
  {
    var b := new Byte[8](_ => 0);
    var n: nat := nonce;
    var i := 7;
    NonceIsShort(nonce);
    while n > 0
      invariant -1 <= i <= 7
      invariant BigEndian(n) + b[i + 1..] == BigEndian(nonce)
    {
      assert BigEndian(n) == BigEndian(n / 256) + [n % 256];
      assert |BigEndian(n)| + 7 - i == |BigEndian(nonce)|;
      ghost var tail := b[i + 1..];
      b[i] := n % 256;
      assert b[i..] == [n % 256] + tail;
      assert BigEndian(n / 256) + ([n % 256] + tail) == BigEndian(n) + tail;
      n := n / 256;
      i := i - 1;
    }
    r := b[i + 1..];
  }

  method BuildPreimage(deployer: seq<Byte>, nonce: U64) returns (rlp: seq<Byte>)
    requires |deployer| == 20
    ensures rlp == Preimage(deployer, nonce)
  {
    NonceIsShort(nonce);
    var addrEncoded := [0x94] + deployer;
    var nonceEncoded: seq<Byte>;
    if nonce == 0 {
      nonceEncoded := [0x80];
    } else if nonce < 0x80 {
      nonceEncoded := [nonce];
      assert BigEndian(nonce) == BigEndian(0) + [nonce];
    } else {
      var b := NonceBytes(nonce);
      nonceEncoded := [0x80 + |b|] + b;
      LongNonce(nonce);
    }
    assert EncodeStr(BigEndian(nonce)) == nonceEncoded;
    assert EncodeStr(deployer) == addrEncoded;
    var listLen := |addrEncoded| + |nonceEncoded|;
    rlp := [0xc0 + listLen] + addrEncoded;
    rlp := rlp + nonceEncoded;
  }

  lemma LongNonce(nonce: U64)
    requires nonce >= 0x80
    ensures |BigEndian(nonce)| > 1 || BigEndian(nonce) == [nonce]
  {
    assert BigEndian(nonce) == BigEndian(nonce / 256) + [nonce % 256];
    if nonce >= 256 {
      BigEndianRoundTrip(nonce / 256);
    }
  }
}
