/** The bucket index of include/tcp_hash.h and the XOR loop of include/hash.h. */
module TcpHash {
  import opened Base

  const TCP_HASH_SIZE: int := 256

  /** Bitwise exclusive or, from the low bit up. */
  function Xor(a: nat, b: nat): nat
    decreases a + b
  {
    if a == 0 && b == 0 then 0 else 2 * Xor(a / 2, b / 2) + (a + b) % 2
  }

  function Bit(x: nat, i: nat): nat {
    if i == 0 then x % 2 else Bit(x / 2, i - 1)
  }

  /** Each bit of the exclusive or depends on that bit of the operands alone. */
  lemma {:induction false} XorBits(a: nat, b: nat, i: nat)
    ensures Bit(Xor(a, b), i) == (Bit(a, i) + Bit(b, i)) % 2
    decreases i
  {
    if i > 0 {
      XorBits(a / 2, b / 2, i - 1);
    }
  }

  /** hash8 over the bytes of a number in memory, where order does not matter. */
  function XorBytes(x: nat): nat {
    if x == 0 then 0 else Xor(XorBytes(x / 256), x % 256)
  }

  /** The bytes of an n-byte number in memory, most significant first. */
  function Memory(x: nat, n: nat): seq<byte>
    decreases n
  {
    if n == 0 then [] else Memory(x / 256, n - 1) + [x % 256]
  }

  function XorAll(s: seq<byte>): nat {
    if s == [] then 0 else Xor(XorAll(s[..|s| - 1]), s[|s| - 1])
  }

  method Hash8(buf: seq<byte>) returns (result: nat)
    ensures result == XorAll(buf)
  {
    result := 0;
    for i := 0 to |buf|
      invariant result == XorAll(buf[..i])
    {
      assert buf[..i + 1][..i] == buf[..i];
      result := Xor(result, buf[i]);
    }
    assert buf[..|buf|] == buf;
  }

  function Power256(n: nat): nat {
    if n == 0 then 1 else 256 * Power256(n - 1)
  }

  /** The loop of hash8 run over a number's bytes gives XorBytes. */
  lemma {:induction false} XorAllMemory(x: nat, n: nat)
    requires x < Power256(n)
    ensures XorAll(Memory(x, n)) == XorBytes(x)
    decreases n
  {
    if n > 0 {
      XorAllMemory(x / 256, n - 1);
      assert Memory(x, n)[..|Memory(x, n)| - 1] == Memory(x / 256, n - 1);
      if x == 0 {
        assert Xor(0, 0) == 0;
      }
    }
  }

  function HashIndex(saddr: u32, daddr: u32, sport: u16, dport: u16): (r: nat)
    ensures r < TCP_HASH_SIZE
  {
    Xor(Xor(Xor(XorBytes(saddr), XorBytes(daddr)), XorBytes(sport)), XorBytes(dport)) % TCP_HASH_SIZE
  }

  /** tcp_hash_function: hash8 over the bytes of each part, combined and masked */
  method HashFunction(saddr: u32, daddr: u32, sport: u16, dport: u16) returns (r: nat)
    ensures r == HashIndex(saddr, daddr, sport, dport) && r < TCP_HASH_SIZE
  {
    var a := HashNumber(saddr, 4);
    var b := HashNumber(daddr, 4);
    var c := HashNumber(sport, 2);
    var d := HashNumber(dport, 2);
    r := Xor(Xor(Xor(a, b), c), d) % TCP_HASH_SIZE;
  }

  /** hash8 over the n bytes of a number */
  method HashNumber(x: nat, n: nat) returns (r: nat)
    requires (n == 2 && x < TWO16) || (n == 4 && x < TWO32)
    ensures r == XorBytes(x)
  {
    assert x < Power256(n) by { PowersOf256(); }
    XorAllMemory(x, n);
    r := Hash8(Memory(x, n));
  }

  lemma PowersOf256()
    ensures Power256(2) == TWO16 && Power256(4) == TWO32
  {
  }

  // What the bucket index is, bit by bit

  predicate IsSet(x: nat, i: nat) {
    Bit(x, i) == 1
  }

  /** Whether bit i is set in an odd number of the bytes */
  predicate OddlySet(s: seq<byte>, i: nat) {
    s != [] && OddlySet(s[..|s| - 1], i) != IsSet(s[|s| - 1], i)
  }

  lemma {:induction false} BitRange(x: nat, i: nat)
    ensures Bit(x, i) == 0 || Bit(x, i) == 1
    decreases i
  {
    if i > 0 { BitRange(x / 2, i - 1); }
  }

  lemma {:induction false} ZeroBit(i: nat)
    ensures !IsSet(0, i)
  {
    if i > 0 { ZeroBit(i - 1); }
  }

  lemma XorSets(a: nat, b: nat, i: nat)
    ensures IsSet(Xor(a, b), i) <==> IsSet(a, i) != IsSet(b, i)
  {
    XorBits(a, b, i);
    BitRange(a, i);
    BitRange(b, i);
  }

  lemma {:induction false} XorAllSets(s: seq<byte>, i: nat)
    ensures IsSet(XorAll(s), i) <==> OddlySet(s, i)
  {
    if s == [] {
      ZeroBit(i);
    } else {
      XorAllSets(s[..|s| - 1], i);
      XorSets(XorAll(s[..|s| - 1]), s[|s| - 1], i);
    }
  }

  function Power2(n: nat): nat {
    if n == 0 then 1 else 2 * Power2(n - 1)
  }

  lemma {:induction false} XorBound(a: nat, b: nat, n: nat)
    requires a < Power2(n) && b < Power2(n)
    ensures Xor(a, b) < Power2(n)
  {
    if n > 0 && (a != 0 || b != 0) {
      XorBound(a / 2, b / 2, n - 1);
    }
  }

  lemma EightBits()
    ensures Power2(8) == 256
  {
    assert Power2(4) == 16;
  }

  lemma {:induction false} XorBytesBound(x: nat)
    ensures XorBytes(x) < Power2(8)
  {
    EightBits();
    if x > 0 {
      XorBytesBound(x / 256);
      XorBound(XorBytes(x / 256), x % 256, 8);
    }
  }

  /** The mask never takes anything away. */
  lemma MaskIdle(saddr: u32, daddr: u32, sport: u16, dport: u16)
    ensures HashIndex(saddr, daddr, sport, dport) == Xor(Xor(Xor(XorBytes(saddr), XorBytes(daddr)), XorBytes(sport)), XorBytes(dport))
  {
    var a, b, c, d := XorBytes(saddr), XorBytes(daddr), XorBytes(sport), XorBytes(dport);
    XorBytesBound(saddr);
    XorBytesBound(daddr);
    XorBytesBound(sport);
    XorBytesBound(dport);
    XorBound(a, b, 8);
    XorBound(Xor(a, b), c, 8);
    XorBound(Xor(Xor(a, b), c), d, 8);
    EightBits();
    SmallModulo(Xor(Xor(Xor(a, b), c), d));
  }

  lemma SmallModulo(x: nat)
    requires x < 256
    ensures x % TCP_HASH_SIZE == x
  {
  }

  /** A bit of the bucket index is set exactly when it is set in an odd number of
      the twelve bytes of the key. */
  lemma HashIndexBits(saddr: u32, daddr: u32, sport: u16, dport: u16, i: nat)
    ensures IsSet(HashIndex(saddr, daddr, sport, dport), i) <==>
      (((OddlySet(Memory(saddr, 4), i) != OddlySet(Memory(daddr, 4), i)) != OddlySet(Memory(sport, 2), i)) != OddlySet(Memory(dport, 2), i))
  {
    MaskIdle(saddr, daddr, sport, dport);
    FourSets(XorBytes(saddr), XorBytes(daddr), XorBytes(sport), XorBytes(dport), i);
    PartSets(saddr, 4, i);
    PartSets(daddr, 4, i);
    PartSets(sport, 2, i);
    PartSets(dport, 2, i);
  }

  lemma FourSets(a: nat, b: nat, c: nat, d: nat, i: nat)
    ensures IsSet(Xor(Xor(Xor(a, b), c), d), i) <==> (((IsSet(a, i) != IsSet(b, i)) != IsSet(c, i)) != IsSet(d, i))
  {
    XorSets(a, b, i);
    XorSets(Xor(a, b), c, i);
    XorSets(Xor(Xor(a, b), c), d, i);
  }

  lemma PartSets(x: nat, n: nat, i: nat)
    requires (n == 2 && x < TWO16) || (n == 4 && x < TWO32)
    ensures IsSet(XorBytes(x), i) <==> OddlySet(Memory(x, n), i)
  {
    assert x < Power256(n) by { PowersOf256(); }
    XorAllMemory(x, n);
    XorAllSets(Memory(x, n), i);
  }
}
