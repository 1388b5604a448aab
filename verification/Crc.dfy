/** The nibble-table CRC-32 that LittleFS uses, proved against the bit-serial reflected CRC
    and against the error-detection guarantees a CRC-32 is chosen for.
    Proofs by induction hide the bit-vector operations and use one lemma for each law of theirs. */
module Crc {
  import opened Folds

  // Reflected form of the polynomial 0x04c11db7.
  const POLY: bv32 := 0xedb88320

  const RTABLE: seq<bv32> := [
    0x00000000, 0x1db71064, 0x3b6e20c8, 0x26d930ac,
    0x76dc4190, 0x6b6b51f4, 0x4db26158, 0x5005713c,
    0xedb88320, 0xf00f9344, 0xd6d6a3e8, 0xcb61b38c,
    0x9b64c2b0, 0x86d3d2d4, 0xa00ae278, 0xbdbdf21c]

  // ----- the bit-serial specification

  function Mix(c: bv32, w: bv32): bv32 {
    c ^ w
  }

  /** One shift of the CRC register. */
  function Shift(c: bv32): bv32 {
    (c >> 1) ^ (if c & 1 == 1 then POLY else 0)
  }

  function Low(b: bool): bv32 {
    if b then 1 else 0
  }

  function Feed(c: bv32, b: bool): bv32 {
    Shift(Mix(c, Low(b)))
  }

  /** The bit-at-a-time CRC of a bit string, from register value c. */
  function BitCrc(c: bv32, bits: seq<bool>): bv32 {
    Fold(Feed, c, bits)
  }

  function NibbleBits(n: bv8): seq<bool> {
    [n & 1 == 1, n & 2 == 2, n & 4 == 4, n & 8 == 8]
  }

  /** The bits of a message: each byte least significant bit first. */
  function Bits(data: seq<bv8>): (bits: seq<bool>)
    ensures |bits| == 8 * |data|
  {
    if data == [] then [] else NibbleBits(data[0]) + NibbleBits(data[0] >> 4) + Bits(data[1..])
  }

  // ----- the table-driven implementation

  function Nibble(c: bv32, n: bv32): bv32 {
    (c >> 4) ^ RTABLE[((c ^ n) & 0xf) as int]
  }

  method LfsCrc(crc0: bv32, data: seq<bv8>) returns (crc: bv32)
    ensures crc == BitCrc(crc0, Bits(data))
  {
    crc := crc0;
    for i := 0 to |data|
      invariant BitCrc(crc0, Bits(data)) == BitCrc(crc, Bits(data[i..]))
    {
      ghost var before := crc;
      crc := Nibble(crc, data[i] as bv32);
      crc := Nibble(crc, data[i] as bv32 >> 4);
      ByteStep(before, data[i..]);
      assert data[i..][1..] == data[i + 1..];
    }
  }

  function Lookup(x: bv32): bv32 {
    (x >> 4) ^ RTABLE[(x & 0xf) as int]
  }

  lemma TableIsFourShifts(x: bv32)
    ensures Lookup(x) == ShiftN(x, 4)
  {
    assert Lookup(x) == Shift(Shift(Shift(Shift(x))));
    hide *;
    ShiftNFour(x);
  }

  lemma ShiftNFour(x: bv32)
    ensures ShiftN(x, 4) == Shift(Shift(Shift(Shift(x))))
  {
    hide Shift;
    assert ShiftN(x, 4) == ShiftN(Shift(Shift(x)), 2);
  }

  lemma NibbleIndex(c: bv32, n: bv32)
    ensures Nibble(c, n) == Lookup(c ^ (n & 0xf))
  {
    var x := c ^ (n & 0xf);
    assert (c ^ n) & 0xf == x & 0xf;
    assert c >> 4 == x >> 4;
  }

  lemma NibbleWord(n: bv8)
    ensures Word(NibbleBits(n)) == n as bv32 & 0xf
  {
    var b := NibbleBits(n);
    assert b[1..][1..] == b[2..] && b[2..][1..] == b[3..] && b[3..][1..] == [];
    assert Word(b[3..]) == Cons(b[3], 0);
    assert Word(b[2..]) == Cons(b[2], Word(b[3..]));
    assert Word(b[1..]) == Cons(b[1], Word(b[2..]));
  }

  lemma NibbleLookup(c: bv32, n: bv32, w: bv32)
    requires w == n & 0xf
    ensures Nibble(c, n) == Lookup(Mix(c, w))
  {
    hide *;
    NibbleIndex(c, n);
    MixIs(c, w);
  }

  /** Where four bits meet the register: the table lookup is four bit-serial steps. */
  lemma NibbleStep(c: bv32, n: bv8)
    ensures Nibble(c, n as bv32) == BitCrc(c, NibbleBits(n))
  {
    assert |NibbleBits(n)| == 4;
    hide *;
    NibbleWord(n);
    var w := Word(NibbleBits(n));
    NibbleLookup(c, n as bv32, w);
    TableIsFourShifts(Mix(c, w));
    Absorb(c, NibbleBits(n));
  }

  lemma ByteStep(c: bv32, data: seq<bv8>)
    requires data != []
    ensures BitCrc(c, Bits(data))
         == BitCrc(Nibble(Nibble(c, data[0] as bv32), data[0] as bv32 >> 4), Bits(data[1..]))
  {
    var lo, hi := NibbleBits(data[0]), NibbleBits(data[0] >> 4);
    NibbleStep(c, data[0]);
    NibbleStep(Nibble(c, data[0] as bv32), data[0] >> 4);
    assert (data[0] >> 4) as bv32 == data[0] as bv32 >> 4;
    Chain(Feed, c, lo, hi);
    Chain(Feed, c, lo + hi, Bits(data[1..]));
  }

  // ----- bit strings as register words

  function ShiftN(x: bv32, n: nat): bv32
    decreases n
  {
    if n == 0 then x else ShiftN(Shift(x), n - 1)
  }

  function Cons(b: bool, w: bv32): bv32 {
    if b then (w << 1) ^ 1 else w << 1
  }

  function Word(u: seq<bool>): bv32
    decreases |u|
  {
    if u == [] then 0 else Cons(u[0], Word(u[1..]))
  }

  predicate TopClear(x: bv32) {
    x & 0x8000_0000 == 0
  }

  /** The top j bits of x are zero. */
  predicate Clear(x: bv32, j: nat)
    decreases j
  {
    j == 0 || (TopClear(x) && Clear(x << 1, j - 1))
  }

  lemma {:induction false} ClearXor(x: bv32, y: bv32, j: nat)
    requires Clear(x, j) && Clear(y, j)
    ensures Clear(x ^ y, j)
    decreases j
  {
    if j != 0 {
      ClearXor(x << 1, y << 1, j - 1);
      assert (x ^ y) << 1 == (x << 1) ^ (y << 1);
    }
  }

  lemma {:induction false} ClearZero(j: nat)
    ensures Clear(0, j)
    decreases j
  {
    if j != 0 {
      assert (0 as bv32) << 1 == 0;
      ClearZero(j - 1);
    }
  }

  lemma ClearFour(x: bv32, j: nat)
    requires x & 0xf000_0000 == 0 && Clear(x << 4, j)
    ensures Clear(x, j + 4)
  {
    assert (x << 3) << 1 == x << 4 && TopClear(x << 3);
    assert Clear(x << 3, j + 1);
    assert (x << 2) << 1 == x << 3 && TopClear(x << 2);
    assert Clear(x << 2, j + 2);
    assert (x << 1) << 1 == x << 2 && TopClear(x << 1);
    assert Clear(x << 1, j + 3);
    assert TopClear(x);
  }

  lemma {:induction false} ClearLess(x: bv32, j: nat, k: nat)
    requires Clear(x, j) && k <= j
    ensures Clear(x, k)
    decreases k
  {
    if k != 0 {
      ClearLess(x << 1, j - 1, k - 1);
    }
  }

  lemma ClearOne()
    ensures Clear(1, 31)
  {
    ClearFour(0x0100_0000, 3);
    ClearFour(0x0010_0000, 7);
    ClearFour(0x0001_0000, 11);
    ClearFour(0x0000_1000, 15);
    ClearFour(0x0000_0100, 19);
    ClearFour(0x0000_0010, 23);
    ClearFour(0x0000_0001, 27);
  }

  lemma ClearCons(b: bool, w: bv32, j: nat)
    requires j <= 31 && Clear(w, j + 1)
    ensures Clear(Cons(b, w), j)
  {
    ClearOne();
    ClearLess(1, 31, j);
    ClearXor(w << 1, 1, j);
  }

  lemma {:induction false} WordFits(u: seq<bool>)
    requires |u| <= 32
    ensures Clear(Word(u), 32 - |u|)
    decreases |u|
  {
    hide Clear, Cons;
    if u == [] {
      ClearZero(32);
    } else {
      WordFits(u[1..]);
      ClearCons(u[0], Word(u[1..]), 32 - |u|);
    }
  }

  lemma WordTopClear(u: seq<bool>)
    requires |u| <= 31
    ensures TopClear(Word(u))
  {
    WordFits(u);
    hide Word;
    assert Clear(Word(u), 32 - |u|);
  }

  lemma FeedAbsorbs(c: bv32, b: bool, w: bv32)
    requires TopClear(w)
    ensures Mix(Feed(c, b), w) == Shift(Mix(c, Cons(b, w)))
  {
    ConsMix(b, w);
    ShiftDouble(w);
    MixAssoc(c, Low(b), Double(w));
    ShiftMix(Mix(c, Low(b)), Double(w));
    hide Mix, Cons, Shift, Low, Double, TopClear;
  }

  function Double(w: bv32): bv32 {
    w << 1
  }

  lemma ConsMix(b: bool, w: bv32)
    ensures Cons(b, w) == Mix(Low(b), Double(w))
  {
    if b {
      assert Low(b) == 1;
    } else {
      assert Low(b) == 0;
    }
  }

  lemma ShiftDouble(w: bv32)
    requires TopClear(w)
    ensures Shift(Double(w)) == w
  {
    assert (w << 1) & 1 == 0;
  }

  /** Feeding up to 32 bits is XOR-ing in their word and then shifting that many times. */
  lemma {:induction false} Absorb(c: bv32, u: seq<bool>)
    requires |u| <= 32
    ensures BitCrc(c, u) == ShiftN(Mix(c, Word(u)), |u|)
    decreases |u|
  {
    hide Mix, Cons, Shift, Feed;
    if u == [] {
      assert Mix(c, 0) == c by { MixZero(c); }
    } else {
      Absorb(Feed(c, u[0]), u[1..]);
      WordTopClear(u[1..]);
      FeedAbsorbs(c, u[0], Word(u[1..]));
    }
  }

  lemma MixIs(c: bv32, w: bv32)
    ensures Mix(c, w) == c ^ w
  {
  }

  lemma MixZero(c: bv32)
    ensures Mix(c, 0) == c
  {
  }

  // ----- algebra of the CRC

  /** Bit strings combine by XOR, position by position. */
  function Xor(a: seq<bool>, b: seq<bool>): (x: seq<bool>)
    requires |a| == |b|
    ensures |x| == |a|
  {
    seq(|a|, i requires 0 <= i < |a| => a[i] != b[i])
  }

  function Half(c: bv32): bv32 {
    c >> 1
  }

  function Carry(c: bv32): bv32 {
    if c & 1 == 1 then POLY else 0
  }

  lemma ShiftParts(c: bv32)
    ensures Shift(c) == Mix(Half(c), Carry(c))
  {
    if c & 1 == 1 {
      assert Carry(c) == POLY;
    } else {
      assert Carry(c) == 0;
    }
  }

  lemma HalfMix(x: bv32, y: bv32)
    ensures Half(Mix(x, y)) == Mix(Half(x), Half(y))
  {
  }

  lemma CarryMix(x: bv32, y: bv32)
    ensures Carry(Mix(x, y)) == Mix(Carry(x), Carry(y))
  {
  }

  lemma LowMix(a: bool, b: bool)
    ensures Low(a != b) == Mix(Low(a), Low(b))
  {
  }

  lemma MixComm(a: bv32, b: bv32)
    ensures Mix(a, b) == Mix(b, a)
  {
  }

  lemma MixAssoc(a: bv32, b: bv32, c: bv32)
    ensures Mix(Mix(a, b), c) == Mix(a, Mix(b, c))
  {
  }

  lemma SwapMix(a: bv32, b: bv32, p: bv32, q: bv32)
    ensures Mix(Mix(a, b), Mix(p, q)) == Mix(Mix(a, p), Mix(b, q))
  {
    hide *;
    MixAssoc(a, b, Mix(p, q));
    MixAssoc(b, p, q);
    MixComm(b, p);
    MixAssoc(p, b, q);
    MixAssoc(a, p, Mix(b, q));
  }

  lemma ShiftMix(x: bv32, y: bv32)
    ensures Shift(Mix(x, y)) == Mix(Shift(x), Shift(y))
  {
    hide *;
    ShiftParts(x);
    ShiftParts(y);
    ShiftParts(Mix(x, y));
    HalfMix(x, y);
    CarryMix(x, y);
    SwapMix(Half(x), Half(y), Carry(x), Carry(y));
  }

  lemma FeedMix(c: bv32, d: bv32, x: bool, y: bool)
    ensures Feed(Mix(c, d), x != y) == Mix(Feed(c, x), Feed(d, y))
  {
    hide Mix, Low, Shift;
    LowMix(x, y);
    SwapMix(c, d, Low(x), Low(y));
    ShiftMix(Mix(c, Low(x)), Mix(d, Low(y)));
  }

  lemma FirstBit(c: bv32, a: seq<bool>)
    requires a != []
    ensures BitCrc(c, a) == BitCrc(Feed(c, a[0]), a[1..])
  {
    hide Feed;
  }

  /** The CRC is linear over GF(2) in register and message together. */
  lemma {:induction false} Linear(c: bv32, d: bv32, a: seq<bool>, b: seq<bool>)
    requires |a| == |b|
    ensures BitCrc(Mix(c, d), Xor(a, b)) == Mix(BitCrc(c, a), BitCrc(d, b))
    decreases |a|
  {
    hide Mix, Feed;
    if a != [] {
      FeedMix(c, d, a[0], b[0]);
      assert Xor(a, b)[1..] == Xor(a[1..], b[1..]) && Xor(a, b)[0] == (a[0] != b[0]);
      FirstBit(c, a);
      FirstBit(d, b);
      FirstBit(Mix(c, d), Xor(a, b));
      hide BitCrc, Xor;
      Linear(Feed(c, a[0]), Feed(d, b[0]), a[1..], b[1..]);
    }
  }

  lemma {:induction false} BitsConcat(a: seq<bv8>, b: seq<bv8>)
    ensures Bits(a + b) == Bits(a) + Bits(b)
    decreases |a|
  {
    hide NibbleBits;
    if a == [] {
      assert a + b == b;
    } else {
      assert (a + b)[1..] == a[1..] + b;
      BitsConcat(a[1..], b);
    }
  }

  /** Checksumming a buffer in two calls is checksumming it in one. */
  lemma Chainable(c: bv32, a: seq<bv8>, b: seq<bv8>)
    ensures BitCrc(BitCrc(c, Bits(a)), Bits(b)) == BitCrc(c, Bits(a + b))
  {
    BitsConcat(a, b);
    Chain(Feed, c, Bits(a), Bits(b));
  }

  // ----- error detection

  lemma ShiftInjective(x: bv32, y: bv32)
    requires Shift(x) == Shift(y)
    ensures x == y
  {
  }

  lemma FeedInjective(c: bv32, d: bv32, b: bool)
    requires Feed(c, b) == Feed(d, b)
    ensures c == d
  {
  }

  lemma MixInjective(c: bv32, d: bv32, w: bv32)
    ensures Mix(c, w) == Mix(d, w) ==> c == d
    ensures Mix(w, c) == Mix(w, d) ==> c == d
  {
  }

  /** With the same bits still to come, different registers stay different. */
  lemma {:induction false} RegisterInjective(c: bv32, d: bv32, u: seq<bool>)
    requires BitCrc(c, u) == BitCrc(d, u)
    ensures c == d
    decreases |u|
  {
    hide Feed;
    if u != [] {
      RegisterInjective(Feed(c, u[0]), Feed(d, u[0]), u[1..]);
      FeedInjective(c, d, u[0]);
    }
  }

  lemma {:induction false} ShiftNInjective(x: bv32, y: bv32, n: nat)
    requires ShiftN(x, n) == ShiftN(y, n)
    ensures x == y
    decreases n
  {
    hide Shift;
    if n != 0 {
      ShiftNInjective(Shift(x), Shift(y), n - 1);
      ShiftInjective(x, y);
    }
  }

  lemma ConsInjective(a: bool, x: bv32, b: bool, y: bv32)
    requires TopClear(x) && TopClear(y)
    requires Cons(a, x) == Cons(b, y)
    ensures a == b && x == y
  {
  }

  lemma {:induction false} WordInjective(u: seq<bool>, v: seq<bool>)
    requires |u| == |v| <= 32 && Word(u) == Word(v)
    ensures u == v
    decreases |u|
  {
    hide Cons, TopClear;
    if u != [] {
      WordTopClear(u[1..]);
      WordTopClear(v[1..]);
      ConsInjective(u[0], Word(u[1..]), v[0], Word(v[1..]));
      WordInjective(u[1..], v[1..]);
      assert u == [u[0]] + u[1..] && v == [v[0]] + v[1..];
    }
  }

  lemma WindowInjective(c: bv32, u: seq<bool>, v: seq<bool>)
    requires |u| == |v| <= 32 && BitCrc(c, u) == BitCrc(c, v)
    ensures u == v
  {
    hide *;
    Absorb(c, u);
    Absorb(c, v);
    ShiftNInjective(Mix(c, Word(u)), Mix(c, Word(v)), |u|);
    MixInjective(Word(u), Word(v), c);
    WordInjective(u, v);
  }

  /** Bit strings that differ only inside a window of 32 consecutive bits, wherever it lies and
      whatever surrounds it, never share a CRC. */
  lemma BurstDetected(c: bv32, prefix: seq<bool>, u: seq<bool>, v: seq<bool>, suffix: seq<bool>)
    requires |u| == |v| <= 32
    ensures BitCrc(c, prefix + u + suffix) == BitCrc(c, prefix + v + suffix) <==> u == v
  {
    hide Feed;
    var d := BitCrc(c, prefix);
    Chain(Feed, c, prefix, u);
    Chain(Feed, c, prefix, v);
    Chain(Feed, c, prefix + u, suffix);
    Chain(Feed, c, prefix + v, suffix);
    if BitCrc(c, prefix + u + suffix) == BitCrc(c, prefix + v + suffix) {
      RegisterInjective(BitCrc(d, u), BitCrc(d, v), suffix);
      WindowInjective(d, u, v);
    }
  }

  lemma ByteBitsInjective(x: bv8, y: bv8)
    requires NibbleBits(x) == NibbleBits(y) && NibbleBits(x >> 4) == NibbleBits(y >> 4)
    ensures x == y
  {
    assert NibbleBits(x)[0] == NibbleBits(y)[0] && NibbleBits(x)[1] == NibbleBits(y)[1];
    assert NibbleBits(x)[2] == NibbleBits(y)[2] && NibbleBits(x)[3] == NibbleBits(y)[3];
    assert NibbleBits(x >> 4)[0] == NibbleBits(y >> 4)[0] && NibbleBits(x >> 4)[1] == NibbleBits(y >> 4)[1];
    assert NibbleBits(x >> 4)[2] == NibbleBits(y >> 4)[2] && NibbleBits(x >> 4)[3] == NibbleBits(y >> 4)[3];
  }

  lemma {:induction false} BitsInjective(a: seq<bv8>, b: seq<bv8>)
    requires |a| == |b| && Bits(a) == Bits(b)
    ensures a == b
    decreases |a|
  {
    if a != [] {
      var x, y := NibbleBits(a[0]), NibbleBits(b[0]);
      var p, q := NibbleBits(a[0] >> 4), NibbleBits(b[0] >> 4);
      assert |x| == |y| == |p| == |q| == 4;
      hide NibbleBits;
      assert Bits(a) == x + p + Bits(a[1..]) && Bits(b) == y + q + Bits(b[1..]);
      assert x == Bits(a)[..4] == Bits(b)[..4] == y;
      assert p == Bits(a)[4..8] == Bits(b)[4..8] == q;
      assert Bits(a[1..]) == Bits(a)[8..] == Bits(b)[8..] == Bits(b[1..]);
      ByteBitsInjective(a[0], b[0]);
      BitsInjective(a[1..], b[1..]);
      assert a == [a[0]] + a[1..] && b == [b[0]] + b[1..];
    }
  }

  lemma ByteBurstDetected(c: bv32, prefix: seq<bv8>, u: seq<bv8>, v: seq<bv8>, suffix: seq<bv8>)
    requires |u| == |v| <= 4
    ensures BitCrc(c, Bits(prefix + u + suffix)) == BitCrc(c, Bits(prefix + v + suffix)) <==> u == v
  {
    hide BitCrc, Fold;
    BitsConcat(prefix, u);
    BitsConcat(prefix, v);
    BitsConcat(prefix + u, suffix);
    BitsConcat(prefix + v, suffix);
    hide Bits;
    BurstDetected(c, Bits(prefix), Bits(u), Bits(v), Bits(suffix));
    if Bits(u) == Bits(v) {
      BitsInjective(u, v);
    }
  }

  /** Two messages of one length that differ only inside some four consecutive bytes have
      different checksums, whatever the start value. */
  lemma WindowDetected(c: bv32, m: seq<bv8>, n: seq<bv8>, i: nat)
    requires |m| == |n|
    requires forall k :: 0 <= k < |m| && !(i <= k < i + 4) ==> m[k] == n[k]
    ensures BitCrc(c, Bits(m)) == BitCrc(c, Bits(n)) <==> m == n
  {
    hide *;
    var lo := if i < |m| then i else |m|;
    var hi := if i + 4 < |m| then i + 4 else |m|;
    assert m[..lo] == n[..lo] && m[hi..] == n[hi..];
    Cut(m, lo, hi);
    Cut(n, lo, hi);
    ByteBurstDetected(c, m[..lo], m[lo..hi], n[lo..hi], m[hi..]);
  }

  lemma Cut(m: seq<bv8>, lo: nat, hi: nat)
    requires lo <= hi <= |m|
    ensures m == m[..lo] + m[lo..hi] + m[hi..]
  {
  }

  // ----- a message followed by its own checksum

  /** The low n bytes of a register value, least significant first. */
  function Bytes(c: bv32, n: nat): (b: seq<bv8>)
    ensures |b| == n
    decreases n
  {
    if n == 0 then [] else [(c & 0xff) as bv8] + Bytes(c >> 8, n - 1)
  }

  function Drop(c: bv32, n: nat): bv32
    decreases n
  {
    if n == 0 then c else Drop(c >> 8, n - 1)
  }

  lemma NibbleOfSelf(c: bv32, n: bv32)
    requires c & 0xf == n & 0xf
    ensures Nibble(c, n) == c >> 4
  {
    assert (c ^ n) & 0xf == 0;
  }

  /** Feeding the register its own low byte shifts that byte out and nothing in. */
  lemma OwnByte(c: bv32, t: seq<bv8>)
    ensures BitCrc(c, Bits([(c & 0xff) as bv8] + t)) == BitCrc(c >> 8, Bits(t))
  {
    var b := (c & 0xff) as bv8;
    var data := [b] + t;
    assert data[1..] == t;
    assert Nibble(c, b as bv32) == c >> 4 by { NibbleOfSelf(c, b as bv32); }
    assert Nibble(c >> 4, b as bv32 >> 4) == c >> 8 by {
      assert (c >> 4) >> 4 == c >> 8;
      NibbleOfSelf(c >> 4, b as bv32 >> 4);
    }
    hide *;
    ByteStep(c, data);
  }

  lemma {:induction false} OwnBytes(c: bv32, n: nat)
    ensures BitCrc(c, Bits(Bytes(c, n))) == Drop(c, n)
    decreases n
  {
    hide BitCrc, Bits;
    if n == 0 {
      assert BitCrc(c, Bits([])) == c by { NoBits(c); }
    } else {
      OwnByte(c, Bytes(c >> 8, n - 1));
      OwnBytes(c >> 8, n - 1);
    }
  }

  lemma NoBits(c: bv32)
    ensures BitCrc(c, Bits([])) == c
  {
  }

  /** Appending the checksum, low byte first, always drives the register to zero. */
  lemma Residue(c: bv32, data: seq<bv8>)
    ensures BitCrc(c, Bits(data + Bytes(BitCrc(c, Bits(data)), 4))) == 0
  {
    hide *;
    var s := BitCrc(c, Bits(data));
    Chainable(c, data, Bytes(s, 4));
    OwnBytes(s, 4);
    DropAll(s);
  }

  lemma DropAll(c: bv32)
    ensures Drop(c, 4) == 0
  {
    assert Drop(c, 4) == Drop((c >> 8) >> 8, 2);
  }

  lemma ZeroingWindow(c: bv32, prefix: seq<bv8>, x: bv8) returns (u: seq<bv8>)
    ensures |u| == 5 && u[0] == x
    ensures BitCrc(c, Bits(prefix + u)) == 0
  {
    hide *;
    var b := Bytes(BitCrc(c, Bits(prefix + [x])), 4);
    u := [x] + b;
    assert prefix + u == prefix + [x] + b;
    Residue(c, prefix + [x]);
  }

  /** Four bytes is the limit: inside any surroundings some five-byte change goes unnoticed. */
  lemma FiveBytesMissed(c: bv32, prefix: seq<bv8>, suffix: seq<bv8>)
    returns (u: seq<bv8>, v: seq<bv8>)
    ensures |u| == |v| == 5 && u != v
    ensures BitCrc(c, Bits(prefix + u + suffix)) == BitCrc(c, Bits(prefix + v + suffix))
  {
    hide *;
    u := ZeroingWindow(c, prefix, 0);
    v := ZeroingWindow(c, prefix, 1);
    Chainable(c, prefix + u, suffix);
    Chainable(c, prefix + v, suffix);
  }
}
