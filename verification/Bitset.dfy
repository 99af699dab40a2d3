// The word-array bitset of lcm/porcupine/bitset.go as a refinement of finite sets of naturals.
module Bitset {
  import opened Basics

  // The word operations, named so that proofs about positions need not look inside them.
  function Shl(w: bv64): bv64 { w << 1 }

  function And(a: bv64, b: bv64): bv64 { a & b }

  function Or(a: bv64, b: bv64): bv64 { a | b }

  function AndNot(a: bv64, b: bv64): bv64 { a & !b }

  // The Go expression 1 << k.
  function Mask(k: nat): bv64
  {
    if k == 0 then 1 else Shl(Mask(k - 1))
  }

  predicate Bit(w: bv64, k: nat)
  {
    And(w, Mask(k)) != 0
  }

  // Whether position `pos` is on.
  predicate Has(words: seq<bv64>, pos: nat)
    requires pos < 64 * |words|
  {
    Bit(words[pos / 64], pos % 64)
  }

  // The finite set that a word sequence stands for.
  ghost function View(words: seq<bv64>): set<nat>
  {
    set p: nat | p < 64 * |words| && Has(words, p)
  }

  // ----- facts about one word

  lemma ShiftDisjoint(m: bv64, n: bv64)
    requires And(m, n) == 0
    ensures And(Shl(m), Shl(n)) == 0
  {}

  lemma OneDisjoint(m: bv64)
    ensures And(1, Shl(m)) == 0 && And(Shl(m), 1) == 0
  {}

  // Distinct positions have disjoint masks.
  lemma {:induction false} MasksDisjoint(i: nat, j: nat)
    requires i != j
    ensures And(Mask(i), Mask(j)) == 0
  {
    hide And, Shl;
    if i == 0 {
      OneDisjoint(Mask(j - 1));
    } else if j == 0 {
      OneDisjoint(Mask(i - 1));
    } else {
      MasksDisjoint(i - 1, j - 1);
      ShiftDisjoint(Mask(i - 1), Mask(j - 1));
    }
  }

  function Shl8(w: bv64): bv64 { w << 8 }

  lemma EightShifts(m: bv64)
    ensures Shl(Shl(Shl(Shl(Shl(Shl(Shl(Shl(m)))))))) == Shl8(m)
  {}

  lemma {:induction false} MaskNextByte(k: nat)
    ensures Mask(k + 8) == Shl8(Mask(k))
  {
    hide Shl, Shl8;
    assert Mask(k + 2) == Shl(Shl(Mask(k)));
    assert Mask(k + 4) == Shl(Shl(Mask(k + 2)));
    assert Mask(k + 6) == Shl(Shl(Mask(k + 4)));
    EightShifts(Mask(k));
  }

  lemma OneShifted()
    ensures Shl8(Shl8(Shl8(Shl8(Shl8(Shl8(Shl8(Shl8(1)))))))) == 0
    ensures Shl(Shl(Shl(Shl(Shl(Shl(Shl(Shl8(Shl8(Shl8(Shl8(Shl8(Shl8(Shl8(1)))))))))))))) != 0
  {}

  lemma {:induction false} Mask56()
    ensures Mask(56) == Shl8(Shl8(Shl8(Shl8(Shl8(Shl8(Shl8(1)))))))
  {
    hide Shl, Shl8;
    MaskNextByte(0); MaskNextByte(8); MaskNextByte(16); MaskNextByte(24);
    MaskNextByte(32); MaskNextByte(40); MaskNextByte(48);
  }

  lemma {:induction false} Mask63()
    ensures Mask(63) == Shl(Shl(Shl(Shl(Shl(Shl(Shl(Mask(56))))))))
  {
    hide Shl;
    assert Mask(58) == Shl(Shl(Mask(56)));
    assert Mask(60) == Shl(Shl(Mask(58)));
    assert Mask(62) == Shl(Shl(Mask(60)));
  }

  // Position 63 is the last one: the next shift drops the bit.
  lemma {:induction false} LastMask()
    ensures Mask(64) == 0 && Mask(63) != 0
  {
    hide Shl, Shl8, Mask;
    Mask56();
    Mask63();
    MaskNextByte(56);
    OneShifted();
  }

  lemma ShlZero()
    ensures Shl(0) == 0
  {}

  lemma {:induction false} MaskNonzero(k: nat)
    requires k < 64
    ensures Mask(k) != 0
    decreases 63 - k
  {
    hide Shl;
    if k == 63 {
      LastMask();
    } else {
      MaskNonzero(k + 1);
      ShlZero();
    }
  }

  lemma OrSame(w: bv64, m: bv64)
    requires m != 0
    ensures And(Or(w, m), m) != 0
  {}

  lemma OrOther(w: bv64, m: bv64, n: bv64)
    requires And(m, n) == 0
    ensures And(Or(w, m), n) == And(w, n)
  {}

  lemma AndNotSame(w: bv64, m: bv64)
    ensures And(AndNot(w, m), m) == 0
  {}

  lemma AndNotOther(w: bv64, m: bv64, n: bv64)
    requires And(m, n) == 0
    ensures And(AndNot(w, m), n) == And(w, n)
  {}

  lemma {:induction false} SetBit(w: bv64, i: nat, j: nat)
    requires i < 64
    ensures Bit(Or(w, Mask(i)), j) <==> i == j || Bit(w, j)
  {
    hide And, Or, Mask;
    if i == j {
      MaskNonzero(i);
      OrSame(w, Mask(i));
    } else {
      MasksDisjoint(i, j);
      OrOther(w, Mask(i), Mask(j));
    }
  }

  lemma {:induction false} ClearBit(w: bv64, i: nat, j: nat)
    ensures Bit(AndNot(w, Mask(i)), j) <==> i != j && Bit(w, j)
  {
    hide And, AndNot, Mask;
    if i == j {
      AndNotSame(w, Mask(i));
    } else {
      MasksDisjoint(i, j);
      AndNotOther(w, Mask(i), Mask(j));
    }
  }

  // m is zero or a power of two.
  predicate Single(m: bv64) { m & (m - 1) == 0 }

  lemma ShiftSingle(m: bv64)
    requires Single(m)
    ensures Single(Shl(m))
  {}

  lemma {:induction false} MaskSingle(k: nat)
    ensures Single(Mask(k))
  {
    hide Shl;
    if k > 0 {
      MaskSingle(k - 1);
      ShiftSingle(Mask(k - 1));
    }
  }

  function Xor(a: bv64, b: bv64): bv64 { a ^ b }

  lemma SingleXor(m: bv64, a: bv64, b: bv64)
    requires Single(m)
    requires And(a, m) != 0 <==> And(b, m) != 0
    ensures And(Xor(a, b), m) == 0
  {
    assert a & m == 0 || a & m == m;
    assert b & m == 0 || b & m == m;
  }

  // The bits below the one bit of m.
  function BitsBelow(m: bv64): bv64 { m - 1 }

  lemma BelowTwice(m: bv64)
    requires Single(m)
    ensures BitsBelow(Shl(m)) == Or(BitsBelow(m), m)
  {}

  lemma OrOfZeros(x: bv64, a: bv64, b: bv64)
    requires And(x, a) == 0 && And(x, b) == 0
    ensures And(x, Or(a, b)) == 0
  {}

  lemma BelowNext(x: bv64, m: bv64)
    requires Single(m) && And(x, BitsBelow(m)) == 0 && And(x, m) == 0
    ensures And(x, BitsBelow(Shl(m))) == 0
  {
    BelowTwice(m);
    OrOfZeros(x, BitsBelow(m), m);
    hide And, Or, BitsBelow, Shl;
  }

  lemma BelowOne(x: bv64)
    ensures And(x, BitsBelow(1)) == 0
  {}

  lemma {:induction false} LowBitsZero(x: bv64, k: nat)
    requires forall j: nat :: j < k ==> !Bit(x, j)
    ensures And(x, BitsBelow(Mask(k))) == 0
  {
    hide Shl, And, BitsBelow, Single;
    if k == 0 {
      BelowOne(x);
    } else {
      LowBitsZero(x, k - 1);
      assert !Bit(x, k - 1);
      MaskSingle(k - 1);
      BelowNext(x, Mask(k - 1));
    }
  }

  lemma XorZero(a: bv64, b: bv64)
    requires And(Xor(a, b), BitsBelow(0)) == 0
    ensures a == b
  {}

  // Two words with the same bits are the same word.
  lemma {:induction false} WordExtensional(a: bv64, b: bv64)
    requires forall j: nat :: j < 64 ==> Bit(a, j) == Bit(b, j)
    ensures a == b
  {
    hide Mask, And, Xor, BitsBelow, Single;
    forall j: nat | j < 64
      ensures !Bit(Xor(a, b), j)
    {
      assert Bit(a, j) == Bit(b, j);
      MaskSingle(j);
      SingleXor(Mask(j), a, b);
    }
    LowBitsZero(Xor(a, b), 64);
    LastMask();
    XorZero(a, b);
  }

  // ----- word sequences

  // Word sequences of one length are equal exactly when they stand for the same set: this is
  // why comparing words decides equality of sets.
  lemma {:induction false} ViewInjective(a: seq<bv64>, b: seq<bv64>)
    requires |a| == |b|
    ensures View(a) == View(b) <==> a == b
  {
    hide Bit;
    if View(a) == View(b) {
      forall i: nat | i < |a|
        ensures a[i] == b[i]
      {
        forall j: nat | j < 64
          ensures Bit(a[i], j) == Bit(b[i], j)
        {
          var p := 64 * i + j;
          assert p / 64 == i && p % 64 == j;
          assert (p in View(a)) == (p in View(b));
        }
        WordExtensional(a[i], b[i]);
      }
    }
  }

  lemma {:induction false} SetView(words: seq<bv64>, pos: nat)
    requires pos < 64 * |words|
    ensures View(words[pos / 64 := Or(words[pos / 64], Mask(pos % 64))]) == View(words) + {pos}
  {
    hide Bit, Or, Mask;
    var words' := words[pos / 64 := Or(words[pos / 64], Mask(pos % 64))];
    forall p: nat | p < 64 * |words|
      ensures Has(words', p) <==> p == pos || Has(words, p)
    {
      SetBit(words[pos / 64], pos % 64, p % 64);
    }
  }

  lemma {:induction false} ClearView(words: seq<bv64>, pos: nat)
    requires pos < 64 * |words|
    ensures View(words[pos / 64 := AndNot(words[pos / 64], Mask(pos % 64))]) == View(words) - {pos}
  {
    hide Bit, AndNot, Mask;
    var words' := words[pos / 64 := AndNot(words[pos / 64], Mask(pos % 64))];
    forall p: nat | p < 64 * |words|
      ensures Has(words', p) <==> p != pos && Has(words, p)
    {
      ClearBit(words[pos / 64], pos % 64, p % 64);
    }
  }

  lemma ZeroBit(k: nat)
    ensures !Bit(0, k)
  {}

  // ----- the operations

  method NewBitset(bits: nat) returns (b: array<bv64>)
    ensures fresh(b)
    ensures bits <= 64 * b.Length < bits + 64
    ensures View(b[..]) == {}
  {
    var extra := 0;
    if bits % 64 != 0 {
      extra := 1;
    }
    var chunks := bits / 64 + extra;
    b := new bv64[chunks](_ => 0);
    forall p: nat | p < 64 * chunks
      ensures !Has(b[..], p)
    {
      assert b[..][p / 64] == 0;
      ZeroBit(p % 64);
    }
  }

  method Clone(b: array<bv64>) returns (c: array<bv64>)
    ensures fresh(c)
    ensures c[..] == b[..] && c.Length == b.Length
  {
    c := new bv64[b.Length](_ => 0);
    for i := 0 to b.Length
      invariant c[..i] == b[..i]
    {
      c[i] := b[i];
    }
    assert c[..] == c[..b.Length] && b[..] == b[..b.Length];
  }

  method Set(b: array<bv64>, pos: nat)
    requires pos < 64 * b.Length
    modifies b
    ensures View(b[..]) == old(View(b[..])) + {pos}
  {
    hide Bit, Or, Mask;
    SetView(b[..], pos);
    ghost var words := b[..];
    var major, minor := pos / 64, pos % 64;
    b[major] := Or(b[major], Mask(minor));
    assert b[..] == words[major := Or(words[major], Mask(minor))];
  }

  method Clear(b: array<bv64>, pos: nat)
    requires pos < 64 * b.Length
    modifies b
    ensures View(b[..]) == old(View(b[..])) - {pos}
  {
    hide Bit, AndNot, Mask;
    ClearView(b[..], pos);
    ghost var words := b[..];
    var major, minor := pos / 64, pos % 64;
    b[major] := AndNot(b[major], Mask(minor));
    assert b[..] == words[major := AndNot(words[major], Mask(minor))];
  }

  method Get(b: array<bv64>, pos: nat) returns (on: bool)
    requires pos < 64 * b.Length
    ensures on <==> pos in View(b[..])
  {
    hide And, Mask;
    var major, minor := pos / 64, pos % 64;
    on := And(b[major], Mask(minor)) != 0;
  }

  // The parallel bit count of one word.
  function Pairs(v: bv64): bv64 { (v & 0x5555555555555555) + ((v & 0xAAAAAAAAAAAAAAAA) >> 1) }

  function Nibbles(v: bv64): bv64 { (v & 0x3333333333333333) + ((v & 0xCCCCCCCCCCCCCCCC) >> 2) }

  function Octets(v: bv64): bv64 { (v & 0x0F0F0F0F0F0F0F0F) + ((v & 0xF0F0F0F0F0F0F0F0) >> 4) }

  // The sum of the bytes, in the top byte of a product.
  function TopByte(v: bv64): bv8 { (((v * 0x0101010101010101) >> 56) & 0xFF) as bv8 }

  function SwarCount(v: bv64): nat
  {
    TopByte(Octets(Nibbles(Pairs(v)))) as nat
  }

  // The counts of the words, added up in 64-bit arithmetic.
  function PopcntOf(words: seq<bv64>): nat
  {
    if words == [] then 0 else (PopcntOf(words[..|words| - 1]) + SwarCount(words[|words| - 1])) % TWO_64
  }

  function FromNat(n: nat): bv64
    requires n < TWO_64
  {
    n as bv64
  }

  ghost function XorOf(seed: bv64, words: seq<bv64>): bv64
  {
    if words == [] then seed else Xor(XorOf(seed, words[..|words| - 1]), words[|words| - 1])
  }

  // The hash is a function of the words, hence (ViewInjective) of the set they stand for.
  ghost function HashOf(words: seq<bv64>): nat
  {
    XorOf(FromNat(PopcntOf(words) % TWO_64), words) as nat
  }

  // popcnt, hash and equals only read, so they are stated on the words of a bitset.
  method Popcnt(b: seq<bv64>) returns (total: nat)
    ensures total == PopcntOf(b) < TWO_64
  {
    hide SwarCount;
    total := 0;
    for i := 0 to |b|
      invariant total == PopcntOf(b[..i]) < TWO_64
    {
      assert b[..i + 1][..i] == b[..i];
      total := (total + SwarCount(b[i])) % TWO_64;
    }
    assert b[..|b|] == b;
  }

  method Hash(b: seq<bv64>) returns (key: nat)
    ensures key == HashOf(b)
  {
    hide Xor, PopcntOf, FromNat;
    var count := Popcnt(b);
    var hash := FromNat(count);
    ghost var seed := hash;
    for i := 0 to |b|
      invariant hash == XorOf(seed, b[..i])
    {
      assert b[..i + 1][..i] == b[..i];
      hash := Xor(hash, b[i]);
    }
    assert b[..|b|] == b;
    key := hash as nat;
  }

  // Comparing words decides equality of the sets.
  method Equals(b: seq<bv64>, b2: seq<bv64>) returns (same: bool)
    ensures same <==> b == b2
    ensures |b| == |b2| ==> (same <==> View(b) == View(b2))
  {
    hide View;
    if |b| != |b2| {
      return false;
    }
    ViewInjective(b, b2);
    for i := 0 to |b|
      invariant b[..i] == b2[..i]
    {
      if b[i] != b2[i] {
        return false;
      }
    }
    assert b[..|b|] == b && b2[..|b|] == b2;
    return true;
  }
}
