// The parallel bit count of lcm/porcupine/bitset.go counts the elements of the set a bitset stands
// for.
module Popcount {
  import opened Basics
  import opened Bitset

  // ----- counting one bit at a time

  function CountTo(w: bv64, n: nat): nat
  {
    if n == 0 then 0 else CountTo(w, n - 1) + if Bit(w, n - 1) then 1 else 0
  }

  function Shr(w: bv64): bv64 { w >> 1 }

  function LowBit(w: bv64): nat { if And(w, 1) != 0 then 1 else 0 }

  lemma ShiftMask(w: bv64, m: bv64)
    ensures And(w, Shl(m)) != 0 <==> And(Shr(w), m) != 0
  {}

  lemma {:induction false} CountFromLow(w: bv64, n: nat)
    requires n > 0
    ensures CountTo(w, n) == LowBit(w) + CountTo(Shr(w), n - 1)
  {
    hide And, Shl, Shr;
    if n > 1 {
      CountFromLow(w, n - 1);
      ShiftMask(w, Mask(n - 2));
      assert Mask(n - 1) == Shl(Mask(n - 2));
    } else {
      assert CountTo(w, 1) == CountTo(w, 0) + if Bit(w, 0) then 1 else 0;
      assert Mask(0) == 1;
    }
  }

  // ----- counting in bytes

  function LowByte(v: bv64): bv8 { (v & 0xFF) as bv8 }

  function NextByte(v: bv64): bv64 { v >> 8 }

  // Each byte counts the bits that were in it.
  function ByteCounts(v: bv64): bv64 { Octets(Nibbles(Pairs(v))) }

  function BitAt(v: bv64, k: bv7): bv8
    requires k < 8
  {
    ((v >> k) & 1) as bv8
  }

  lemma LowByteCount(v: bv64)
    ensures LowByte(ByteCounts(v)) == BitAt(v, 0) + BitAt(v, 1) + BitAt(v, 2) + BitAt(v, 3) + BitAt(v, 4) + BitAt(v, 5)
                                      + BitAt(v, 6) + BitAt(v, 7)
  {}

  lemma FewBits(v: bv64)
    ensures ByteCounts(v) & 0xF0F0F0F0F0F0F0F0 == 0
  {}

  lemma PairsMove(v: bv64)
    ensures Pairs(v >> 8) == Pairs(v) >> 8
  {}

  lemma NibblesMove(v: bv64)
    ensures Nibbles(v >> 8) == Nibbles(v) >> 8
  {}

  lemma OctetsMove(v: bv64)
    ensures Octets(v >> 8) == Octets(v) >> 8
  {}

  lemma CountsMove(v: bv64)
    ensures ByteCounts(NextByte(v)) == NextByte(ByteCounts(v))
  {
    PairsMove(v);
    NibblesMove(Pairs(v));
    OctetsMove(Nibbles(Pairs(v)));
    hide Pairs, Nibbles, Octets;
    assert NextByte(v) == v >> 8;
  }

  lemma Increment(x: bv8, b: bv8)
    requires x < 8 && b <= 1
    ensures (x + b) as nat == x as nat + b as nat && x + b <= x + 1
  {}

  function Val(b: bv8): nat { b as nat }

  lemma BitsSmall(v: bv64)
    ensures forall k: bv7 :: k < 8 ==> BitAt(v, k) <= 1
  {}

  lemma SumOfBits(b0: bv8, b1: bv8, b2: bv8, b3: bv8, b4: bv8, b5: bv8, b6: bv8, b7: bv8)
    requires b0 <= 1 && b1 <= 1 && b2 <= 1 && b3 <= 1 && b4 <= 1 && b5 <= 1 && b6 <= 1 && b7 <= 1
    ensures b0 + b1 + b2 + b3 + b4 + b5 + b6 + b7 <= 8
    ensures Val(b0 + b1 + b2 + b3 + b4 + b5 + b6 + b7)
         == Val(b0) + Val(b1) + Val(b2) + Val(b3) + Val(b4) + Val(b5) + Val(b6) + Val(b7)
  {
    Increment(b0, b1);
    Increment(b0 + b1, b2);
    Increment(b0 + b1 + b2, b3);
    Increment(b0 + b1 + b2 + b3, b4);
    Increment(b0 + b1 + b2 + b3 + b4, b5);
    Increment(b0 + b1 + b2 + b3 + b4 + b5, b6);
    Increment(b0 + b1 + b2 + b3 + b4 + b5 + b6, b7);
  }

  lemma EightBits(v: bv64)
    ensures LowByte(ByteCounts(v)) <= 8
    ensures Val(LowByte(ByteCounts(v)))
         == Val(BitAt(v, 0)) + Val(BitAt(v, 1)) + Val(BitAt(v, 2)) + Val(BitAt(v, 3)) + Val(BitAt(v, 4))
            + Val(BitAt(v, 5)) + Val(BitAt(v, 6)) + Val(BitAt(v, 7))
  {
    LowByteCount(v);
    hide LowByte, ByteCounts;
    BitsSmall(v);
    hide BitAt;
    SumOfBits(BitAt(v, 0), BitAt(v, 1), BitAt(v, 2), BitAt(v, 3), BitAt(v, 4), BitAt(v, 5), BitAt(v, 6), BitAt(v, 7));
  }

  // ----- adding up the bytes

  function Up(x: bv64): bv64 { x << 8 }

  function HighByte(x: bv64): bv8 { LowByte(x >> 56) }

  // Every byte is below 16.
  ghost predicate Thin(x: bv64) { x & 0xF0F0F0F0F0F0F0F0 == 0 }

  // The product's top byte takes in one byte after the other, the highest first.
  lemma TakeHigh(x: bv64)
    requires Thin(x)
    ensures TopByte(x) == HighByte(x) + TopByte(Up(x)) && Thin(Up(x))
  {}

  lemma AddSmall(a: bv8, b: bv8, sum: bv8)
    requires a <= 8 && Val(b) <= 56 && sum == a + b
    ensures Val(sum) == Val(a) + Val(b) && Val(a) <= 8
  {}

  lemma TakeNext(x: bv64)
    requires Thin(x) && HighByte(x) <= 8 && Val(TopByte(Up(x))) <= 56
    ensures Val(TopByte(x)) == Val(HighByte(x)) + Val(TopByte(Up(x))) && Val(HighByte(x)) <= 8
  {
    TakeHigh(x);
    hide HighByte, TopByte, Val, Up, Thin;
    AddSmall(HighByte(x), TopByte(Up(x)), TopByte(x));
  }

  lemma TopOfNothing()
    ensures TopByte(0) == 0 && Val(0) == 0
  {}

  // Byte i of x, brought to the top.
  lemma Ups(x: bv64)
    ensures HighByte(x) == LowByte(x >> 56) && HighByte(Up(x)) == LowByte(x >> 48)
    ensures HighByte(Up(Up(x))) == LowByte(x >> 40) && HighByte(Up(Up(Up(x)))) == LowByte(x >> 32)
  {}

  lemma UpFour(x: bv64)
    ensures Up(Up(Up(Up(x)))) == x << 32
  {}

  lemma LowFour(x: bv64, y: bv64)
    requires y == x << 32
    ensures HighByte(y) == LowByte(x >> 24) && HighByte(Up(y)) == LowByte(x >> 16)
    ensures HighByte(Up(Up(y))) == LowByte(x >> 8) && HighByte(Up(Up(Up(y)))) == LowByte(x)
    ensures Up(Up(Up(Up(y)))) == 0
  {}

  lemma ThinUps(x: bv64)
    requires Thin(x)
    ensures Thin(Up(x)) && Thin(Up(Up(x))) && Thin(Up(Up(Up(x)))) && Thin(Up(Up(Up(Up(x)))))
  {
    TakeHigh(x);
    hide TopByte, HighByte, Up, Thin;
    TakeHigh(Up(x));
    TakeHigh(Up(Up(x)));
    TakeHigh(Up(Up(Up(x))));
  }

  // The four highest bytes, on top of what is below them.
  lemma TakeFour(x: bv64)
    requires Thin(x) && Val(TopByte(Up(Up(Up(Up(x)))))) <= 32
    requires HighByte(x) <= 8 && HighByte(Up(x)) <= 8 && HighByte(Up(Up(x))) <= 8 && HighByte(Up(Up(Up(x)))) <= 8
    ensures Val(TopByte(x)) == Val(HighByte(x)) + Val(HighByte(Up(x))) + Val(HighByte(Up(Up(x))))
                               + Val(HighByte(Up(Up(Up(x))))) + Val(TopByte(Up(Up(Up(Up(x))))))
    ensures Val(TopByte(x)) <= Val(TopByte(Up(Up(Up(Up(x)))))) + 32
  {
    ThinUps(x);
    hide TopByte, HighByte, Up, Thin, Val;
    TakeNext(Up(Up(Up(x))));
    TakeNext(Up(Up(x)));
    TakeNext(Up(x));
    TakeNext(x);
  }

  // No byte is above 8.
  ghost predicate SmallBytes(x: bv64)
  {
    && Thin(x)
    && LowByte(x) <= 8 && LowByte(x >> 8) <= 8 && LowByte(x >> 16) <= 8 && LowByte(x >> 24) <= 8
    && LowByte(x >> 32) <= 8 && LowByte(x >> 40) <= 8 && LowByte(x >> 48) <= 8 && LowByte(x >> 56) <= 8
  }

  lemma TopByteAdds(x: bv64)
    requires SmallBytes(x)
    ensures Val(TopByte(x)) == Val(LowByte(x)) + Val(LowByte(x >> 8)) + Val(LowByte(x >> 16)) + Val(LowByte(x >> 24))
                               + Val(LowByte(x >> 32)) + Val(LowByte(x >> 40)) + Val(LowByte(x >> 48)) + Val(LowByte(x >> 56))
  {
    Ups(x);
    UpFour(x);
    hide HighByte, Thin, Val, LowByte, Up, TopByte;
    var y := Up(Up(Up(Up(x))));
    LowFour(x, y);
    ThinUps(x);
    TopOfNothing();
    TakeFour(y);
    TakeFour(x);
  }

  // ----- the word as a whole

  // The bits of the lowest byte, by value.
  function LowBits(v: bv64): nat
  {
    LowBit(v) + LowBit(Shr(v)) + LowBit(Shr(Shr(v))) + LowBit(Shr(Shr(Shr(v)))) + LowBit(Shr(Shr(Shr(Shr(v)))))
    + LowBit(Shr(Shr(Shr(Shr(Shr(v)))))) + LowBit(Shr(Shr(Shr(Shr(Shr(Shr(v)))))))
    + LowBit(Shr(Shr(Shr(Shr(Shr(Shr(Shr(v))))))))
  }

  lemma BitByBit(v: bv64)
    ensures Val(BitAt(v, 0)) == LowBit(v)
    ensures Val(BitAt(v, 1)) == LowBit(Shr(v))
    ensures Val(BitAt(v, 2)) == LowBit(Shr(Shr(v)))
    ensures Val(BitAt(v, 3)) == LowBit(Shr(Shr(Shr(v))))
  {}

  lemma HighBitByBit(v: bv64)
    ensures Val(BitAt(v, 4)) == LowBit(Shr(Shr(Shr(Shr(v)))))
    ensures Val(BitAt(v, 5)) == LowBit(Shr(Shr(Shr(Shr(Shr(v))))))
    ensures Val(BitAt(v, 6)) == LowBit(Shr(Shr(Shr(Shr(Shr(Shr(v)))))))
    ensures Val(BitAt(v, 7)) == LowBit(Shr(Shr(Shr(Shr(Shr(Shr(Shr(v))))))))
  {}

  lemma ShrTwo(v: bv64)
    ensures Shr(Shr(v)) == v >> 2
  {}

  lemma ShrFour(v: bv64)
    ensures Shr(Shr(Shr(Shr(v)))) == v >> 4
  {
    hide Shr;
    ShrTwo(v);
    ShrTwo(v >> 2);
  }

  lemma ShrEight(v: bv64)
    ensures Shr(Shr(Shr(Shr(Shr(Shr(Shr(Shr(v)))))))) == NextByte(v)
  {
    hide Shr;
    ShrFour(v);
    ShrFour(v >> 4);
  }

  lemma EightCounts(w: bv64, n: nat)
    ensures CountTo(w, n + 8) == LowBits(w) + CountTo(NextByte(w), n)
  {
    hide LowBit, Shr, NextByte, CountTo;
    ShrEight(w);
    var w1 := Shr(w);
    var w2 := Shr(w1);
    var w3 := Shr(w2);
    var w4 := Shr(w3);
    var w5 := Shr(w4);
    var w6 := Shr(w5);
    var w7 := Shr(w6);
    CountFromLow(w7, n + 1);
    CountFromLow(w6, n + 2);
    CountFromLow(w5, n + 3);
    CountFromLow(w4, n + 4);
    CountFromLow(w3, n + 5);
    CountFromLow(w2, n + 6);
    CountFromLow(w1, n + 7);
    CountFromLow(w, n + 8);
  }

  lemma ByteOfBits(w: bv64, n: nat)
    ensures CountTo(w, n + 8) == Val(LowByte(ByteCounts(w))) + CountTo(NextByte(w), n)
  {
    hide LowBit, Shr, Val, BitAt, ByteCounts, LowByte, NextByte, CountTo;
    EightBits(w);
    BitByBit(w);
    HighBitByBit(w);
    EightCounts(w, n);
  }

  function Down(w: bv64, i: nat): bv64
  {
    if i == 0 then w else NextByte(Down(w, i - 1))
  }

  lemma {:induction false} CountsDown(w: bv64, i: nat)
    ensures ByteCounts(Down(w, i)) == Down(ByteCounts(w), i)
  {
    hide ByteCounts, NextByte;
    if i > 0 {
      CountsDown(w, i - 1);
      CountsMove(Down(w, i - 1));
    }
  }

  lemma DownIs(x: bv64)
    ensures Down(x, 0) == x && Down(x, 1) == x >> 8 && Down(x, 2) == x >> 16 && Down(x, 3) == x >> 24 && Down(x, 4) == x >> 32
    ensures Down(x, 5) == x >> 40 && Down(x, 6) == x >> 48 && Down(x, 7) == x >> 56
  {
    assert Down(x, 0) == x;
  }

  // Byte i of the counts.
  lemma ByteIs(w: bv64, i: nat, n: nat)
    ensures LowByte(Down(ByteCounts(w), i)) <= 8
    ensures CountTo(Down(w, i), n + 8) == Val(LowByte(Down(ByteCounts(w), i))) + CountTo(Down(w, i + 1), n)
  {
    CountsDown(w, i);
    hide ByteCounts, LowByte, Val, CountTo, NextByte;
    EightBits(Down(w, i));
    ByteOfBits(Down(w, i), n);
  }

  lemma TopByDown(x: bv64)
    requires Thin(x) && LowByte(Down(x, 0)) <= 8 && LowByte(Down(x, 1)) <= 8 && LowByte(Down(x, 2)) <= 8
    requires LowByte(Down(x, 3)) <= 8 && LowByte(Down(x, 4)) <= 8 && LowByte(Down(x, 5)) <= 8 && LowByte(Down(x, 6)) <= 8
    requires LowByte(Down(x, 7)) <= 8
    ensures Val(TopByte(x)) == Val(LowByte(Down(x, 0))) + Val(LowByte(Down(x, 1))) + Val(LowByte(Down(x, 2)))
                               + Val(LowByte(Down(x, 3))) + Val(LowByte(Down(x, 4))) + Val(LowByte(Down(x, 5)))
                               + Val(LowByte(Down(x, 6))) + Val(LowByte(Down(x, 7)))
  {
    hide LowByte, TopByte, Val, Down, Thin;
    DownIs(x);
    TopByteAdds(x);
  }

  lemma SwarIsTop(w: bv64)
    ensures SwarCount(w) == Val(TopByte(ByteCounts(w))) && Thin(ByteCounts(w))
  {
    FewBits(w);
    hide Pairs, Nibbles, Octets, TopByte;
  }

  lemma Ends(w: bv64)
    ensures CountTo(Down(w, 8), 0) == 0 && Down(w, 0) == w
  {}

  // The parallel count is the number of bits that are on.
  lemma SwarCounts(w: bv64)
    ensures SwarCount(w) == CountTo(w, 64)
  {
    var x := ByteCounts(w);
    SwarIsTop(w);
    Ends(w);
    hide ByteCounts, LowByte, TopByte, Val, CountTo, NextByte, SwarCount, Thin, Down;
    ByteIs(w, 0, 56);
    ByteIs(w, 1, 48);
    ByteIs(w, 2, 40);
    ByteIs(w, 3, 32);
    ByteIs(w, 4, 24);
    ByteIs(w, 5, 16);
    ByteIs(w, 6, 8);
    ByteIs(w, 7, 0);
    TopByDown(x);
  }

  // ----- the whole bitset

  // Positions below n that are on.
  ghost function ViewBelow(words: seq<bv64>, n: nat): set<nat>
  {
    set p: nat | p < n && p < 64 * |words| && Has(words, p)
  }

  lemma {:induction false} CountInWord(words: seq<bv64>, w: bv64, k: nat)
    requires k <= 64
    ensures |ViewBelow(words + [w], 64 * |words| + k)| == |ViewBelow(words, 64 * |words|)| + CountTo(w, k)
  {
    hide Bit;
    var more, n := words + [w], 64 * |words|;
    if k == 0 {
      assert ViewBelow(more, n) == ViewBelow(words, n);
    } else {
      CountInWord(words, w, k - 1);
      var p := n + k - 1;
      assert p / 64 == |words| && p % 64 == k - 1 && more[p / 64] == w;
      assert ViewBelow(more, n + k) == ViewBelow(more, p) + if Bit(w, k - 1) then {p} else {};
      assert p !in ViewBelow(more, p);
    }
  }

  lemma AddInWord(a: nat, b: nat, total: nat)
    requires total == (a % TWO_64 + b) % TWO_64
    ensures total == (a + b) % TWO_64
  {}

  lemma PopcntSnoc(words: seq<bv64>, w: bv64)
    ensures PopcntOf(words + [w]) == (PopcntOf(words) + SwarCount(w)) % TWO_64
  {
    hide SwarCount;
    assert (words + [w])[..|words|] == words;
  }

  lemma ViewIsBelow(words: seq<bv64>)
    ensures View(words) == ViewBelow(words, 64 * |words|)
  {}

  lemma NothingBelow()
    ensures ViewBelow([], 0) == {}
  {}

  // popcnt is the number of elements, in 64-bit arithmetic.
  lemma {:induction false} PopcntIsCardinality(words: seq<bv64>)
    ensures PopcntOf(words) == |View(words)| % TWO_64
  {
    hide SwarCount, CountTo, ViewBelow, View;
    ViewIsBelow(words);
    if words != [] {
      hide PopcntOf;
      var n := |words| - 1;
      var before, w := words[..n], words[n];
      assert words == before + [w];
      PopcntIsCardinality(before);
      PopcntSnoc(before, w);
      ViewIsBelow(before);
      SwarCounts(w);
      CountInWord(before, w, 64);
      AddInWord(|View(before)|, SwarCount(w), PopcntOf(words));
    } else {
      NothingBelow();
    }
  }
}
