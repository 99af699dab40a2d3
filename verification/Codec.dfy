// The Colfer codec of the test key-value record (kv/kv.go): the bytes MarshalTo writes, and what
// Unmarshal makes of any bytes at all.
module Codec {
  import opened Basics

  type byte = x: int | 0 <= x < 256

  const SIZE_MAX: nat := 16 * 1024 * 1024

  const END: byte := 0x7f

  // ----- the format

  // Little-endian groups of seven bits, all but the last with the top bit set.
  function Varint(x: nat): seq<byte>
  {
    if x < 0x80 then [x] else [x % 0x80 + 0x80] + Varint(x / 0x80)
  }

  // An empty field is left out.
  function Field(tag: byte, s: seq<byte>): seq<byte>
  {
    if s == [] then [] else [tag] + Varint(|s|) + s
  }

  function Encode(key: seq<byte>, val: seq<byte>): seq<byte>
  {
    Field(0, key) + Field(1, val) + [END]
  }

  function Pow2(n: nat): nat
  {
    if n == 0 then 1 else 2 * Pow2(n - 1)
  }

  // b << shift on 64 bits.
  function Shifted(b: nat, shift: nat): nat
  {
    b * Pow2(shift) % TWO_64
  }

  // ----- what Unmarshal reads

  // The value of the varint at i, its groups shifted by `shift` and more, and where it ends.
  datatype VarintRead = NoEnd | VarintAt(value: nat, next: nat)

  function ReadVarint(data: seq<byte>, i: nat, shift: nat): (r: VarintRead)
    requires i <= |data|
    ensures r.VarintAt? ==> i < r.next <= |data|
    decreases |data| - i
  {
    if i == |data| then NoEnd
    else if data[i] < 0x80 then VarintAt(Shifted(data[i], shift), i + 1)
    else match ReadVarint(data, i + 1, shift + 7)
         case NoEnd => NoEnd
         case VarintAt(v, next) => VarintAt(Shifted(data[i] - 0x80, shift) + v, next)
  }

  // The field at i: its content, and the header byte after it. EndsAt says how far a field that
  // runs out of data would have gone.
  datatype FieldRead = EndsAt(i: nat) | OverMax | Content(s: seq<byte>, header: byte, next: nat)

  function ReadField(data: seq<byte>, i: nat): (r: FieldRead)
    requires i <= |data|
    ensures r.Content? ==> i < r.next <= |data|
  {
    match ReadVarint(data, i, 0)
    case NoEnd => EndsAt(|data|)
    case VarintAt(x, start) =>
      if x > SIZE_MAX then OverMax
      else if start + x >= |data| then EndsAt(start + x)
      else Content(data[start..start + x], data[start + x], start + x + 1)
  }

  datatype Outcome = Read(n: nat) | Eof | UnknownHeader(at: nat) | TooLong | Tail(at: nat)

  // The outcome and the two fields afterwards.
  datatype Decoded = Decoded(outcome: Outcome, key: seq<byte>, val: seq<byte>)

  function AtEof(i: nat): Outcome
  {
    if i >= SIZE_MAX then TooLong else Eof
  }

  function DecodeEnd(header: byte, i: nat): Outcome
    requires i > 0
  {
    if header != END then UnknownHeader(i - 1) else if i < SIZE_MAX then Read(i) else TooLong
  }

  function DecodeVal(data: seq<byte>, header: byte, i: nat, key: seq<byte>, val: seq<byte>): Decoded
    requires 0 < i <= |data|
  {
    if header != 1 then Decoded(DecodeEnd(header, i), key, val)
    else match ReadField(data, i)
         case EndsAt(j) => Decoded(AtEof(j), key, val)
         case OverMax => Decoded(TooLong, key, val)
         case Content(s, last, next) => Decoded(DecodeEnd(last, next), key, s)
  }

  // Decoding into a record whose fields are key and val.
  function Decode(data: seq<byte>, key: seq<byte>, val: seq<byte>): Decoded
  {
    if data == [] then Decoded(Eof, key, val)
    else if data[0] != 0 then DecodeVal(data, data[0], 1, key, val)
    else match ReadField(data, 1)
         case EndsAt(i) => Decoded(AtEof(i), key, val)
         case OverMax => Decoded(TooLong, key, val)
         case Content(s, header, next) => DecodeVal(data, header, next, s, val)
  }

  // ----- the record

  lemma FieldIs(tag: byte, s: seq<byte>)
    ensures Field(tag, s) == if s == [] then [] else [tag] + Varint(|s|) + s
  {}

  // `was` with `out` written over it at i.
  ghost function Written(was: seq<byte>, i: nat, out: seq<byte>): seq<byte>
    requires i + |out| <= |was|
  {
    was[..i] + out + was[i + |out|..]
  }

  lemma WriteNext(was: seq<byte>, i: nat, out: seq<byte>, b: byte) returns (out': seq<byte>)
    requires i + |out| < |was|
    ensures out' == out + [b] && Written(was, i, out') == Written(was, i, out)[i + |out| := b]
    ensures |Written(was, i, out)| == |was|
  {
    out' := out + [b];
  }

  lemma NothingWritten(was: seq<byte>, i: nat) returns (out: seq<byte>)
    requires i <= |was|
    ensures out == [] && Written(was, i, []) == was
  {
    out := [];
  }

  lemma WriteMore(was: seq<byte>, i: nat, out: seq<byte>, more: seq<byte>) returns (out': seq<byte>)
    requires i + |out| + |more| <= |was|
    ensures out' == out + more
    ensures |Written(was, i, out)| == |was| && Written(Written(was, i, out), i + |out|, more) == Written(was, i, out')
  {
    out' := out + more;
  }

  lemma WrittenFromStart(was: seq<byte>, out: seq<byte>)
    requires |out| <= |was|
    ensures Written(was, 0, out) == out + was[|out|..]
  {}

  // x added to the value read.
  ghost function AddedTo(x: nat, r: VarintRead): VarintRead
  {
    if r.NoEnd? then NoEnd else VarintAt(x + r.value, r.next)
  }

  lemma Pow2Seven(n: nat)
    ensures Pow2(n + 7) == 0x80 * Pow2(n)
  {
    assert Pow2(n + 2) == 2 * Pow2(n + 1) == 4 * Pow2(n);
    assert Pow2(n + 4) == 2 * Pow2(n + 3) == 4 * Pow2(n + 2);
    assert Pow2(n + 6) == 2 * Pow2(n + 5) == 4 * Pow2(n + 4);
  }

  lemma ModAtMost(x: nat)
    ensures x % TWO_64 <= x
  {}

  lemma {:induction false} Pow2Adds(m: nat, n: nat)
    ensures Pow2(m + n) == Pow2(m) * Pow2(n)
    decreases m
  {
    if m > 0 {
      Pow2Adds(m - 1, n);
      assert Pow2(m + n) == 2 * Pow2(m - 1 + n);
      assert 2 * (Pow2(m - 1) * Pow2(n)) == (2 * Pow2(m - 1)) * Pow2(n);
    }
  }

  lemma Pow2Word()
    ensures Pow2(64) == TWO_64
  {
    assert Pow2(8) == 0x100;
    Pow2Adds(8, 8);
    Pow2Adds(16, 16);
    Pow2Adds(32, 32);
  }

  lemma TimesAtLeast(m: nat, k: int)
    ensures k >= 1 ==> m * k >= m
    ensures k <= -1 ==> m * k + m <= 0
  {}

  lemma ModUnique(x: nat, m: nat, d: nat, r: nat)
    requires x == m * d + r && r < m
    ensures x % m == r
  {
    var d', r' := x / m, x % m;
    assert r - r' == m * (d' - d);
    TimesAtLeast(m, d' - d);
    assert d' == d;
  }

  // A multiple of p, reduced by a multiple of p, is a multiple of p.
  lemma ModMultiple(b: nat, p: nat, q: nat)
    requires p > 0 && q > 0
    ensures b * p % (p * q) == (b % q) * p
  {
    var d, r := b / q, b % q;
    assert b * p == (p * q) * d + r * p by {
      assert b == q * d + r;
    }
    assert 0 <= r * p < p * q by {
      assert (q - r) * p > 0;
    }
    ModUnique(b * p, p * q, d, r * p);
  }

  lemma {:induction false} Pow2Positive(n: nat)
    ensures Pow2(n) > 0
  {
    if n > 0 {
      Pow2Positive(n - 1);
    }
  }

  // A group of seven bits, shifted, is a multiple of 2^shift, and nothing from 2^64 on.
  lemma GroupMultiple(b: nat, shift: nat) returns (k: nat)
    ensures Shifted(b, shift) == k * Pow2(shift) && (shift >= 64 ==> k == 0)
  {
    Pow2Word();
    Pow2Positive(shift);
    var p := Pow2(shift);
    if shift < 64 {
      Pow2Adds(shift, 64 - shift);
      Pow2Positive(64 - shift);
      hide Pow2;
      k := b % Pow2(64 - shift);
      ModMultiple(b, p, Pow2(64 - shift));
    } else {
      Pow2Adds(64, shift - 64);
      hide Pow2;
      var n := Pow2(shift - 64);
      k := 0;
      assert b * p == TWO_64 * (b * n) + 0;
      ModUnique(b * p, TWO_64, b * n, 0);
    }
  }

  // What is read before a group is below 2^shift and the group, shifted, a 64-bit multiple of that: the
  // two have no bit in common, and or-ing them is adding them. The sum stays below the next group.
  lemma GroupFits(b: nat, shift: nat)
    requires b < 0x80
    ensures Shifted(b, shift) < TWO_64 && exists k: nat :: Shifted(b, shift) == k * Pow2(shift) && (shift >= 64 ==> k == 0)
    ensures Pow2(shift) + Shifted(b, shift) <= Pow2(shift + 7) && Shifted(b, shift) <= 0x7f * Pow2(shift)
  {
    var k := GroupMultiple(b, shift);
    Pow2Seven(shift);
    hide Pow2;
    var p := Pow2(shift);
    assert b * p <= 0x7f * p by {
      assert (0x7f - b) * p >= 0;
    }
    ModAtMost(b * p);
  }

  class KV {
    var Key: seq<byte>
    var Val: seq<byte>

    constructor ()
      ensures Key == [] && Val == []
    {
      Key, Val := [], [];
    }

    // The varint of x, at n.
    method PutVarint(buf: array<byte>, n: nat, x: nat) returns (next: nat, panicked: bool)
      requires n <= buf.Length
      modifies buf
      ensures panicked <==> n + |Varint(x)| > buf.Length
      ensures !panicked ==> next == n + |Varint(x)| && buf[..] == Written(old(buf[..]), n, Varint(x))
    {
      hide Written;
      ghost var was := buf[..];
      ghost var out: seq<byte> := NothingWritten(was, n);
      next, panicked := n, true;
      var y := x;
      while y >= 0x80
        invariant next == n + |out| <= buf.Length && buf[..] == Written(was, n, out)
        invariant out + Varint(y) == Varint(x)
        decreases y
      {
        if next >= buf.Length {
          return;
        }
        buf[next] := y % 0x80 + 0x80;
        out := WriteNext(was, n, out, y % 0x80 + 0x80);
        y := y / 0x80;
        next := next + 1;
      }
      if next >= buf.Length {
        return;
      }
      buf[next] := y;
      out := WriteNext(was, n, out, y);
      next := next + 1;
      panicked := false;
    }

    // As much of s as fits, at n.
    method Copy(buf: array<byte>, n: nat, s: seq<byte>) returns (count: nat)
      requires n <= buf.Length
      modifies buf
      ensures count == (if |s| <= buf.Length - n then |s| else buf.Length - n)
      ensures buf[..] == Written(old(buf[..]), n, s[..count])
    {
      hide Written;
      ghost var was := buf[..];
      ghost var out: seq<byte> := NothingWritten(was, n);
      count := if |s| <= buf.Length - n then |s| else buf.Length - n;
      for k := 0 to count
        invariant out == s[..k] && buf[..] == Written(was, n, out)
      {
        buf[n + k] := s[k];
        out := WriteNext(was, n, out, s[k]);
      }
    }

    // Writes the tag and the length of a field at i.
    method PutHeader(buf: array<byte>, i: nat, tag: byte, x: nat) returns (n: nat, panicked: bool)
      requires i <= buf.Length
      modifies buf
      ensures panicked <==> i + 1 + |Varint(x)| > buf.Length
      ensures !panicked ==> n == i + 1 + |Varint(x)| && buf[..] == Written(old(buf[..]), i, [tag] + Varint(x))
    {
      hide Written, Varint;
      ghost var was := buf[..];
      ghost var nothing := NothingWritten(was, i);
      if i >= buf.Length {
        return i, true;
      }
      buf[i] := tag;
      ghost var out := WriteNext(was, i, nothing, tag);
      assert out == [tag];
      n, panicked := PutVarint(buf, i + 1, x);
      if !panicked {
        out := WriteMore(was, i, out, Varint(x));
      }
    }

    // Writes one field at i. A buffer too small for it panics here, or is filled up so that the
    // next write panics.
    method PutField(buf: array<byte>, i: nat, tag: byte, s: seq<byte>) returns (n: nat, panicked: bool)
      requires i <= buf.Length
      modifies buf
      ensures i + |Field(tag, s)| <= buf.Length ==>
                !panicked && n == i + |Field(tag, s)| && buf[..] == Written(old(buf[..]), i, Field(tag, s))
      ensures i + |Field(tag, s)| > buf.Length && !panicked ==> n == buf.Length
    {
      hide Written, Varint, Field;
      FieldIs(tag, s);
      ghost var was := buf[..];
      ghost var nothing := NothingWritten(was, i);
      if s == [] {
        return i, false;
      }
      n, panicked := PutHeader(buf, i, tag, |s|);
      if panicked {
        return;
      }
      var count := Copy(buf, n, s);
      if count == |s| {
        assert s[..count] == s;
        ghost var out := WriteMore(was, i, [tag] + Varint(|s|), s);
      }
      n := n + count;
    }

    // Writes the encoding, or panics exactly when the buffer is too small for it.
    method MarshalTo(buf: array<byte>) returns (n: nat, panicked: bool)
      modifies buf
      ensures panicked <==> |Encode(Key, Val)| > buf.Length
      ensures !panicked ==> n == |Encode(Key, Val)| && buf[..] == Encode(Key, Val) + old(buf[n..])
    {
      hide Written, Field;
      ghost var was := buf[..];
      ghost var nothing := NothingWritten(was, 0);
      n, panicked := PutField(buf, 0, 0, Key);
      if panicked {
        return;
      }
      ghost var out := Field(0, Key);
      ghost var fits := |out| <= buf.Length;
      n, panicked := PutField(buf, n, 1, Val);
      if panicked {
        return;
      }
      if fits && n < buf.Length {
        out := WriteMore(was, 0, out, Field(1, Val));
      }
      if n >= buf.Length {
        return n, true;
      }
      buf[n] := END;
      out := WriteNext(was, 0, out, END);
      n := n + 1;
      WrittenFromStart(was, out);
    }

    // The bytes one field adds to l.
    method AddFieldLen(l: nat, s: seq<byte>) returns (total: nat)
      ensures total == l + |Field(0, s)| == l + |Field(1, s)|
    {
      total := l;
      if s != [] {
        var x: nat := |s|;
        total := l + x + 2;
        while x >= 0x80
          invariant total + |Varint(x)| == l + |s| + 2 + |Varint(|s|)|
          decreases x
        {
          x := x / 0x80;
          total := total + 1;
        }
      }
    }

    method MarshalLen() returns (l: nat, failed: bool)
      ensures failed <==> |Encode(Key, Val)| > SIZE_MAX
      ensures !failed ==> l == |Encode(Key, Val)|
    {
      if |Key| > SIZE_MAX {
        return 0, true;
      }
      l := AddFieldLen(1, Key);
      if |Val| > SIZE_MAX {
        return 0, true;
      }
      l := AddFieldLen(l, Val);
      failed := l > SIZE_MAX;
    }

    method MarshalBinary() returns (data: array?<byte>)
      ensures data == null <==> |Encode(Key, Val)| > SIZE_MAX
      ensures data != null ==> fresh(data) && data[..] == Encode(Key, Val)
    {
      var l, failed := MarshalLen();
      if failed {
        return null;
      }
      data := new byte[l];
      var n, panicked := MarshalTo(data);
      assert data[n..] == [];
    }

    // The varint at i.
    method GetVarint(data: seq<byte>, i: nat) returns (r: VarintRead)
      requires i <= |data|
      ensures r == ReadVarint(data, i, 0)
    {
      if i >= |data| {
        return NoEnd;
      }
      var x: nat, next := data[i], i + 1;
      if x >= 0x80 {
        x := x - 0x80;
        var shift := 7;
        while true
          invariant i < next <= |data| && x < Pow2(shift)
          invariant ReadVarint(data, i, 0) == AddedTo(x, ReadVarint(data, next, shift))
          decreases |data| - next
        {
          if next >= |data| {
            return NoEnd;
          }
          var b := data[next];
          next := next + 1;
          if b < 0x80 {
            x := x + Shifted(b, shift);
            break;
          }
          GroupFits(b - 0x80, shift);
          x := x + Shifted(b - 0x80, shift);
          shift := shift + 7;
        }
      }
      return VarintAt(x, next);
    }

    method GetField(data: seq<byte>, i: nat) returns (r: FieldRead)
      requires i <= |data|
      ensures r == ReadField(data, i)
    {
      var v := GetVarint(data, i);
      if v.NoEnd? {
        return EndsAt(|data|);
      }
      if v.value > SIZE_MAX {
        return OverMax;
      }
      var start, end := v.next, v.next + v.value;
      if end >= |data| {
        return EndsAt(end);
      }
      return Content(data[start..end], data[end], end + 1);
    }

    method Unmarshal(data: seq<byte>) returns (outcome: Outcome)
      modifies this
      ensures Decoded(outcome, Key, Val) == Decode(data, old(Key), old(Val))
    {
      if |data| == 0 {
        return Eof;
      }
      var header, i := data[0], 1;
      if header == 0 {
        var f := GetField(data, i);
        match f {
          case EndsAt(j) => return if j >= SIZE_MAX then TooLong else Eof;
          case OverMax => return TooLong;
          case Content(s, h, next) => Key, header, i := s, h, next;
        }
      }
      if header == 1 {
        var f := GetField(data, i);
        match f {
          case EndsAt(j) => return if j >= SIZE_MAX then TooLong else Eof;
          case OverMax => return TooLong;
          case Content(s, h, next) => Val, header, i := s, h, next;
        }
      }
      if header != END {
        return UnknownHeader(i - 1);
      }
      return if i < SIZE_MAX then Read(i) else TooLong;
    }

    method UnmarshalBinary(data: seq<byte>) returns (outcome: Outcome)
      modifies this
      ensures var d := Decode(data, old(Key), old(Val));
              && Key == d.key && Val == d.val
              && outcome == if d.outcome.Read? && d.outcome.n < |data| then Tail(d.outcome.n) else d.outcome
    {
      outcome := Unmarshal(data);
      if outcome.Read? && outcome.n < |data| {
        outcome := Tail(outcome.n);
      }
    }
  }

  // ----- round trip

  // The last seven bits of x and the rest, shifted.
  lemma SplitShifted(x: nat, p: nat)
    requires x * p < TWO_64
    ensures x * p == (x / 0x80) * (0x80 * p) + (x % 0x80) * p
    ensures (x % 0x80) * p < TWO_64 && (x / 0x80) * (0x80 * p) < TWO_64
  {
    var hi, lo := x / 0x80, x % 0x80;
    calc {
      x * p;
      (hi * 0x80 + lo) * p;
      hi * (0x80 * p) + lo * p;
    }
  }

  // A varint is read back.
  lemma {:induction false} VarintReadBack(data: seq<byte>, i: nat, x: nat, shift: nat)
    requires i + |Varint(x)| <= |data| && data[i..i + |Varint(x)|] == Varint(x)
    requires x * Pow2(shift) < TWO_64
    ensures ReadVarint(data, i, shift) == VarintAt(x * Pow2(shift), i + |Varint(x)|)
    decreases x
  {
    hide Pow2;
    assert data[i] == Varint(x)[0];
    if x >= 0x80 {
      assert data[i + 1..i + 1 + |Varint(x / 0x80)|] == Varint(x)[1..];
      Pow2Seven(shift);
      SplitShifted(x, Pow2(shift));
      VarintReadBack(data, i + 1, x / 0x80, shift + 7);
    }
  }

  lemma Slice(data: seq<byte>, i: nat, f: seq<byte>, j: nat, part: seq<byte>)
    requires i + |f| <= |data| && (forall k: nat {:trigger f[k]} :: k < |f| ==> data[i + k] == f[k])
    requires j + |part| <= |f| && f[j..j + |part|] == part
    ensures data[i + j..i + j + |part|] == part
  {
    forall k: nat | k < |part|
      ensures data[i + j..i + j + |part|][k] == part[k]
    {
      assert f[j..j + |part|][k] == f[j + k];
    }
  }

  lemma Slices(data: seq<byte>, i: nat, f: seq<byte>, tag: byte, v: seq<byte>, s: seq<byte>)
    requires i + |f| <= |data| && data[i..i + |f|] == f && f == [tag] + v + s
    ensures data[i] == tag && data[i + 1..i + 1 + |v|] == v && data[i + 1 + |v|..i + 1 + |v| + |s|] == s
  {
    assert data[i] == data[i..i + |f|][0];
    forall k: nat | k < |f|
      ensures data[i + k] == f[k]
    {
      assert data[i..i + |f|][k] == data[i + k];
    }
    Slice(data, i, f, 1, v);
    Slice(data, i, f, 1 + |v|, s);
  }

  lemma PowZero()
    ensures Pow2(0) == 1
  {}

  // A field of at most the maximal size is read back, if a byte follows it.
  lemma FieldReadBack(data: seq<byte>, i: nat, tag: byte, s: seq<byte>)
    requires s != [] && |s| < TWO_64
    requires i + |Field(tag, s)| < |data| && data[i..i + |Field(tag, s)|] == Field(tag, s)
    ensures data[i] == tag
    ensures ReadField(data, i + 1) == if |s| > SIZE_MAX then OverMax
                                      else Content(s, data[i + |Field(tag, s)|], i + |Field(tag, s)| + 1)
  {
    hide Varint, Pow2, ReadVarint;
    var v := Varint(|s|);
    Slices(data, i, Field(tag, s), tag, v, s);
    PowZero();
    VarintReadBack(data, i + 1, |s|, 0);
    assert ReadVarint(data, i + 1, 0) == VarintAt(|s|, i + 1 + |v|);
  }

  // ----- the codec as a whole

  // An absent field leaves the record's own.
  function Kept(field: seq<byte>, own: seq<byte>): seq<byte>
  {
    if field == [] then own else field
  }

  lemma FieldSize(tag: byte, s: seq<byte>)
    ensures |Field(tag, s)| >= |s| && (s == [] <==> Field(tag, s) == [])
  {}

  // What decoding an encoding, whatever follows it, does: below the maximal size it stops at the
  // end of the encoding with the fields it holds, an empty field keeping what the record had; from
  // the maximal size on it fails.
  lemma DecodeEncode(key: seq<byte>, val: seq<byte>, tail: seq<byte>, key0: seq<byte>, val0: seq<byte>)
    requires |key| < TWO_64 && |val| < TWO_64
    ensures var n, d := |Encode(key, val)|, Decode(Encode(key, val) + tail, key0, val0);
            if n < SIZE_MAX then d == Decoded(Read(n), Kept(key, key0), Kept(val, val0))
            else d.outcome == TooLong
  {
    hide Field, ReadField;
    var k, v := Field(0, key), Field(1, val);
    var data := Encode(key, val) + tail;
    var j := |k|;
    assert data[0..|k|] == k && data[j..j + |v|] == v && data[j + |v|] == END;
    FieldSize(0, key);
    FieldSize(1, val);
    if val != [] {
      FieldReadBack(data, j, 1, val);
    }
    if key != [] {
      FieldReadBack(data, 0, 0, key);
    }
  }

  // Whatever follows an encoding, and whatever record it is decoded into, decoding gives the encoded
  // record back exactly when the encoding is below the maximal size and a field that is empty was
  // empty in that record too. Encodings of exactly the maximal size MarshalLen lets pass and Unmarshal
  // does not.
  lemma RoundTripExactly(key: seq<byte>, val: seq<byte>, tail: seq<byte>, key0: seq<byte>, val0: seq<byte>)
    requires |key| < TWO_64 && |val| < TWO_64
    ensures var n := |Encode(key, val)|;
            && (Decode(Encode(key, val) + tail, key0, val0) == Decoded(Read(n), key, val)
                <==> n < SIZE_MAX && (key == [] ==> key0 == []) && (val == [] ==> val0 == []))
            && (n == SIZE_MAX ==> Decode(Encode(key, val) + tail, key0, val0).outcome == TooLong)
  {
    hide Encode, Decode;
    DecodeEncode(key, val, tail, key0, val0);
  }

  // There is such a record.
  lemma MaximalSizeReached()
    ensures var key := seq(SIZE_MAX - 6, _ => 0);
            |Encode(key, [])| == SIZE_MAX && Decode(Encode(key, []), [], []).outcome == TooLong
  {
    var key: seq<byte> := seq(SIZE_MAX - 6, _ => 0);
    assert |Varint(16777210)| == 4;
    hide Decode;
    DecodeEncode(key, [], [], [], []);
    assert Encode(key, []) + [] == Encode(key, []);
  }

  // ----- cut-off data

  lemma {:induction false} VarintCut(data: seq<byte>, i: nat, x: nat, shift: nat)
    requires i <= |data| < i + |Varint(x)| && data[i..] == Varint(x)[..|data| - i]
    ensures ReadVarint(data, i, shift).NoEnd?
    decreases x
  {
    if i < |data| {
      assert data[i] == data[i..][0] == Varint(x)[0];
      var more := Varint(x / 0x80);
      assert data[i + 1..] == data[i..][1..] == more[..|data| - i - 1];
      VarintCut(data, i + 1, x / 0x80, shift + 7);
    }
  }

  // Data that starts, from i on, a field [tag] + v + s.
  lemma CutSlices(data: seq<byte>, i: nat, f: seq<byte>, tag: byte, v: seq<byte>, s: seq<byte>)
    requires f == [tag] + v + s && i < |data| <= i + |f| && data[i..] == f[..|data| - i]
    ensures data[i] == tag
    ensures |data| < i + 1 + |v| ==> data[i + 1..] == v[..|data| - i - 1]
    ensures |data| >= i + 1 + |v| ==> data[i + 1..i + 1 + |v|] == v
  {
    forall k: nat {:trigger f[k]} | k < |data| - i
      ensures data[i + k] == f[k]
    {
      assert data[i + k] == data[i..][k] == f[..|data| - i][k];
    }
    assert forall k: nat {:trigger v[k]} :: k < |v| ==> f[1 + k] == v[k];
    assert f[0] == tag;
  }

  // A field cut off before the byte that must follow it runs out of data no later than its end.
  lemma FieldCut(data: seq<byte>, i: nat, tag: byte, s: seq<byte>)
    requires s != [] && |s| <= SIZE_MAX
    requires i < |data| <= i + |Field(tag, s)| && data[i..] == Field(tag, s)[..|data| - i]
    ensures data[i] == tag
    ensures ReadField(data, i + 1).EndsAt? && ReadField(data, i + 1).i <= i + |Field(tag, s)|
  {
    hide Varint, Pow2, ReadVarint;
    var v := Varint(|s|);
    CutSlices(data, i, Field(tag, s), tag, v, s);
    if |data| < i + 1 + |v| {
      VarintCut(data, i + 1, |s|, 0);
    } else {
      PowZero();
      VarintReadBack(data, i + 1, |s|, 0);
      assert ReadVarint(data, i + 1, 0) == VarintAt(|s|, i + 1 + |v|);
    }
  }

  // Every proper prefix of an encoding decodes to end of file, having set the key if the key and a byte
  // more are there.
  lemma PrefixIsEof(key: seq<byte>, val: seq<byte>, m: nat, key0: seq<byte>, val0: seq<byte>)
    requires |Encode(key, val)| <= SIZE_MAX && m < |Encode(key, val)|
    ensures Decode(Encode(key, val)[..m], key0, val0)
            == Decoded(Eof, if m >= |Encode(key, [])| then Kept(key, key0) else key0, val0)
  {
    hide Field, ReadField;
    var k, v := Field(0, key), Field(1, val);
    var data := Encode(key, val)[..m];
    FieldSize(0, key);
    FieldSize(1, val);
    FieldSize(1, []);
    assert |Encode(key, [])| == |k| + 1;
    if 0 < m <= |k| {
      assert data[0..] == data && data == k[..m];
      FieldCut(data, 0, 0, key);
    } else if |k| < m {
      assert data[|k|..] == v[..m - |k|];
      FieldCut(data, |k|, 1, val);
      if key != [] {
        assert data[0..|k|] == k;
        FieldReadBack(data, 0, 0, key);
      }
    }
  }

  // ----- any data at all

  lemma {:induction false} VarintLocal(data: seq<byte>, other: seq<byte>, i: nat, shift: nat)
    requires i <= |data| && ReadVarint(data, i, shift).VarintAt?
    requires data[..ReadVarint(data, i, shift).next] <= other
    ensures ReadVarint(other, i, shift) == ReadVarint(data, i, shift)
    decreases |data| - i
  {
    var n := ReadVarint(data, i, shift).next;
    assert other[i] == data[..n][i] == data[i];
    if data[i] >= 0x80 {
      VarintLocal(data, other, i + 1, shift + 7);
    }
  }

  lemma FieldLocal(data: seq<byte>, other: seq<byte>, i: nat)
    requires i <= |data| && ReadField(data, i).Content? && data[..ReadField(data, i).next] <= other
    ensures ReadField(other, i) == ReadField(data, i)
  {
    hide ReadVarint;
    var x, start, n := ReadVarint(data, i, 0).value, ReadVarint(data, i, 0).next, ReadField(data, i).next;
    assert data[..start] == data[..n][..start] <= other;
    VarintLocal(data, other, i, 0);
    assert other[start..start + x] == data[..n][start..start + x] == data[start..start + x];
    assert other[n - 1] == data[..n][n - 1];
  }

  // A successful Unmarshal depends on the bytes it reports as read and on no others.
  lemma ReadsOnlyWhatItReports(data: seq<byte>, other: seq<byte>, key0: seq<byte>, val0: seq<byte>)
    requires Decode(data, key0, val0).outcome.Read?
    requires Decode(data, key0, val0).outcome.n <= |data|
    requires data[..Decode(data, key0, val0).outcome.n] <= other
    ensures Decode(other, key0, val0) == Decode(data, key0, val0)
  {
    hide ReadField;
    var n := Decode(data, key0, val0).outcome.n;
    assert other[0] == data[..n][0];
    var header, i := data[0], 1;
    if header == 0 {
      var f := ReadField(data, 1);
      assert data[..f.next] == data[..n][..f.next] <= other;
      FieldLocal(data, other, 1);
      header, i := f.header, f.next;
    }
    if header == 1 {
      FieldLocal(data, other, i);
    }
  }

  // A varint of n groups is below 2^(7n).
  lemma {:induction false} VarintBound(data: seq<byte>, i: nat, shift: nat)
    requires i <= |data| && ReadVarint(data, i, shift).VarintAt?
    ensures var r := ReadVarint(data, i, shift);
            r.value + Pow2(shift) <= Pow2(shift + 7 * (r.next - i))
    decreases |data| - i
  {
    if data[i] < 0x80 {
      GroupFits(data[i], shift);
      Pow2Seven(shift);
    } else {
      GroupFits(data[i] - 0x80, shift);
      Pow2Seven(shift);
      VarintBound(data, i + 1, shift + 7);
    }
  }

  // The canonical varint is the shortest.
  lemma {:induction false} VarintShortest(x: nat, n: nat)
    requires n > 0 && x < Pow2(7 * n)
    ensures |Varint(x)| <= n
    decreases n
  {
    if n == 1 {
      Pow2Seven(0);
    } else {
      Pow2Seven(7 * (n - 1));
      if x >= 0x80 {
        VarintShortest(x / 0x80, n - 1);
      }
    }
  }

  lemma FieldShortest(data: seq<byte>, i: nat, tag: byte)
    requires i <= |data| && ReadField(data, i).Content?
    ensures |Field(tag, ReadField(data, i).s)| + i <= ReadField(data, i).next
  {
    VarintBound(data, i, 0);
    var r := ReadVarint(data, i, 0);
    hide ReadVarint, Pow2, Varint;
    PowZero();
    VarintShortest(r.value, r.next - i);
  }

  // Whatever Unmarshal accepts, the encoding of the record it yields is no longer than the bytes
  // read, and decodes to that record again.
  lemma NormalForm(data: seq<byte>)
    requires Decode(data, [], []).outcome.Read?
    ensures var d := Decode(data, [], []);
            && |Encode(d.key, d.val)| <= d.outcome.n <= |data|
            && Decode(Encode(d.key, d.val), [], []) == Decoded(Read(|Encode(d.key, d.val)|), d.key, d.val)
  {
    hide ReadField, Field;
    var d := Decode(data, [], []);
    FieldSize(0, []);
    FieldSize(1, []);
    FieldSize(0, d.key);
    FieldSize(1, d.val);
    var header, i := data[0], 1;
    if header == 0 {
      FieldShortest(data, 1, 0);
      header, i := ReadField(data, 1).header, ReadField(data, 1).next;
    }
    if header == 1 {
      FieldShortest(data, i, 1);
    }
    assert Encode(d.key, d.val) + [] == Encode(d.key, d.val);
    RoundTripExactly(d.key, d.val, [], [], []);
  }

  // ----- the bytes themselves

  // Groups of seven bits, the lowest first.
  function Base128(v: seq<byte>): nat
  {
    if v == [] then 0 else v[0] % 0x80 + 0x80 * Base128(v[1..])
  }

  // v stands for x: all its bytes but the last have the top bit set.
  ghost predicate IsLength(v: seq<byte>, x: nat)
  {
    && v != [] && Base128(v) == x && v[|v| - 1] < 0x80
    && forall i :: 0 <= i < |v| - 1 ==> v[i] >= 0x80
  }

  // From i to j the data is this header, a length and that many bytes of content.
  ghost predicate FieldAt(data: seq<byte>, i: nat, header: byte, v: seq<byte>, s: seq<byte>, j: nat)
  {
    && j == i + 1 + |v| + |s| && j <= |data| && IsLength(v, |s|)
    && data[i] == header && data[i + 1..i + 1 + |v|] == v && data[i + 1 + |v|..j] == s
  }

  lemma {:induction false} VarintMeans(x: nat)
    ensures IsLength(Varint(x), x)
    ensures x < 0x80 ==> Varint(x) == [x]
  {
    if x >= 0x80 {
      VarintMeans(x / 0x80);
      var v := Varint(x);
      assert v[1..] == Varint(x / 0x80);
    }
  }

  lemma FieldBytes(data: seq<byte>, i: nat, tag: byte, s: seq<byte>)
    requires s != [] && i + |Field(tag, s)| <= |data| && data[i..i + |Field(tag, s)|] == Field(tag, s)
    ensures FieldAt(data, i, tag, Varint(|s|), s, i + |Field(tag, s)|)
    ensures |s| < 0x80 ==> data[i + 1] == |s| && i + |Field(tag, s)| == i + 2 + |s|
  {
    hide Varint, IsLength;
    VarintMeans(|s|);
    Slices(data, i, Field(tag, s), tag, Varint(|s|), s);
    if |s| < 0x80 {
      assert data[i + 1] == data[i + 1..i + 1 + 1][0];
    }
  }

  // What is written: a key that is not empty under header 0, then a val that is not empty under header
  // 1, each after its length, then 0x7f and no more.
  lemma BytesWritten(key: seq<byte>, val: seq<byte>) returns (j: nat, k: nat, v: seq<byte>, w: seq<byte>)
    ensures var data := Encode(key, val);
            && (if key == [] then j == 0 else FieldAt(data, 0, 0, v, key, j))
            && (if val == [] then k == j else FieldAt(data, j, 1, w, val, k))
            && |data| == k + 1 && data[k] == 0x7f
            && (0 < |key| < 0x80 ==> data[1] == |key| && j == 2 + |key|)
            && (0 < |val| < 0x80 ==> data[j + 1] == |val| && k == j + 2 + |val|)
  {
    hide Varint, FieldAt;
    var data := Encode(key, val);
    v, w := Varint(|key|), Varint(|val|);
    j := |Field(0, key)|;
    k := j + |Field(1, val)|;
    FieldSize(0, key);
    FieldSize(1, val);
    assert data[0..j] == Field(0, key) && data[j..k] == Field(1, val) && data[k] == END;
    hide Field;
    if key != [] {
      FieldBytes(data, 0, 0, key);
    }
    if val != [] {
      FieldBytes(data, j, 1, val);
    }
  }

  // One group less.
  lemma LengthTail(v: seq<byte>, x: nat)
    requires IsLength(v, x)
    ensures |v| == 1 ==> v[0] == x < 0x80
    ensures |v| > 1 ==> IsLength(v[1..], x / 0x80) && v[0] - 0x80 == x % 0x80
  {
    if |v| == 1 {
      assert v[1..] == [] && Base128(v) == v[0] % 0x80 && v[0] < 0x80;
    } else {
      assert v[0] >= 0x80 && v[0] % 0x80 == v[0] - 0x80;
    }
  }

  // A length is read, whether it is the shortest of its value or not.
  lemma {:induction false} LengthRead(data: seq<byte>, i: nat, v: seq<byte>, x: nat, shift: nat)
    requires v != [] && IsLength(v, x) && i + |v| <= |data| && data[i..i + |v|] == v && x * Pow2(shift) < TWO_64
    ensures ReadVarint(data, i, shift) == VarintAt(x * Pow2(shift), i + |v|)
    decreases |v|
  {
    hide Pow2, IsLength;
    LengthTail(v, x);
    assert data[i] == v[0];
    if |v| > 1 {
      var rest := v[1..];
      assert data[i + 1..i + 1 + |rest|] == rest;
      Pow2Seven(shift);
      SplitShifted(x, Pow2(shift));
      LengthRead(data, i + 1, rest, x / 0x80, shift + 7);
    }
  }

  lemma FieldIsRead(data: seq<byte>, i: nat, header: byte, v: seq<byte>, s: seq<byte>, j: nat)
    requires FieldAt(data, i, header, v, s, j) && j < |data| && |s| < TWO_64
    ensures ReadField(data, i + 1) == if |s| > SIZE_MAX then OverMax else Content(s, data[j], j + 1)
  {
    assert v != [];
    hide IsLength, ReadVarint, Pow2;
    PowZero();
    LengthRead(data, i + 1, v, |s|, 0);
  }

  // What is read: the field under header 0 becomes the key, that under header 1 the val, each if it is
  // there, and the byte after them decides how it ends.
  lemma BytesRead(data: seq<byte>, hasKey: bool, v: seq<byte>, key: seq<byte>, j: nat, hasVal: bool, w: seq<byte>, val: seq<byte>,
                  k: nat, key0: seq<byte>, val0: seq<byte>)
    requires if hasKey then FieldAt(data, 0, 0, v, key, j) && |key| <= SIZE_MAX else j == 0
    requires if hasVal then FieldAt(data, j, 1, w, val, k) && |val| <= SIZE_MAX else k == j
    requires k < |data| && (!hasVal ==> data[k] != 1 && (!hasKey ==> data[k] != 0))
    ensures Decode(data, key0, val0)
            == Decoded(if data[k] != 0x7f then UnknownHeader(k) else if k + 1 < SIZE_MAX then Read(k + 1) else TooLong,
                       if hasKey then key else key0, if hasVal then val else val0)
  {
    hide IsLength, ReadField;
    if hasKey {
      FieldIsRead(data, 0, 0, v, key, j);
    }
    if hasVal {
      FieldIsRead(data, j, 1, w, val, k);
    }
  }

  // Where a field begins: at 0, or after the key.
  ghost predicate FieldBegins(data: seq<byte>, hasKey: bool, v: seq<byte>, key: seq<byte>, j: nat)
  {
    && (if hasKey then FieldAt(data, 0, 0, v, key, j) && |key| <= SIZE_MAX else j == 0)
    && j < |data| && (data[j] == 1 || (data[j] == 0 && !hasKey))
  }

  lemma FieldMissing(data: seq<byte>, i: nat, w: seq<byte>, x: nat)
    requires IsLength(w, x) && x < TWO_64 && i + |w| <= |data| && data[i..i + |w|] == w
    requires x > SIZE_MAX || i + |w| + x >= |data|
    ensures ReadField(data, i) == if x > SIZE_MAX then OverMax else EndsAt(i + |w| + x)
  {
    assert w != [];
    hide IsLength, ReadVarint, Pow2;
    PowZero();
    LengthRead(data, i, w, x, 0);
  }

  // A field whose length is above the maximum is refused, and one whose content is not all there, with a
  // byte more, is the end of file, or too long if it would have reached the maximal size. The key is set
  // by then.
  lemma ContentMissing(data: seq<byte>, hasKey: bool, v: seq<byte>, key: seq<byte>, j: nat, w: seq<byte>, x: nat,
                       key0: seq<byte>, val0: seq<byte>)
    requires FieldBegins(data, hasKey, v, key, j) && IsLength(w, x) && x < TWO_64
    requires var start := j + 1 + |w|;
             start <= |data| && data[j + 1..start] == w && (x > SIZE_MAX || start + x >= |data|)
    ensures Decode(data, key0, val0)
            == Decoded(if x > SIZE_MAX || j + 1 + |w| + x >= SIZE_MAX then TooLong else Eof, if hasKey then key else key0, val0)
  {
    hide IsLength, ReadField;
    if hasKey {
      FieldIsRead(data, 0, 0, v, key, j);
    }
    FieldMissing(data, j + 1, w, x);
  }

  lemma {:induction false} NoLastGroup(data: seq<byte>, i: nat, shift: nat)
    requires i <= |data| && forall k :: i <= k < |data| ==> data[k] >= 0x80
    ensures ReadVarint(data, i, shift) == NoEnd
    decreases |data| - i
  {
    if i < |data| {
      NoLastGroup(data, i + 1, shift + 7);
    }
  }

  // So is data that ends within a length.
  lemma LengthMissing(data: seq<byte>, hasKey: bool, v: seq<byte>, key: seq<byte>, j: nat, key0: seq<byte>, val0: seq<byte>)
    requires FieldBegins(data, hasKey, v, key, j) && forall k :: j < k < |data| ==> data[k] >= 0x80
    ensures Decode(data, key0, val0)
            == Decoded(if |data| >= SIZE_MAX then TooLong else Eof, if hasKey then key else key0, val0)
  {
    hide IsLength, ReadVarint;
    if hasKey {
      FieldIsRead(data, 0, 0, v, key, j);
    }
    NoLastGroup(data, j + 1, 0);
  }
}
