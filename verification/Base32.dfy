/** The 16-bit shift buffer as a queue of bits, and Base32 (section 6 of RFC 4648, padding
    omitted as section 3.2 allows) streamed through it. */
module Base32 {
  import opened BitStrings

  const BUFFER_LENGTH: nat := 16
  const MASK: nat := 0xFFFF
  const SIZE_MAX := 0xFFFF_FFFF_FFFF_FFFF

  class BitConverter {
    const fromLength: nat
    const toLength: nat
    var buffer: nat
    var lowerFreeBits: nat
    ghost var queue: seq<bool>

    /** The buffer holds the queue left-aligned; all free low bits are zero. */
    ghost predicate Valid()
      reads this
    {
      && 0 < fromLength <= 8 && 0 < toLength <= 8
      && lowerFreeBits <= BUFFER_LENGTH && |queue| == BUFFER_LENGTH - lowerFreeBits
      && buffer == Shl(Num(queue), lowerFreeBits)
    }

    constructor (from: nat, to: nat)
      requires 0 < from <= 8 && 0 < to <= 8
      ensures Valid() && fromLength == from && toLength == to && queue == []
    {
      fromLength, toLength := from, to;
      buffer, lowerFreeBits, queue := 0, BUFFER_LENGTH, [];
    }

    /** The buffer stays below 2^16 and its free low bits stay zero. */
    lemma Aligned()
      requires Valid()
      ensures buffer < 0x1_0000 && buffer % Pow2(lowerFreeBits) == 0
    {
      Pow2Values();
      ShlBound(Num(queue), |queue|, lowerFreeBits);
      LowBits(Num(queue), 0, lowerFreeBits);
    }

    function BitsAvailable(): (n: int)
      reads this
    {
      BUFFER_LENGTH - lowerFreeBits
    }

    predicate CanAppend()
      reads this
    {
      lowerFreeBits >= fromLength
    }

    predicate CanExtract()
      reads this
    {
      BitsAvailable() >= toLength
    }

    /** Appending puts `fromLength` bits at the end of the queue. */
    method Append(bits: nat)
      requires Valid() && CanAppend() && bits < Pow2(fromLength)
      modifies this
      ensures Valid() && queue == old(queue) + Bits(bits, fromLength)
    {
      hide Shl, Or, Num, Pow2;
      lowerFreeBits := lowerFreeBits - fromLength;
      AppendValue(queue, bits, fromLength, lowerFreeBits);
      buffer := Or(buffer, Shl(bits, lowerFreeBits));
      queue := queue + Bits(bits, fromLength);
    }

    /** The first `toLength` bits of the queue, followed by zeros if there are fewer. */
    method Peek() returns (result: nat)
      requires Valid()
      ensures result == Num(Front(queue, toLength)) && result < Pow2(toLength)
    {
      hide Shl, Shr, Num, Pow2;
      PeekValue(queue, toLength, lowerFreeBits);
      result := Shr(buffer, BUFFER_LENGTH - toLength);
    }

    /** Extracting takes `toLength` bits off the front of the queue. */
    method Extract() returns (result: nat)
      requires Valid() && CanExtract()
      modifies this
      ensures Valid() && queue == old(queue)[toLength..]
      ensures result == Num(old(queue)[..toLength]) && result < Pow2(toLength)
    {
      hide Shl, And, Num, Pow2;
      result := Peek();
      ExtractValue(queue, toLength, lowerFreeBits);
      buffer := And(Shl(buffer, toLength), MASK);
      lowerFreeBits := lowerFreeBits + toLength;
      queue := queue[toLength..];
    }
  }

  ghost function Front(bs: seq<bool>, n: nat): (r: seq<bool>)
    ensures |r| == n
  {
    if |bs| >= n then bs[..n] else bs + Zeros(n - |bs|)
  }

  lemma AppendValue(q: seq<bool>, bits: nat, from: nat, free: nat)
    requires bits < Pow2(from)
    ensures Or(Shl(Num(q), from + free), Shl(bits, free)) == Shl(Num(q + Bits(bits, from)), free)
  {
    ShlBound(bits, from, free);
    OrDisjoint(Num(q), Shl(bits, free), from + free);
    NumAppend(q, Bits(bits, from));
    NumOfBits(bits, from);
    hide Shl, Num, Pow2;
    ShlAdd(Shl(Num(q), from), bits, free);
    ShlShl(Num(q), from, free);
  }

  /** A buffer splits into its front, as wide as asked, and the rest. */
  lemma SplitValue(q: seq<bool>, to: nat, free: nat)
    requires to <= |q|
    ensures Shl(Num(q), free) == Shl(Num(q[..to]), |q| - to + free) + Shl(Num(q[to..]), free)
    ensures Shl(Num(q[to..]), free) < Pow2(|q| - to + free)
  {
    var h, t := q[..to], q[to..];
    assert q == h + t;
    NumAppend(h, t);
    hide Shl, Num, Pow2;
    ShlAdd(Shl(Num(h), |t|), Num(t), free);
    ShlShl(Num(h), |t|, free);
    ShlBound(Num(t), |t|, free);
  }

  lemma PeekLong(q: seq<bool>, to: nat, free: nat)
    requires to <= |q| && to <= BUFFER_LENGTH && |q| + free == BUFFER_LENGTH
    ensures Shr(Shl(Num(q), free), BUFFER_LENGTH - to) == Num(q[..to])
  {
    hide Shl, Shr, Num, Pow2;
    SplitValue(q, to, free);
    HighBits(Num(q[..to]), Shl(Num(q[to..]), free), BUFFER_LENGTH - to);
  }

  lemma PeekShort(q: seq<bool>, z: seq<bool>, free: nat)
    requires z == Zeros(|z|) && |z| <= free
    ensures Shr(Shl(Num(q), free), free - |z|) == Num(q + z)
  {
    hide Shl, Shr, Num, Pow2, Zeros;
    NumAppend(q, z);
    NumZeros(|z|);
    ShlShl(Num(q), |z|, free - |z|);
    HighBits(Num(q + z), 0, free - |z|);
  }

  lemma PeekValue(q: seq<bool>, to: nat, free: nat)
    requires 0 < to <= 8 && |q| + free == BUFFER_LENGTH
    ensures Shr(Shl(Num(q), free), BUFFER_LENGTH - to) == Num(Front(q, to))
  {
    hide Shl, Shr, Num, Pow2, Zeros;
    if |q| >= to {
      PeekLong(q, to, free);
    } else {
      PeekShort(q, Zeros(to - |q|), free);
    }
  }

  lemma MaskIsLow(x: nat)
    ensures And(x, MASK) == Low(x, BUFFER_LENGTH)
  {
    hide And;
    Pow2Values();
    AndMask(x, BUFFER_LENGTH);
  }

  lemma ExtractValue(q: seq<bool>, to: nat, free: nat)
    requires 0 < to <= |q| && |q| + free == BUFFER_LENGTH
    ensures And(Shl(Shl(Num(q), free), to), MASK) == Shl(Num(q[to..]), free + to)
  {
    hide And, Low, Shl, Num, Pow2;
    var h, t := Num(q[..to]), Num(q[to..]);
    MaskIsLow(Shl(Shl(Num(q), free), to));
    SplitValue(q, to, free);
    ShlAdd(Shl(h, BUFFER_LENGTH - to), Shl(t, free), to);
    ShlShl(h, BUFFER_LENGTH - to, to);
    ShlShl(t, free, to);
    ShlBound(Shl(t, free), BUFFER_LENGTH - to, to);
    LowBits(h, Shl(t, free + to), BUFFER_LENGTH);
  }

  // The alphabet

  const ENCODING := "ABCDEFGHIJKLMNOPQRSTUVWXYZ234567"

  /** Starting from '2' (50). */
  const DECODE_MAP: seq<int> := [
    26, 27, 28, 29, 30, 31, -1, -1, -1, -1, -1, -1, -1, -1,
    -1, 0, 1, 2, 3, 4, 5, 6, 7, 8, 9, 10, 11, 12,
    13, 14, 15, 16, 17, 18, 19, 20, 21, 22, 23, 24, 25]

  function Symbol(v: nat): (c: Byte)
    requires v < 32
    ensures c == if v < 26 then 65 + v else 24 + v
  {
    assert |ENCODING| == 32;
    ENCODING[v] as int
  }

  /** What the decode map says of a character, -1 if it is not in the alphabet. */
  function Value(c: Byte): (v: int)
    ensures v == if 65 <= c <= 90 then c - 65 else if 50 <= c <= 55 then c - 24 else -1
  {
    var index := c - 50;
    if index < 0 || index >= |DECODE_MAP| then -1 else DECODE_MAP[index]
  }

  /** A character stands for a value exactly if it is its symbol. */
  lemma ValueIff(c: Byte, v: nat)
    requires v < 32
    ensures Value(c) == v <==> c == Symbol(v)
  {
  }

  // The encoding, on bits: pad to a multiple of five, regroup, look up

  ghost function Symbols(vs: seq<nat>): (s: seq<Byte>)
    requires Below(vs, 32)
    ensures |s| == |vs| && forall i | 0 <= i < |vs| :: s[i] == Symbol(vs[i])
  {
    seq(|vs|, i requires 0 <= i < |vs| => Symbol(vs[i]))
  }

  ghost predicate InAlphabet(s: seq<Byte>) {
    forall i | 0 <= i < |s| :: Value(s[i]) >= 0
  }

  ghost function Values(s: seq<Byte>): (vs: seq<nat>)
    requires InAlphabet(s)
    ensures |vs| == |s| && Below(vs, 32) && forall i | 0 <= i < |s| :: vs[i] == Value(s[i])
  {
    seq(|s|, i requires 0 <= i < |s| => Value(s[i]))
  }

  /** The fewest zeros that make `n` bits a multiple of five. */
  ghost function PadLength(n: nat): (z: nat)
    ensures z < 5 && (n + z) % 5 == 0
  {
    assert n == 5 * (n / 5) + n % 5;
    if n % 5 == 0 then 0 else
      assert n + (5 - n % 5) == 5 * (n / 5 + 1);
      5 - n % 5
  }

  ghost function Pad(bs: seq<bool>): (r: seq<bool>)
    ensures |r| % 5 == 0
  {
    bs + Zeros(PadLength(|bs|))
  }

  ghost function EncodeBits(bs: seq<bool>): seq<Byte> {
    Pow2Values();
    Symbols(Chunks(Pad(bs), 5))
  }

  /** Base32 of `input`, as section 6 of RFC 4648 defines it. */
  ghost function Encoded(input: seq<Byte>): seq<Byte> {
    EncodeBits(Flat(input, 8))
  }

  lemma PadStep(bs: seq<bool>)
    requires |bs| >= 5
    ensures Pad(bs)[..5] == bs[..5] && Pad(bs)[5..] == Pad(bs[5..])
  {
    PadLengthStep(|bs|);
    hide PadLength, Zeros;
  }

  lemma PadLengthStep(n: nat)
    requires n >= 5
    ensures PadLength(n) == PadLength(n - 5)
  {
    assert n % 5 == (n - 5) % 5;
  }

  lemma ChunksStep(bs: seq<bool>)
    requires |bs| >= 5
    ensures Chunks(bs, 5) == [Num(bs[..5])] + Chunks(bs[5..], 5)
  {
    hide Num, Pow2;
  }

  lemma EncodeBitsStep(bs: seq<bool>)
    requires |bs| >= 5
    ensures Num(bs[..5]) < 32
    ensures EncodeBits(bs) == [Symbol(Num(bs[..5]))] + EncodeBits(bs[5..])
  {
    hide Num, Pow2, Chunks, Symbol, PadLength;
    Pow2Values();
    PadStep(bs);
    ChunksStep(Pad(bs));
  }

  lemma EncodeBitsLast(bs: seq<bool>)
    requires |bs| < 5
    ensures Num(Front(bs, 5)) < 32
    ensures EncodeBits(bs) == if bs == [] then [] else [Symbol(Num(Front(bs, 5)))]
  {
    Pow2Values();
    if bs != [] {
      assert Pad(bs) == Front(bs, 5);
      assert Pad(bs)[..5] == Front(bs, 5);
      assert Chunks(Pad(bs)[5..], 5) == [];
    }
  }

  /** Moving one byte from the unread input to the end of a queue of bits. */
  lemma FlatHead(input: seq<Byte>, next: nat, q: seq<bool>)
    requires next < |input| && |q| >= 8 && q[|q| - 8..] == Bits(input[next], 8)
    ensures q[..|q| - 8] + Flat(input[next..], 8) == q + Flat(input[next + 1..], 8)
  {
    assert input[next..][1..] == input[next + 1..];
    assert Flat(input[next..], 8) == Bits(input[next], 8) + Flat(input[next + 1..], 8);
    hide Flat, Bits;
    assert q == q[..|q| - 8] + Bits(input[next], 8);
  }

  method Base32Encode(input: seq<Byte>) returns (ok: bool, output: seq<Byte>)
    ensures ok <==> |input| <= SIZE_MAX / 8
    ensures output == if ok then Encoded(input) else []
  {
    hide EncodeBits, Num, Bits, Pow2, Shl, Flat, Front, Symbol;
    if input == [] {
      EncodeBitsLast([]);
      assert Flat(input, 8) == [];
      return true, [];
    }
    if |input| > SIZE_MAX / 8 {
      return false, [];
    }
    output := [];
    Pow2Values();
    var converter := new BitConverter(8, 5);
    converter.Append(input[0]);
    var next := 1;
    assert input[0..] == input && converter.queue[..0] + Flat(input, 8) == Flat(input, 8);
    FlatHead(input, 0, converter.queue);
    assert output + EncodeBits(converter.queue + Flat(input[next..], 8)) == Encoded(input);
    while converter.CanExtract()
      invariant converter.Valid() && converter.fromLength == 8 && converter.toLength == 5
      invariant 1 <= next <= |input|
      invariant next < |input| ==> |converter.queue| >= 8
      invariant output + EncodeBits(converter.queue + Flat(input[next..], 8)) == Encoded(input)
      decreases 8 * (|input| - next) + |converter.queue|
    {
      ghost var q, rest := converter.queue, Flat(input[next..], 8);
      assert (q + rest)[..5] == q[..5] && (q + rest)[5..] == q[5..] + rest;
      EncodeBitsStep(q + rest);
      var chunk := converter.Extract();
      output := output + [Symbol(chunk)];
      if converter.CanAppend() && next < |input| {
        FlatHead(input, next, q[5..] + Bits(input[next], 8));
        converter.Append(input[next]);
        next := next + 1;
      }
    }
    assert next == |input|;
    assert converter.queue + Flat(input[next..], 8) == converter.queue;
    EncodeBitsLast(converter.queue);
    if converter.BitsAvailable() > 0 {
      var last := converter.Peek();
      output := output + [Symbol(last)];
    }
    ok := true;
  }

  // Decoding

  /** The bits of `s` are the bytes `b` followed by fewer than eight zeros. */
  ghost predicate DecodesTo(s: seq<Byte>, b: seq<Byte>) {
    && InAlphabet(s)
    && 8 * |b| <= 5 * |s| < 8 * |b| + 8
    && Flat(Values(s), 5) == Flat(b, 8) + Zeros(5 * |s| - 8 * |b|)
  }

  lemma ValuesSnoc(s: seq<Byte>, i: nat)
    requires i < |s| && InAlphabet(s[..i]) && Value(s[i]) >= 0
    ensures InAlphabet(s[..i + 1])
    ensures Flat(Values(s[..i + 1]), 5) == Flat(Values(s[..i]), 5) + Bits(Value(s[i]), 5)
  {
    assert Values(s[..i + 1]) == Values(s[..i]) + [Value(s[i])];
    FlatAppend(Values(s[..i]), [Value(s[i])], 5);
  }

  lemma FlatSnoc(b: seq<Byte>, bits: seq<bool>)
    requires |bits| == 8
    ensures Num(bits) < 256 && Flat(b + [Num(bits)], 8) == Flat(b, 8) + bits
  {
    Pow2Values();
    FlatAppend(b, [Num(bits)], 8);
    BitsOfNum(bits);
  }

  lemma LeftoverIsZeros(s: seq<Byte>, b: seq<Byte>, left: seq<bool>, c: seq<Byte>)
    requires DecodesTo(s, c) && |left| < 8 && Flat(Values(s), 5) == Flat(b, 8) + left
    ensures left == Zeros(|left|)
  {
    hide Flat;
    var bits := Flat(Values(s), 5);
    assert |bits| == 8 * |b| + |left| == 8 * |c| + (5 * |s| - 8 * |c|);
    assert |c| == |b|;
    assert left == bits[8 * |b|..] == Zeros(5 * |s| - 8 * |c|);
  }

  /** The leftover bits decide: nothing decodes a string whose leftover is not zero. */
  lemma LeftoverDecides(s: seq<Byte>, b: seq<Byte>, left: seq<bool>)
    requires InAlphabet(s) && |left| < 8 && Flat(Values(s), 5) == Flat(b, 8) + left
    ensures left == Zeros(|left|) ==> DecodesTo(s, b)
    ensures left != Zeros(|left|) ==> forall c :: !DecodesTo(s, c)
  {
    assert |Flat(Values(s), 5)| == 8 * |b| + |left|;
    forall c | DecodesTo(s, c) ensures left == Zeros(|left|) {
      LeftoverIsZeros(s, b, left, c);
    }
  }

  /** What `Peek` sees of a leftover is zero exactly if all its bits are. */
  lemma PeekLeftover(left: seq<bool>)
    requires |left| <= 8
    ensures Num(Front(left, 8)) == 0 <==> left == Zeros(|left|)
  {
    var front := Front(left, 8);
    if Num(front) == 0 {
      NumIsZero(front);
      assert left == front[..|left|];
    }
    if left == Zeros(|left|) {
      assert front == Zeros(8);
      NumZeros(8);
    }
  }

  method Base32Decode(input: seq<Byte>) returns (ok: bool, result: seq<Byte>)
    ensures ok ==> DecodesTo(input, result)
    ensures !ok ==> forall b :: !DecodesTo(input, b)
    ensures exists n :: Consumed(input, n, result)
  {
    hide Num, Bits, Pow2, Shl, Flat, Chunks, Zeros, Front;
    result := [];
    Pow2Values();
    var converter := new BitConverter(5, 8);
    var i := 0;
    assert Flat(result, 8) + converter.queue == Flat(Values(input[..i]), 5);
    while i < |input|
      invariant 0 <= i <= |input| && InAlphabet(input[..i])
      invariant converter.Valid() && converter.fromLength == 5 && converter.toLength == 8
      invariant |converter.queue| < 8
      invariant Flat(result, 8) + converter.queue == Flat(Values(input[..i]), 5)
    {
      var v := Value(input[i]);
      if v == -1 {
        ChunksOfFlat(result, 8, converter.queue);
        assert Consumed(input, i, result);
        assert !InAlphabet(input);
        return false, result;
      }
      ValuesSnoc(input, i);
      ghost var q := converter.queue + Bits(v, 5);
      assert Flat(result, 8) + q == Flat(Values(input[..i + 1]), 5);
      converter.Append(v);
      if converter.CanExtract() {
        FlatSnoc(result, q[..8]);
        assert q == q[..8] + q[8..];
        var b := converter.Extract();
        result := result + [b];
      }
      i := i + 1;
    }
    assert input[..i] == input;
    ChunksOfFlat(result, 8, converter.queue);
    assert Consumed(input, i, result);
    LeftoverDecides(input, result, converter.queue);
    PeekLeftover(converter.queue);
    var rest := converter.Peek();
    ok := rest == 0;
  }

  /** `b` is what the first `n` characters hold in whole bytes, and the next one is no symbol. */
  ghost predicate Consumed(s: seq<Byte>, n: nat, b: seq<Byte>) {
    && n <= |s| && InAlphabet(s[..n]) && (n == |s| || Value(s[n]) < 0)
    && b == Chunks(Flat(Values(s[..n]), 5), 8)
  }

  // Which strings are accepted

  const LETTER_A: Byte := 65

  lemma WholeFives(bits: seq<bool>)
    requires |bits| % 5 == 0
    ensures Flat(Chunks(bits, 5), 5) == bits && 5 * |Chunks(bits, 5)| == |bits|
  {
    FlatOfChunks(bits, 5);
    var n := |Chunks(bits, 5)|;
    assert |Flat(Chunks(bits, 5), 5)| == 5 * n;
    assert 5 * n == |bits|;
  }

  lemma SymbolsAndBack(vs: seq<nat>)
    requires Below(vs, 32)
    ensures InAlphabet(Symbols(vs)) && Values(Symbols(vs)) == vs
  {
  }

  /** The symbols of an encoding stand for the padded bits. */
  lemma EncodedBits(b: seq<Byte>)
    ensures InAlphabet(Encoded(b))
    ensures Flat(Values(Encoded(b)), 5) == Pad(Flat(b, 8))
    ensures |Encoded(b)| == (8 * |b| + 4) / 5
  {
    hide Flat, Chunks;
    Pow2Values();
    var bits := Pad(Flat(b, 8));
    WholeFives(bits);
    SymbolsAndBack(Chunks(bits, 5));
    EncodedLength(|b|);
    hide PadLength;
  }

  lemma SameBitsSameString(s: seq<Byte>, t: seq<Byte>)
    requires InAlphabet(s) && InAlphabet(t) && Flat(Values(s), 5) == Flat(Values(t), 5)
    ensures s == t
  {
    Pow2Values();
    FlatInjective(Values(s), Values(t), 5);
    forall i | 0 <= i < |s| ensures s[i] == t[i] {
      assert Value(s[i]) == Values(s)[i] == Values(t)[i] == Value(t[i]);
    }
  }

  lemma ValuesWithA(s: seq<Byte>)
    requires InAlphabet(s)
    ensures InAlphabet(s + [LETTER_A]) && Values(s + [LETTER_A]) == Values(s) + [0]
  {
  }

  lemma SurplusBits(b: seq<Byte>)
    ensures InAlphabet(Encoded(b) + [LETTER_A])
    ensures Flat(Values(Encoded(b) + [LETTER_A]), 5) == Pad(Flat(b, 8)) + Zeros(5)
  {
    hide Encoded, Pad, Flat, Zeros;
    EncodedBits(b);
    ValuesWithA(Encoded(b));
    FlatAppend(Values(Encoded(b)), [0], 5);
    ZeroSymbol();
  }

  lemma ZeroSymbol()
    ensures Flat([0], 5) == Zeros(5)
  {
    NumZeros(5);
    BitsOfNum(Zeros(5));
    assert Flat([0], 5) == Bits(0, 5) + Flat([], 5);
  }

  lemma ZerosAppend(a: nat, b: nat)
    ensures Zeros(a) + Zeros(b) == Zeros(a + b)
  {
  }

  lemma EncodedLength(n: nat)
    ensures 8 * n <= 5 * ((8 * n + 4) / 5) <= 8 * n + 4
    ensures PadLength(8 * n) == 5 * ((8 * n + 4) / 5) - 8 * n
  {
    hide PadLength;
    var e, z := (8 * n + 4) / 5, PadLength(8 * n);
    SameMultiple(8 * n, z, e);
  }

  /** Only one multiple of five lies among five numbers in a row. */
  lemma SameMultiple(x: nat, z: nat, e: nat)
    requires z < 5 && (x + z) % 5 == 0 && e == (x + 4) / 5
    ensures x <= 5 * e <= x + 4 && z == 5 * e - x
  {
    var m, r := (x + z) / 5, (x + 4) % 5;
    assert x + z == 5 * m;
    assert x + 4 == 5 * e + r;
    assert -5 < 5 * (m - e) < 5;
  }

  /** Lengths of `m` symbols that hold `n` bytes and fewer than eight bits more. */
  lemma SpareBits(m: nat, n: nat)
    ensures 8 * n <= 5 * m < 8 * n + 5 <==> m == (8 * n + 4) / 5
    ensures 8 * n + 5 <= 5 * m < 8 * n + 8 <==>
            m == (8 * n + 4) / 5 + 1 && (m % 8 == 1 || m % 8 == 3 || m % 8 == 6)
  {
    EncodedLength(n);
    hide PadLength;
    var e := (8 * n + 4) / 5;
    if m == e + 1 {
      var j, x := m % 8, n - 5 * (m / 8);
      var r := 5 * m - 8 * n;
      assert 5 * j == 8 * x + r && 5 <= r <= 9;
      SpareModEight(j, x, r);
    }
  }

  lemma SpareModEight(j: nat, x: int, r: int)
    requires j < 8 && 5 * j == 8 * x + r && 5 <= r <= 9
    ensures r <= 7 <==> j == 1 || j == 3 || j == 6
  {
    assert -1 <= x <= 3;
  }

  lemma PaddedBits(b: seq<Byte>, spare: nat)
    ensures spare == 5 * ((8 * |b| + 4) / 5) - 8 * |b| ==>
            Pad(Flat(b, 8)) == Flat(b, 8) + Zeros(spare)
    ensures spare == 5 * ((8 * |b| + 4) / 5) + 5 - 8 * |b| ==>
            Pad(Flat(b, 8)) + Zeros(5) == Flat(b, 8) + Zeros(spare)
  {
    hide Flat, PadLength;
    EncodedLength(|b|);
    var pad := PadLength(8 * |b|);
    ZerosAppend(pad, 5);
    assert Flat(b, 8) + Zeros(pad) + Zeros(5) == Flat(b, 8) + (Zeros(pad) + Zeros(5));
  }

  /** Decoding accepts `s` with result `b` if and only if `s` is the encoding of `b`, or that
      followed by one 'A' where the length leaves at least five spare bits. */
  lemma DecodeIffEncoded(s: seq<Byte>, b: seq<Byte>)
    ensures DecodesTo(s, b) <==>
            || s == Encoded(b)
            || (s == Encoded(b) + [LETTER_A] && (|s| % 8 == 1 || |s| % 8 == 3 || |s| % 8 == 6))
  {
    EncodedBits(b);
    SurplusBits(b);
    hide Flat, Encoded, Pad;
    SpareBits(|s|, |b|);
    if 8 * |b| <= 5 * |s| < 8 * |b| + 8 {
      PaddedBits(b, 5 * |s| - 8 * |b|);
      if DecodesTo(s, b) {
        SameBitsSameString(s, if |s| == |Encoded(b)| then Encoded(b) else Encoded(b) + [LETTER_A]);
      }
    }
  }

  /** Decoding is a left inverse of encoding, and encoding is injective. */
  lemma RoundTrip(b: seq<Byte>, c: seq<Byte>)
    ensures DecodesTo(Encoded(b), b)
    ensures DecodesTo(Encoded(b), c) ==> c == b
  {
    DecodeIffEncoded(Encoded(b), b);
    if DecodesTo(Encoded(b), c) {
      DecodesToOne(Encoded(b), b, c);
    }
  }

  lemma DecodesToOne(s: seq<Byte>, b: seq<Byte>, c: seq<Byte>)
    requires DecodesTo(s, b) && DecodesTo(s, c)
    ensures b == c
  {
    Pow2Values();
    assert |b| == |c|;
    assert Flat(b, 8) == Flat(Values(s), 5)[..8 * |b|] == Flat(c, 8);
    FlatInjective(b, c, 8);
  }
}
