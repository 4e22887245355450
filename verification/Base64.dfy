/** Base64 (sections 4 and 5 of RFC 4648): the encoders and the decoder write into a buffer
    sized beforehand; the decoder rejects stale bits (section 3.5). */
module Base64 {
  import opened BitStrings
  import opened Options

  const UPPER := "ABCDEFGHIJKLMNOPQRSTUVWXYZ"
  const LOWER := "abcdefghijklmnopqrstuvwxyz"
  const DIGITS := "0123456789"
  const TABLE := UPPER + LOWER + DIGITS + "+/"
  const TABLE_URL_SAFE := UPPER + LOWER + DIGITS + "-_"
  const NULL_ENDING: Byte := 61

  // The reverse table, sixteen characters a row; rows 0, 1 and 8 to 15 hold no symbol.
  const NO_SYMBOL: seq<int> := [-1, -1, -1, -1, -1, -1, -1, -1, -1, -1, -1, -1, -1, -1, -1, -1]
  const ROW_32: seq<int> := [-1, -1, -1, -1, -1, -1, -1, -1, -1, -1, -1, 62, -1, 62, -1, 63]
  const ROW_48: seq<int> := [52, 53, 54, 55, 56, 57, 58, 59, 60, 61, -1, -1, -1, 0, -1, -1]
  const ROW_64: seq<int> := [-1, 0, 1, 2, 3, 4, 5, 6, 7, 8, 9, 10, 11, 12, 13, 14]
  const ROW_80: seq<int> := [15, 16, 17, 18, 19, 20, 21, 22, 23, 24, 25, -1, -1, -1, -1, 63]
  const ROW_96: seq<int> := [-1, 26, 27, 28, 29, 30, 31, 32, 33, 34, 35, 36, 37, 38, 39, 40]
  const ROW_112: seq<int> := [41, 42, 43, 44, 45, 46, 47, 48, 49, 50, 51, -1, -1, -1, -1, -1]

  type Sextet = x: int | 0 <= x < 64

  /** The character of a sextet in one of the two alphabets. */
  function Symbol(v: Sextet, urlSafe: bool): (c: Byte)
    ensures c == if v < 26 then 65 + v else if v < 52 then 71 + v else if v < 62 then v - 4
                 else if v == 62 then (if urlSafe then 45 else 43) else (if urlSafe then 95 else 47)
  {
    LetterAt(v);
    (if urlSafe then TABLE_URL_SAFE[v] else TABLE[v]) as int
  }

  lemma Letters()
    ensures |UPPER| == 26 && |LOWER| == 26 && |DIGITS| == 10
    ensures forall i | 0 <= i < 26 :: UPPER[i] as int == 65 + i && LOWER[i] as int == 97 + i
    ensures forall i | 0 <= i < 10 :: DIGITS[i] as int == 48 + i
  {
  }

  lemma LetterAt(v: Sextet)
    ensures |TABLE| == 64 && |TABLE_URL_SAFE| == 64
    ensures v < 26 ==> TABLE[v] as int == TABLE_URL_SAFE[v] as int == 65 + v
    ensures 26 <= v < 52 ==> TABLE[v] as int == TABLE_URL_SAFE[v] as int == 71 + v
    ensures 52 <= v < 62 ==> TABLE[v] as int == TABLE_URL_SAFE[v] as int == v - 4
    ensures v >= 62 ==> TABLE[v] == "+/"[v - 62] && TABLE_URL_SAFE[v] == "-_"[v - 62]
  {
    Letters();
    hide UPPER, LOWER, DIGITS;
  }

  function Row(n: nat): (r: seq<int>)
    requires n < 16
    ensures |r| == 16
  {
    match n
    case 2 => ROW_32
    case 3 => ROW_48
    case 4 => ROW_64
    case 5 => ROW_80
    case 6 => ROW_96
    case 7 => ROW_112
    case _ => NO_SYMBOL
  }

  /** The reverse table: both alphabets, '=' as 0, -1 otherwise. */
  function Reverse(c: Byte): (v: int)
    ensures v == if c == NULL_ENDING then 0 else SextetOf(c)
  {
    Row(c / 16)[c % 16]
  }

  ghost function SextetOf(c: Byte): (v: int)
    ensures -1 <= v < 64
  {
    if 65 <= c <= 90 then c - 65 else if 97 <= c <= 122 then c - 71 else if 48 <= c <= 57 then c + 4
    else if c == 43 || c == 45 then 62 else if c == 47 || c == 95 then 63 else -1
  }

  // The encoding: three bytes are four sextets

  /** The four sextets of a group; a group of one or two bytes is completed with zeros. */
  function Sextets(b0: Byte, b1: Byte, b2: Byte): (v: (Sextet, Sextet, Sextet, Sextet)) {
    (b0 / 4, (b0 % 4) * 16 + b1 / 16, (b1 % 16) * 4 + b2 / 64, b2 % 64)
  }

  /** The encoding of the last one or two bytes. */
  ghost function EncodedTail(b: seq<Byte>, urlSafe: bool, pad: bool): (s: seq<Byte>)
    requires 0 < |b| < 3
  {
    var v := Sextets(b[0], if |b| == 2 then b[1] else 0, 0);
    if |b| == 1 then
      [Symbol(v.0, urlSafe), Symbol(v.1, urlSafe)] + (if pad then [NULL_ENDING, NULL_ENDING] else [])
    else
      [Symbol(v.0, urlSafe), Symbol(v.1, urlSafe), Symbol(v.2, urlSafe)] + (if pad then [NULL_ENDING] else [])
  }

  ghost function EncodedGroup(b0: Byte, b1: Byte, b2: Byte, urlSafe: bool): (s: seq<Byte>)
    ensures |s| == 4
  {
    var v := Sextets(b0, b1, b2);
    [Symbol(v.0, urlSafe), Symbol(v.1, urlSafe), Symbol(v.2, urlSafe), Symbol(v.3, urlSafe)]
  }

  ghost function Encoded(b: seq<Byte>, urlSafe: bool, pad: bool): (s: seq<Byte>) {
    if b == [] then []
    else if |b| < 3 then EncodedTail(b, urlSafe, pad)
    else EncodedGroup(b[0], b[1], b[2], urlSafe) + Encoded(b[3..], urlSafe, pad)
  }

  // Decoding, group by group

  /** The bytes of four sextets. */
  function Bytes(v0: Sextet, v1: Sextet, v2: Sextet, v3: Sextet): (b: (Byte, Byte, Byte)) {
    (v0 * 4 + v1 / 16, (v1 % 16) * 16 + v2 / 4, (v2 % 4) * 64 + v3)
  }

  /** The last group, a missing third or fourth character read as '='. */
  ghost function DecodedLast(s: seq<Byte>): Option<seq<Byte>>
    requires 2 <= |s| <= 4
  {
    var v0, v1 := SextetOf(s[0]), SextetOf(s[1]);
    var c2, c3 := if |s| > 2 then s[2] else NULL_ENDING, if |s| > 3 then s[3] else NULL_ENDING;
    var v2, v3 := SextetOf(c2), SextetOf(c3);
    if v0 < 0 || v1 < 0 then None
    else if c2 == NULL_ENDING then
      if c3 == NULL_ENDING && v1 % 16 == 0 then Some([Bytes(v0, v1, 0, 0).0]) else None
    else if v2 < 0 then None
    else if c3 == NULL_ENDING then
      if v2 % 4 == 0 then Some([Bytes(v0, v1, v2, 0).0, Bytes(v0, v1, v2, 0).1]) else None
    else if v3 < 0 then None
    else Some([Bytes(v0, v1, v2, v3).0, Bytes(v0, v1, v2, v3).1, Bytes(v0, v1, v2, v3).2])
  }

  ghost predicate FullGroup(s: seq<Byte>)
    requires |s| >= 4
  {
    SextetOf(s[0]) >= 0 && SextetOf(s[1]) >= 0 && SextetOf(s[2]) >= 0 && SextetOf(s[3]) >= 0
  }

  ghost function GroupBytes(s: seq<Byte>): (b: seq<Byte>)
    requires |s| >= 4 && FullGroup(s)
    ensures |b| == 3
  {
    var b := Bytes(SextetOf(s[0]), SextetOf(s[1]), SextetOf(s[2]), SextetOf(s[3]));
    [b.0, b.1, b.2]
  }

  ghost function Decoded(s: seq<Byte>): Option<seq<Byte>> {
    if s == [] then Some([])
    else if |s| == 1 then None
    else if |s| <= 4 then DecodedLast(s)
    else if !FullGroup(s) then None
    else match Decoded(s[4..])
      case None => None
      case Some(rest) => Some(GroupBytes(s) + rest)
  }

  // Which strings are accepted

  /** '-' and '_' read as '+' and '/'. */
  ghost function Norm(s: seq<Byte>): (r: seq<Byte>)
    ensures |r| == |s|
    ensures forall i | 0 <= i < |s| :: r[i] == NormChar(s[i])
  {
    seq(|s|, i requires 0 <= i < |s| => NormChar(s[i]))
  }

  ghost function NormChar(c: Byte): Byte {
    if c == 45 then 43 else if c == 95 then 47 else c
  }

  /** Length 3 mod 4 ending in '=': one '=' written out and one implied. */
  ghost predicate HalfPadded(s: seq<Byte>) {
    |s| % 4 == 3 && s[|s| - 1] == NULL_ENDING
  }

  /** `s` is the padded or the unpadded encoding of `b` in either alphabet, or carries one of
      the two '=' that pad a single byte. */
  ghost predicate EncodingOf(s: seq<Byte>, b: seq<Byte>) {
    || Norm(s) == Encoded(b, false, true)
    || Norm(s) == Encoded(b, false, false)
    || (|b| % 3 == 1 && Norm(s) == Encoded(b, false, false) + [NULL_ENDING])
  }

  lemma BytesOfSextets(b0: Byte, b1: Byte, b2: Byte)
    ensures var v := Sextets(b0, b1, b2); Bytes(v.0, v.1, v.2, v.3) == (b0, b1, b2)
  {
    var v := Sextets(b0, b1, b2);
    assert v.1 / 16 == b0 % 4 && v.1 % 16 == b1 / 16;
    assert v.2 / 4 == b1 % 16 && v.2 % 4 == b2 / 64;
  }

  lemma SextetsOfBytes(v0: Sextet, v1: Sextet, v2: Sextet, v3: Sextet)
    ensures var b := Bytes(v0, v1, v2, v3); Sextets(b.0, b.1, b.2) == (v0, v1, v2, v3)
  {
    var b := Bytes(v0, v1, v2, v3);
    assert b.0 / 4 == v0 && b.0 % 4 == v1 / 16;
    assert b.1 / 16 == v1 % 16 && b.1 % 16 == v2 / 4;
    assert b.2 / 64 == v2 % 4 && b.2 % 64 == v3;
  }

  lemma SymbolAndBack(v: Sextet, urlSafe: bool)
    ensures SextetOf(Symbol(v, urlSafe)) == v && NormChar(Symbol(v, urlSafe)) == Symbol(v, false)
    ensures Symbol(v, urlSafe) != NULL_ENDING
  {
  }

  lemma NormIsSymbol(c: Byte)
    ensures SextetOf(c) >= 0 ==> NormChar(c) == Symbol(SextetOf(c), false)
    ensures SextetOf(c) < 0 ==> NormChar(c) == c
    ensures SextetOf(NormChar(c)) == SextetOf(c)
    ensures NormChar(c) == NULL_ENDING <==> c == NULL_ENDING
  {
  }

  /** The characters that stand for a value are its symbols in the two alphabets, and no others. */
  lemma SymbolIff(c: Byte, v: Sextet)
    ensures SextetOf(c) == v <==> c == Symbol(v, false) || c == Symbol(v, true)
  {
  }

  /** Four characters decode to three bytes exactly if they are their encoding. */
  lemma GroupIff(s: seq<Byte>, b0: Byte, b1: Byte, b2: Byte)
    requires |s| >= 4
    ensures FullGroup(s) && GroupBytes(s) == [b0, b1, b2] <==> Norm(s)[..4] == EncodedGroup(b0, b1, b2, false)
  {
    var v := Sextets(b0, b1, b2);
    BytesOfSextets(b0, b1, b2);
    SymbolAndBack(v.0, false);
    SymbolAndBack(v.1, false);
    SymbolAndBack(v.2, false);
    SymbolAndBack(v.3, false);
    NormIsSymbol(s[0]);
    NormIsSymbol(s[1]);
    NormIsSymbol(s[2]);
    NormIsSymbol(s[3]);
    var g := EncodedGroup(b0, b1, b2, false);
    if FullGroup(s) {
      SextetsOfBytes(SextetOf(s[0]), SextetOf(s[1]), SextetOf(s[2]), SextetOf(s[3]));
    }
    assert Norm(s)[..4] == g <==> Norm(s)[0] == g[0] && Norm(s)[1] == g[1] && Norm(s)[2] == g[2] && Norm(s)[3] == g[3];
  }

  /** A last group of one byte: two characters, then none, one or two '='. */
  lemma OneByteIff(s: seq<Byte>, x: Byte)
    requires 2 <= |s| <= 4
    ensures DecodedLast(s) == Some([x]) <==> EncodingOf(s, [x])
  {
    hide Norm, Symbol, SextetOf, NormChar;
    var v := Sextets(x, 0, 0);
    SymbolAndBack(v.0, false);
    SymbolAndBack(v.1, false);
    NormIsSymbols(s);
    var e := Encoded([x], false, false);
    assert e == [Symbol(v.0, false), Symbol(v.1, false)];
    assert EncodingOf(s, [x]) <==>
           && Norm(s)[0] == e[0] && Norm(s)[1] == e[1]
           && (forall i | 2 <= i < |s| :: s[i] == NULL_ENDING) by {
      assert Encoded([x], false, true) == e + [NULL_ENDING, NULL_ENDING];
    }
  }

  /** A last group of two bytes: three characters, then none or one '='. */
  lemma TwoBytesIff(s: seq<Byte>, x: Byte, y: Byte)
    requires 2 <= |s| <= 4
    ensures DecodedLast(s) == Some([x, y]) <==> EncodingOf(s, [x, y])
  {
    hide Norm, Symbol, SextetOf, NormChar, Sextets, Bytes;
    var v := Sextets(x, y, 0);
    var e := Encoded([x, y], false, false);
    assert e == [Symbol(v.0, false), Symbol(v.1, false), Symbol(v.2, false)];
    assert EncodingOf(s, [x, y]) <==>
           && |s| >= 3 && Norm(s)[0] == e[0] && Norm(s)[1] == e[1] && Norm(s)[2] == e[2]
           && (|s| == 4 ==> Norm(s)[3] == NULL_ENDING) by {
      assert Encoded([x, y], false, true) == e + [NULL_ENDING];
    }
    NormIsSymbols(s);
    if |s| >= 3 && SextetOf(s[0]) >= 0 && SextetOf(s[1]) >= 0 && SextetOf(s[2]) >= 0 {
      var u0, u1, u2 := SextetOf(s[0]), SextetOf(s[1]), SextetOf(s[2]);
      TwoByteSextets(u0, u1, u2, x, y);
      SymbolsDiffer(u0, v.0);
      SymbolsDiffer(u1, v.1);
      SymbolsDiffer(u2, v.2);
    } else {
      SymbolAndBack(v.0, false);
      SymbolAndBack(v.1, false);
      SymbolAndBack(v.2, false);
    }
  }

  lemma TwoByteSextets(u0: Sextet, u1: Sextet, u2: Sextet, x: Byte, y: Byte)
    ensures u2 % 4 == 0 && Bytes(u0, u1, u2, 0).0 == x && Bytes(u0, u1, u2, 0).1 == y
       <==> u0 == Sextets(x, y, 0).0 && u1 == Sextets(x, y, 0).1 && u2 == Sextets(x, y, 0).2
  {
    SextetsOfBytes(u0, u1, u2, 0);
    BytesOfSextets(x, y, 0);
  }

  lemma SymbolsDiffer(u: Sextet, v: Sextet)
    ensures Symbol(u, false) == Symbol(v, false) <==> u == v
  {
  }

  lemma NormIsSymbols(s: seq<Byte>)
    ensures forall i | 0 <= i < |s| ::
              && (SextetOf(s[i]) >= 0 ==> s[i] != NULL_ENDING && Norm(s)[i] == Symbol(SextetOf(s[i]), false))
              && SextetOf(Norm(s)[i]) == SextetOf(s[i])
              && (Norm(s)[i] == NULL_ENDING <==> s[i] == NULL_ENDING)
  {
  }

  lemma ThreeBytesIff(s: seq<Byte>, x: Byte, y: Byte, z: Byte)
    requires 2 <= |s| <= 4
    ensures DecodedLast(s) == Some([x, y, z]) <==> EncodingOf(s, [x, y, z])
  {
    var b := [x, y, z];
    assert b[3..] == [];
    assert Encoded(b, false, false) == Encoded(b, false, true) == EncodedGroup(x, y, z, false);
    if |s| == 4 {
      GroupIff(s, x, y, z);
      assert Norm(s)[..4] == Norm(s);
    }
  }

  /** How long an encoding is, as far as telling groups apart takes. */
  lemma EncodedLength(b: seq<Byte>, pad: bool)
    ensures b == [] ==> Encoded(b, false, pad) == []
    ensures 0 < |b| <= 3 ==> 2 <= |Encoded(b, false, pad)| <= 4
    ensures |b| == 1 ==> |Encoded(b, false, false)| == 2
    ensures |b| > 3 ==> |Encoded(b, false, pad)| > 4
  {
    if |b| >= 3 {
      var rest := b[3..];
      assert Encoded(b, false, pad) == EncodedGroup(b[0], b[1], b[2], false) + Encoded(rest, false, pad);
      assert rest != [] ==> |Encoded(rest, false, pad)| > 0;
    }
  }

  lemma LastIff(s: seq<Byte>, b: seq<Byte>)
    requires 2 <= |s| <= 4
    ensures DecodedLast(s) == Some(b) <==> EncodingOf(s, b)
  {
    EncodedLength(b, true);
    EncodedLength(b, false);
    if |b| == 1 {
      OneByteIff(s, b[0]);
      assert b == [b[0]];
    } else if |b| == 2 {
      TwoBytesIff(s, b[0], b[1]);
      assert b == [b[0], b[1]];
    } else if |b| == 3 {
      ThreeBytesIff(s, b[0], b[1], b[2]);
      assert b == [b[0], b[1], b[2]];
    }
  }

  lemma PeelEncoded(b: seq<Byte>, pad: bool)
    requires |b| > 3
    ensures Encoded(b, false, pad) == EncodedGroup(b[0], b[1], b[2], false) + Encoded(b[3..], false, pad)
  {
  }

  lemma PeelNorm(s: seq<Byte>)
    requires |s| > 4
    ensures Norm(s) == Norm(s)[..4] + Norm(s[4..])
  {
  }

  lemma PeelIff(s: seq<Byte>, b: seq<Byte>)
    requires |s| > 4 && |b| > 3
    ensures EncodingOf(s, b) <==>
            Norm(s)[..4] == EncodedGroup(b[0], b[1], b[2], false) && EncodingOf(s[4..], b[3..])
  {
    hide Encoded, EncodedGroup, Norm;
    var g, n := EncodedGroup(b[0], b[1], b[2], false), Norm(s);
    var bare, padded := Encoded(b[3..], false, false), Encoded(b[3..], false, true);
    PeelEncoded(b, false);
    PeelEncoded(b, true);
    PeelNorm(s);
    assert g + bare + [NULL_ENDING] == g + (bare + [NULL_ENDING]);
    SamePrefix(n, g, Norm(s[4..]), padded);
    SamePrefix(n, g, Norm(s[4..]), bare);
    SamePrefix(n, g, Norm(s[4..]), bare + [NULL_ENDING]);
  }

  lemma SamePrefix(n: seq<Byte>, g: seq<Byte>, rest: seq<Byte>, tail: seq<Byte>)
    requires |n| >= 4 == |g| && n == n[..4] + rest
    ensures n == g + tail <==> n[..4] == g && rest == tail
  {
    assert rest == n[4..];
    if n == g + tail {
      assert n[..4] == g && n[4..] == tail;
    }
  }

  /** Decoding accepts `s` with bytes `b` if and only if `s` is an encoding of `b`. */
  lemma {:induction false} AcceptedIffEncoding(s: seq<Byte>, b: seq<Byte>)
    ensures Decoded(s) == Some(b) <==> EncodingOf(s, b)
    decreases |s|
  {
    hide Norm, Symbol, SextetOf;
    EncodedLength(b, true);
    EncodedLength(b, false);
    if 2 <= |s| <= 4 {
      LastIff(s, b);
    } else if |s| > 4 && |b| > 3 {
      PeelIff(s, b);
      GroupIff(s, b[0], b[1], b[2]);
      AcceptedIffEncoding(s[4..], b[3..]);
      PeelDecoded(s, b);
    } else if |s| > 4 {
      TooLong(s);
    }
  }

  lemma PeelDecoded(s: seq<Byte>, b: seq<Byte>)
    requires |s| > 4 && |b| > 3
    ensures Decoded(s) == Some(b) <==>
            FullGroup(s) && GroupBytes(s) == [b[0], b[1], b[2]] && Decoded(s[4..]) == Some(b[3..])
  {
    assert b == [b[0], b[1], b[2]] + b[3..];
    if Decoded(s) == Some(b) {
      var rest := Decoded(s[4..]).value;
      assert b[..3] == GroupBytes(s) && b[3..] == rest;
    }
  }

  /** More than four characters never decode to three bytes or fewer. */
  lemma {:induction false} TooLong(s: seq<Byte>)
    requires |s| > 4
    ensures Decoded(s).Some? ==> |Decoded(s).value| > 3
    decreases |s|
  {
    if |s| > 8 {
      TooLong(s[4..]);
    }
  }

  lemma {:induction false} BareLength(b: seq<Byte>)
    ensures |Encoded(b, false, false)| % 4 == if |b| % 3 == 0 then 0 else |b| % 3 + 1
  {
    hide Symbol, Sextets, EncodedGroup;
    if |b| >= 3 {
      BareLength(b[3..]);
      assert |Encoded(b, false, false)| == 4 + |Encoded(b[3..], false, false)|;
    }
  }

  lemma HalfPaddedForm(s: seq<Byte>, b: seq<Byte>)
    requires |b| % 3 == 1 && Norm(s) == Encoded(b, false, false) + [NULL_ENDING]
    ensures HalfPadded(s)
  {
    hide Encoded, Norm, SextetOf, Symbol, NormChar;
    BareLength(b);
    assert |s| == |Encoded(b, false, false)| + 1;
    NormIsSymbol(s[|s| - 1]);
    assert Norm(s)[|s| - 1] == NULL_ENDING;
  }

  /** Canonicity: outside the half-padded strings, exactly the padded and the unpadded
      encodings of `b`, in either alphabet, decode to `b`. */
  lemma Canonical(s: seq<Byte>, b: seq<Byte>)
    requires !HalfPadded(s)
    ensures Decoded(s) == Some(b) <==> Norm(s) == Encoded(b, false, true) || Norm(s) == Encoded(b, false, false)
  {
    AcceptedIffEncoding(s, b);
    hide Encoded, Decoded;
    if |b| % 3 == 1 && Norm(s) == Encoded(b, false, false) + [NULL_ENDING] {
      HalfPaddedForm(s, b);
    }
  }

  lemma NormOfSymbols(s: seq<Byte>, t: seq<Byte>)
    requires |s| == |t| && forall i | 0 <= i < |s| :: NormChar(s[i]) == t[i]
    ensures Norm(s) == t
  {
  }

  lemma {:induction false} NormOfEncoded(b: seq<Byte>, urlSafe: bool, pad: bool)
    ensures Norm(Encoded(b, urlSafe, pad)) == Encoded(b, false, pad)
  {
    hide Symbol, Sextets, Norm;
    if 0 < |b| {
      var b1, b2 := if |b| > 1 then b[1] else 0, if |b| > 2 then b[2] else 0;
      var v := Sextets(b[0], b1, b2);
      SymbolAndBack(v.0, urlSafe);
      SymbolAndBack(v.1, urlSafe);
      SymbolAndBack(v.2, urlSafe);
      SymbolAndBack(v.3, urlSafe);
    }
    if |b| >= 3 {
      NormOfEncoded(b[3..], urlSafe, pad);
      var g, h := EncodedGroup(b[0], b[1], b[2], urlSafe), EncodedGroup(b[0], b[1], b[2], false);
      NormOfSymbols(g, h);
      assert Encoded(b, urlSafe, pad) == g + Encoded(b[3..], urlSafe, pad);
      NormAppend(g, Encoded(b[3..], urlSafe, pad));
    } else {
      NormOfSymbols(Encoded(b, urlSafe, pad), Encoded(b, false, pad));
    }
  }

  lemma NormAppend(s: seq<Byte>, t: seq<Byte>)
    ensures Norm(s + t) == Norm(s) + Norm(t)
  {
  }

  /** Decoding the output of any of the four encoders gives the input back. */
  lemma RoundTrip(b: seq<Byte>, urlSafe: bool, pad: bool)
    ensures Decoded(Encoded(b, urlSafe, pad)) == Some(b)
  {
    NormOfEncoded(b, urlSafe, pad);
    AcceptedIffEncoding(Encoded(b, urlSafe, pad), b);
  }

  /** "QQ=" is accepted although it is neither the padded nor the unpadded encoding of "A". */
  lemma HalfPaddedExample()
    ensures HalfPadded([81, 81, 61]) && Decoded([81, 81, 61]) == Some([65])
    ensures Norm([81, 81, 61]) != Encoded([65], false, true) && Norm([81, 81, 61]) != Encoded([65], false, false)
  {
    var s: seq<Byte> := [81, 81, 61];
    assert SextetOf(81) == 16;
    assert Decoded(s) == DecodedLast(s);
    assert Norm(s) == s;
    hide Symbol, Sextets;
    assert |Encoded([65], false, true)| == 4 && |Encoded([65], false, false)| == 2;
  }

  // Shifts and masks of one group

  lemma Mask6(x: nat)
    ensures And(x, 0x3F) == x % 64
    ensures x < 64 ==> And(x, 0x3F) == x
  {
    hide And, Pow2;
    Pow2Values();
    AndMask(x, 6);
  }

  lemma Mask8(x: nat)
    ensures And(x, 0xFF) == x % 256
  {
    hide And, Pow2;
    Pow2Values();
    AndMask(x, 8);
  }

  /** Or-ing a small number below a shifted one, in either order, adds them. */
  lemma OrAdds(a: nat, b: nat, k: nat, p: nat)
    requires p == Pow2(k) && b < p
    ensures Or(a * p, b) == a * p + b && Or(b, a * p) == a * p + b
  {
    OrDisjoint(a, b, k);
    OrCommutes(b, a * p);
  }

  /** The digit of `n` between `k` low bits and everything above. */
  lemma SextetAt(n: nat, k: nat, p: nat, high: nat, v: nat, low: nat)
    requires p == Pow2(k) && v < 64 && low < p && n == (high * 64 + v) * p + low
    ensures And(Shr(n, k), 0x3F) == v
  {
    DivModUnique(n, p, high * 64 + v, low);
    Mask6(high * 64 + v);
    DivModUnique(high * 64 + v, 64, high, v);
  }

  lemma ByteAt(n: nat, k: nat, p: nat, high: nat, b: nat, low: nat)
    requires p == Pow2(k) && b < 256 && low < p && n == (high * 256 + b) * p + low
    ensures And(Shr(n, k), 0xFF) == b
  {
    DivModUnique(n, p, high * 256 + b, low);
    Mask8(high * 256 + b);
    DivModUnique(high * 256 + b, 256, high, b);
  }

  lemma JoinBytes(b0: nat, b1: nat, b2: nat)
    requires b0 < 256 && b1 < 256 && b2 < 256
    ensures Or(Or(And(b2, 0xFF), Shl(And(b1, 0xFF), 8)), Shl(And(b0, 0xFF), 16)) == b0 * 65536 + b1 * 256 + b2
  {
    Pow2Values();
    Mask8(b0);
    Mask8(b1);
    Mask8(b2);
    ShlValues(b0);
    ShlValues(b1);
    hide Or, And, Shl, Shr, Pow2;
    OrAdds(b1, b2, 8, 256);
    OrAdds(b0, b1 * 256 + b2, 16, 65536);
  }

  lemma SplitSextets(v0: nat, v1: nat, v2: nat, v3: nat, n: nat)
    requires v0 < 64 && v1 < 64 && v2 < 64 && v3 < 64
    requires n == v0 * 262144 + v1 * 4096 + v2 * 64 + v3
    ensures And(Shr(n, 18), 0x3F) == v0 && And(Shr(n, 12), 0x3F) == v1
    ensures And(Shr(n, 6), 0x3F) == v2 && And(Shr(n, 0), 0x3F) == v3
  {
    Pow2Values();
    SextetAt(n, 18, 262144, 0, v0, v1 * 4096 + v2 * 64 + v3);
    SextetAt(n, 12, 4096, v0, v1, v2 * 64 + v3);
    SextetAt(n, 6, 64, v0 * 64 + v1, v2, v3);
    SextetAt(n, 0, 1, v0 * 4096 + v1 * 64 + v2, v3, 0);
  }

  lemma SextetSum(b0: nat, b1: nat, b2: nat, v0: nat, v1: nat, v2: nat, v3: nat)
    requires v0 == b0 / 4 && v1 == (b0 % 4) * 16 + b1 / 16 && v2 == (b1 % 16) * 4 + b2 / 64 && v3 == b2 % 64
    ensures b0 * 65536 + b1 * 256 + b2 == v0 * 262144 + v1 * 4096 + v2 * 64 + v3
  {
    assert b0 == 4 * v0 + b0 % 4;
    assert b1 == 16 * (b1 / 16) + b1 % 16;
  }

  lemma JoinShifted(v0: nat, v1: nat, v2: nat, v3: nat)
    requires v0 < 64 && v1 < 64 && v2 < 64 && v3 < 64
    ensures Or(Or(Or(v0 * 262144, v1 * 4096), v2 * 64), v3) == v0 * 262144 + v1 * 4096 + v2 * 64 + v3
  {
    Pow2Values();
    hide Or, Pow2;
    var two, three := v0 * 64 + v1, v0 * 4096 + v1 * 64 + v2;
    OrAdds(v0, v1 * 4096, 18, 262144);
    assert v0 * 262144 + v1 * 4096 == two * 4096;
    OrAdds(two, v2 * 64, 12, 4096);
    assert two * 4096 + v2 * 64 == three * 64;
    OrAdds(three, v3, 6, 64);
  }

  lemma JoinSextets(v0: nat, v1: nat, v2: nat, v3: nat)
    requires v0 < 64 && v1 < 64 && v2 < 64 && v3 < 64
    ensures Or(Or(Or(Shl(And(v0, 0x3F), 18), Shl(And(v1, 0x3F), 12)), Shl(And(v2, 0x3F), 6)), And(v3, 0x3F))
         == v0 * 262144 + v1 * 4096 + v2 * 64 + v3
  {
    hide Or, And, Shl, Shr;
    Mask6(v0);
    Mask6(v1);
    Mask6(v2);
    Mask6(v3);
    ShlValues(v0);
    ShlValues(v1);
    ShlValues(v2);
    JoinShifted(v0, v1, v2, v3);
  }

  lemma SplitBytes(b0: nat, b1: nat, b2: nat, n: nat)
    requires b0 < 256 && b1 < 256 && b2 < 256 && n == b0 * 65536 + b1 * 256 + b2
    ensures And(Shr(n, 16), 0xFF) == b0 && And(Shr(n, 8), 0xFF) == b1 && And(Shr(n, 0), 0xFF) == b2
  {
    Pow2Values();
    ByteAt(n, 16, 65536, 0, b0, b1 * 256 + b2);
    ByteAt(n, 8, 256, b0, b1, b2);
    ByteAt(n, 0, 1, b0 * 256 + b1, b2, 0);
  }

  lemma ByteSum(v0: nat, v1: nat, v2: nat, v3: nat, b0: nat, b1: nat, b2: nat)
    requires b0 == v0 * 4 + v1 / 16 && b1 == (v1 % 16) * 16 + v2 / 4 && b2 == (v2 % 4) * 64 + v3
    ensures v0 * 262144 + v1 * 4096 + v2 * 64 + v3 == b0 * 65536 + b1 * 256 + b2
  {
    assert v1 == 16 * (v1 / 16) + v1 % 16;
    assert v2 == 4 * (v2 / 4) + v2 % 4;
  }

  // The encoding carries the bits of the input, as the RFC says

  lemma FourSextets(v0: nat, v1: nat, v2: nat, v3: nat)
    requires v0 < 64 && v1 < 64 && v2 < 64 && v3 < 64
    ensures Num(Flat([v0, v1, v2, v3], 6)) == v0 * 262144 + v1 * 4096 + v2 * 64 + v3
  {
    hide Num, Flat, Shl, Pow2;
    Pow2Values();
    ShlValues(v0);
    ShlValues(v1);
    ShlValues(v2);
    NumFlatStep(v0, [v1, v2, v3], 6);
    NumFlatStep(v1, [v2, v3], 6);
    NumFlatStep(v2, [v3], 6);
    LastNumber(v3, 6);
    assert [v0] + [v1, v2, v3] == [v0, v1, v2, v3] && [v1] + [v2, v3] == [v1, v2, v3] && [v2] + [v3] == [v2, v3];
  }

  lemma ThreeBytes(b0: nat, b1: nat, b2: nat)
    requires b0 < 256 && b1 < 256 && b2 < 256
    ensures Num(Flat([b0, b1, b2], 8)) == b0 * 65536 + b1 * 256 + b2
  {
    hide Num, Flat, Shl, Pow2;
    Pow2Values();
    ShlValues(b0);
    ShlValues(b1);
    NumFlatStep(b0, [b1, b2], 8);
    NumFlatStep(b1, [b2], 8);
    LastNumber(b2, 8);
    assert [b0] + [b1, b2] == [b0, b1, b2] && [b1] + [b2] == [b1, b2];
  }

  lemma LastNumber(x: nat, k: nat)
    requires x < Pow2(k)
    ensures Num(Flat([x], k)) == x
  {
    assert Flat([x], k) == Bits(x, k) + Flat([], k) == Bits(x, k);
    NumOfBits(x, k);
  }

  /** The four sextets of a group are its 24 bits, six at a time. */
  lemma SextetBits(b0: Byte, b1: Byte, b2: Byte)
    ensures var v := Sextets(b0, b1, b2); Flat([v.0, v.1, v.2, v.3], 6) == Flat([b0, b1, b2], 8)
  {
    hide Num, Flat;
    var v := Sextets(b0, b1, b2);
    SextetSum(b0, b1, b2, v.0, v.1, v.2, v.3);
    FourSextets(v.0, v.1, v.2, v.3);
    ThreeBytes(b0, b1, b2);
    SameNumber(Flat([v.0, v.1, v.2, v.3], 6), Flat([b0, b1, b2], 8));
  }

  ghost predicate AllSymbols(s: seq<Byte>) {
    forall i | 0 <= i < |s| :: SextetOf(s[i]) >= 0
  }

  /** The values of symbols. */
  ghost function SextetsOf(s: seq<Byte>): (vs: seq<nat>)
    requires AllSymbols(s)
    ensures |vs| == |s| && forall i | 0 <= i < |s| :: vs[i] == SextetOf(s[i])
  {
    seq(|s|, i requires 0 <= i < |s| => SextetOf(s[i]))
  }

  lemma SextetsOfAppend(s: seq<Byte>, t: seq<Byte>)
    requires AllSymbols(s) && AllSymbols(t)
    ensures AllSymbols(s + t) && SextetsOf(s + t) == SextetsOf(s) + SextetsOf(t)
  {
  }

  /** The zeros that fill up the last sextet. */
  ghost function Fill(n: nat): nat { if n % 3 == 0 then 0 else if n % 3 == 1 then 4 else 2 }

  lemma GroupBits(b0: Byte, b1: Byte, b2: Byte, urlSafe: bool)
    ensures AllSymbols(EncodedGroup(b0, b1, b2, urlSafe))
    ensures Flat(SextetsOf(EncodedGroup(b0, b1, b2, urlSafe)), 6) == Flat([b0, b1, b2], 8)
  {
    hide Symbol, Sextets, SextetOf, Flat;
    var v := Sextets(b0, b1, b2);
    SymbolAndBack(v.0, urlSafe);
    SymbolAndBack(v.1, urlSafe);
    SymbolAndBack(v.2, urlSafe);
    SymbolAndBack(v.3, urlSafe);
    SextetBits(b0, b1, b2);
    assert SextetsOf(EncodedGroup(b0, b1, b2, urlSafe)) == [v.0, v.1, v.2, v.3];
  }

  lemma ZeroBits(k: nat)
    ensures Bits(0, k) == Zeros(k)
  {
    NumZeros(k);
    BitsOfNum(Zeros(k));
  }

  /** Cutting equal bits after the bytes that matter. */
  lemma CutBits(vs: seq<nat>, rest: seq<nat>, bs: seq<nat>, none: seq<nat>, fill: nat)
    requires Flat(vs + rest, 6) == Flat(bs + none, 8) && forall i | 0 <= i < |none| :: none[i] == 0
    requires 6 * |vs| == 8 * |bs| + fill && fill <= 8 * |none|
    ensures Flat(vs, 6) == Flat(bs, 8) + Zeros(fill)
  {
    hide Flat, Zeros;
    FlatAppend(vs, rest, 6);
    FlatAppend(bs, none, 8);
    ZeroBytes(none);
    CutEqual(Flat(vs, 6), Flat(rest, 6), Flat(bs, 8), Zeros(8 * |none|), fill);
    ZerosPrefix(8 * |none|, fill);
  }

  lemma ZerosPrefix(n: nat, k: nat)
    requires k <= n
    ensures Zeros(n)[..k] == Zeros(k)
  {
  }

  lemma CutEqual(a: seq<bool>, b: seq<bool>, c: seq<bool>, d: seq<bool>, n: nat)
    requires a + b == c + d && |a| == |c| + n && n <= |d|
    ensures a == c + d[..n]
  {
    assert a == (a + b)[..|a|];
    assert (c + d)[..|c| + n] == c + d[..n];
  }

  lemma OneByteFlat(x: nat, v0: nat, v1: nat, v2: nat, v3: nat)
    requires Flat([v0, v1, v2, v3], 6) == Flat([x, 0, 0], 8)
    ensures Flat([v0, v1], 6) == Flat([x], 8) + Zeros(4)
  {
    hide Flat, Zeros;
    assert [v0, v1] + [v2, v3] == [v0, v1, v2, v3] && [x] + [0, 0] == [x, 0, 0];
    CutBits([v0, v1], [v2, v3], [x], [0, 0], 4);
  }

  lemma TwoByteFlat(x: nat, y: nat, v0: nat, v1: nat, v2: nat, v3: nat)
    requires Flat([v0, v1, v2, v3], 6) == Flat([x, y, 0], 8)
    ensures Flat([v0, v1, v2], 6) == Flat([x, y], 8) + Zeros(2)
  {
    hide Flat, Zeros;
    assert [v0, v1, v2] + [v3] == [v0, v1, v2, v3] && [x, y] + [0] == [x, y, 0];
    CutBits([v0, v1, v2], [v3], [x, y], [0], 2);
  }

  /** The symbols of a last group of one or two bytes. */
  lemma TailSymbols(b: seq<Byte>, urlSafe: bool)
    requires 0 < |b| < 3
    ensures var v := Sextets(b[0], if |b| == 2 then b[1] else 0, 0);
            var e := EncodedTail(b, urlSafe, false);
            AllSymbols(e) && SextetsOf(e) == if |b| == 1 then [v.0, v.1] else [v.0, v.1, v.2]
  {
    hide Symbol, Sextets, SextetOf;
    var v := Sextets(b[0], if |b| == 2 then b[1] else 0, 0);
    SymbolAndBack(v.0, urlSafe);
    SymbolAndBack(v.1, urlSafe);
    SymbolAndBack(v.2, urlSafe);
  }

  lemma TailBits(b: seq<Byte>, urlSafe: bool)
    requires 0 < |b| < 3
    ensures var e := EncodedTail(b, urlSafe, false);
            AllSymbols(e) && Flat(SextetsOf(e), 6) == Flat(b, 8) + Zeros(if |b| == 1 then 4 else 2)
  {
    hide EncodedTail, Sextets, AllSymbols, SextetsOf, Flat, Zeros;
    TailSymbols(b, urlSafe);
    var b1 := if |b| == 2 then b[1] else 0;
    var v := Sextets(b[0], b1, 0);
    SextetBits(b[0], b1, 0);
    if |b| == 1 {
      OneByteFlat(b[0], v.0, v.1, v.2, v.3);
      assert b == [b[0]];
    } else {
      TwoByteFlat(b[0], b[1], v.0, v.1, v.2, v.3);
      assert b == [b[0], b[1]];
    }
  }

  lemma {:induction false} ZeroBytes(none: seq<nat>)
    requires forall i | 0 <= i < |none| :: none[i] == 0
    ensures Flat(none, 8) == Zeros(8 * |none|)
  {
    if none != [] {
      ZeroBits(8);
      ZeroBytes(none[1..]);
      ZerosJoin(8, 8 * |none[1..]|);
    }
  }

  lemma ZerosJoin(a: nat, b: nat)
    ensures Zeros(a) + Zeros(b) == Zeros(a + b)
  {
  }

  /** The symbols of an encoding stand for the bits of the input, filled up with fewer than six
      zeros: Base64 as sections 4 and 5 of RFC 4648 define it.  Padding only adds '='. */
  lemma {:induction false} EncodedBits(b: seq<Byte>, urlSafe: bool)
    ensures var e := Encoded(b, urlSafe, false);
            AllSymbols(e) && Flat(SextetsOf(e), 6) == Flat(b, 8) + Zeros(Fill(|b|))
  {
    hide Flat, EncodedGroup, EncodedTail, AllSymbols, SextetsOf, Zeros;
    if b == [] {
      NothingEncoded();
    } else if |b| < 3 {
      TailBits(b, urlSafe);
    } else {
      EncodedBits(b[3..], urlSafe);
      MoreBits(b, EncodedGroup(b[0], b[1], b[2], urlSafe), Encoded(b[3..], urlSafe, false), Zeros(Fill(|b|)), urlSafe);
      assert Fill(|b[3..]|) == Fill(|b|);
    }
  }

  /** One group more in front. */
  lemma MoreBits(b: seq<Byte>, g: seq<Byte>, rest: seq<Byte>, zeros: seq<bool>, urlSafe: bool)
    requires |b| >= 3 && g == EncodedGroup(b[0], b[1], b[2], urlSafe)
    requires AllSymbols(rest)
    ensures AllSymbols(g + rest)
    ensures Flat(SextetsOf(rest), 6) == Flat(b[3..], 8) + zeros ==>
            Flat(SextetsOf(g + rest), 6) == Flat(b, 8) + zeros
  {
    hide Flat, EncodedGroup, AllSymbols, SextetsOf;
    GroupBits(b[0], b[1], b[2], urlSafe);
    SymbolsSplit(g, rest);
    BytesSplit(b);
    JoinAgain(Flat([b[0], b[1], b[2]], 8), Flat(b[3..], 8), zeros);
  }

  lemma SymbolsSplit(g: seq<Byte>, rest: seq<Byte>)
    requires AllSymbols(g) && AllSymbols(rest)
    ensures AllSymbols(g + rest)
    ensures Flat(SextetsOf(g + rest), 6) == Flat(SextetsOf(g), 6) + Flat(SextetsOf(rest), 6)
  {
    hide Flat, AllSymbols, SextetsOf;
    SextetsOfAppend(g, rest);
    FlatAppend(SextetsOf(g), SextetsOf(rest), 6);
  }

  lemma BytesSplit(b: seq<Byte>)
    requires |b| >= 3
    ensures Flat(b, 8) == Flat([b[0], b[1], b[2]], 8) + Flat(b[3..], 8)
  {
    hide Flat;
    var first: seq<nat>, rest: seq<nat> := [b[0], b[1], b[2]], b[3..];
    assert b == first + rest;
    FlatAppend(first, rest, 8);
  }

  lemma JoinAgain(a: seq<bool>, b: seq<bool>, c: seq<bool>)
    ensures a + (b + c) == a + b + c
  {
  }

  lemma NothingEncoded()
    ensures AllSymbols([]) && SextetsOf([]) == [] && Flat([], 6) == Flat([], 8) == [] && Zeros(0) == []
  {
  }

  // The routines

  /** A `std::string` that can be resized and written in place.  `writes` lists the indices
      written by `Set`, in order. */
  class Text {
    var chars: seq<Byte>
    ghost var writes: seq<nat>

    constructor ()
      ensures chars == [] && writes == []
    {
      chars, writes := [], [];
    }

    method Resize(n: nat)
      modifies this`chars
      ensures chars == Resized(old(chars), n)
    {
      chars := if n <= |chars| then chars[..n] else chars + seq(n - |chars|, i => 0);
    }

    method Set(i: nat, c: Byte)
      requires i < |chars|
      modifies this
      ensures chars == old(chars)[i := c] && writes == old(writes) + [i]
    {
      chars, writes := chars[i := c], writes + [i];
    }

    /** Assignment of a whole string. */
    method Assign(s: seq<Byte>)
      modifies this`chars
      ensures chars == s
    {
      chars := s;
    }
  }

  /** What `resize` leaves: the old characters as far as they reach, then zeros. */
  ghost function Resized(s: seq<Byte>, n: nat): (r: seq<Byte>)
    ensures |r| == n && forall i | 0 <= i < n :: r[i] == if i < |s| then s[i] else 0
  {
    seq(n, i requires 0 <= i < n => if i < |s| then s[i] else 0)
  }

  function EncodedSize(n: nat): nat { ((n + 2) / 3) * 4 }

  lemma {:induction false} PaddedLength(b: seq<Byte>, urlSafe: bool)
    ensures |Encoded(b, urlSafe, true)| == EncodedSize(|b|)
  {
    hide Symbol, Sextets, EncodedGroup;
    if |b| >= 3 {
      PaddedLength(b[3..], urlSafe);
    }
  }

  function Min(a: nat, b: nat): nat { if a < b then a else b }

  /** The padded encoding starts with its first group of up to three bytes. */
  lemma FirstGroup(b: seq<Byte>, urlSafe: bool)
    requires b != []
    ensures var n := Min(3, |b|);
            var v := Sextets(b[0], if |b| > 1 then b[1] else 0, if |b| > 2 then b[2] else 0);
            Encoded(b, urlSafe, true) ==
              [Symbol(v.0, urlSafe), Symbol(v.1, urlSafe),
               if |b| > 1 then Symbol(v.2, urlSafe) else NULL_ENDING,
               if |b| > 2 then Symbol(v.3, urlSafe) else NULL_ENDING] + Encoded(b[n..], urlSafe, true)
  {
  }

  /** Padding is the unpadded encoding followed by zero, one or two '='. */
  lemma {:induction false} PaddingIsSuffix(b: seq<Byte>, urlSafe: bool)
    ensures var bare := Encoded(b, urlSafe, false);
            && Encoded(b, urlSafe, true) == bare + (if |b| % 3 == 1 then [NULL_ENDING, NULL_ENDING]
                                                    else if |b| % 3 == 2 then [NULL_ENDING] else [])
            && (b != [] ==> |bare| > 1 && bare[|bare| - 1] != NULL_ENDING)
            && (b == [] ==> bare == [])
  {
    hide Symbol, Sextets;
    if 0 < |b| {
      var v := Sextets(b[0], if |b| > 1 then b[1] else 0, if |b| > 2 then b[2] else 0);
      SymbolAndBack(v.1, urlSafe);
      SymbolAndBack(v.2, urlSafe);
      SymbolAndBack(v.3, urlSafe);
    }
    if |b| >= 3 {
      PaddingIsSuffix(b[3..], urlSafe);
    }
  }

  /** The sextets of one group as the loop computes them. */
  method EncodeStream(b0: Byte, b1: Byte, b2: Byte) returns (v: (Sextet, Sextet, Sextet, Sextet))
    ensures v == Sextets(b0, b1, b2)
  {
    var stream := Or(Or(And(b2, 0xFF), Shl(And(b1, 0xFF), 8)), Shl(And(b0, 0xFF), 16));
    ghost var w := Sextets(b0, b1, b2);
    JoinBytes(b0, b1, b2);
    SextetSum(b0, b1, b2, w.0, w.1, w.2, w.3);
    SplitSextets(w.0, w.1, w.2, w.3, stream);
    hide Or, And, Shl, Shr, Sextets;
    v := (And(Shr(stream, 18), 0x3F), And(Shr(stream, 12), 0x3F), And(Shr(stream, 6), 0x3F), And(Shr(stream, 0), 0x3F));
  }

  /** One turn of the encoder's loop: four characters at `o`. */
  method EncodeGroup(input: Text, target: Text, i: nat, o: nat, urlSafe: bool)
    requires input != target && i < |input.chars| && o + 4 <= |target.chars|
    modifies target
    ensures |target.chars| == |old(target.chars)| && target.chars[..o] == old(target.chars)[..o]
    ensures Encoded(input.chars[i..], urlSafe, true) ==
            target.chars[o..o + 4] + Encoded(input.chars[Min(i + 3, |input.chars|)..], urlSafe, true)
    ensures target.writes == old(target.writes) + From(o, 4)
  {
    hide Symbol, Sextets, Encoded;
    ghost var b := input.chars;
    FirstGroup(b[i..], urlSafe);
    assert b[i..][Min(3, |b[i..]|)..] == b[Min(i + 3, |b|)..];
    var b1 := if i + 1 < |input.chars| then input.chars[i + 1] else 0;
    var b2 := if i + 2 < |input.chars| then input.chars[i + 2] else 0;
    var v := EncodeStream(input.chars[i], b1, b2);
    target.Set(o, Symbol(v.0, urlSafe));
    target.Set(o + 1, Symbol(v.1, urlSafe));
    target.Set(o + 2, if i + 1 < |input.chars| then Symbol(v.2, urlSafe) else NULL_ENDING);
    target.Set(o + 3, if i + 2 < |input.chars| then Symbol(v.3, urlSafe) else NULL_ENDING);
    FromIs(o);
    assert target.writes == old(target.writes) + [o, o + 1, o + 2, o + 3];
  }

  /** The `n` indices from `o`, each once and in order. */
  ghost function From(o: nat, n: nat): seq<nat> { seq(n, j => o + j) }

  lemma FromIs(o: nat)
    ensures From(o, 0) == [] && From(o, 1) == [o] && From(o, 2) == [o, o + 1]
    ensures From(o, 3) == [o, o + 1, o + 2] && From(o, 4) == [o, o + 1, o + 2, o + 3]
  {
  }

  lemma FromMore(log: seq<nat>, o: nat, n: nat)
    ensures log + From(0, o) + From(o, n) == log + From(0, o + n)
  {
    assert From(0, o) + From(o, n) == From(0, o + n);
  }

  /** The first `o` characters of `t` and the encoding of what is left make up the whole. */
  ghost predicate Encoding(t: seq<Byte>, o: nat, b: seq<Byte>, i: nat, urlSafe: bool) {
    && o <= |t| == |Encoded(b, urlSafe, true)|
    && t[..o] + Encoded(b[Min(i, |b|)..], urlSafe, true) == Encoded(b, urlSafe, true)
  }

  lemma EncodingAdvances(t: seq<Byte>, r: seq<Byte>, o: nat, b: seq<Byte>, i: nat, urlSafe: bool)
    requires i < |b| && Encoding(t, o, b, i, urlSafe) && o + 4 <= |t| == |r| && r[..o] == t[..o]
    requires Encoded(b[i..], urlSafe, true) == r[o..o + 4] + Encoded(b[Min(i + 3, |b|)..], urlSafe, true)
    ensures Encoding(r, o + 4, b, i + 3, urlSafe)
  {
    hide Encoded;
    var rest := Encoded(b[Min(i + 3, |b|)..], urlSafe, true);
    assert r[..o + 4] == t[..o] + r[o..o + 4];
    assert t[..o] + (r[o..o + 4] + rest) == r[..o + 4] + rest;
  }

  /** The loop of the encoder: every index of the presized buffer is written once, in order. */
  method EncodeInto(input: Text, target: Text, urlSafe: bool)
    requires input != target && |target.chars| == EncodedSize(|input.chars|)
    modifies target
    ensures target.chars == Encoded(input.chars, urlSafe, true)
    ensures target.writes == old(target.writes) + From(0, |target.chars|)
  {
    hide Encoded, EncodedSize, From;
    ghost var b, log := input.chars, target.writes;
    PaddedLength(b, urlSafe);
    EmptyEncoding([], urlSafe);
    FromIs(0);
    var i, o := 0, 0;
    assert b[0..] == b;
    assert target.chars[..0] + Encoded(b, urlSafe, true) == Encoded(b, urlSafe, true);
    while i < |input.chars|
      invariant input.chars == b && Encoding(target.chars, o, b, i, urlSafe)
      invariant target.writes == log + From(0, o)
      decreases |b| - i
    {
      GroupFits(b[i..], urlSafe);
      ghost var before := target.chars;
      EncodeGroup(input, target, i, o, urlSafe);
      EncodingAdvances(before, target.chars, o, b, i, urlSafe);
      FromMore(log, o, 4);
      i, o := i + 3, o + 4;
    }
    assert b[|b|..] == [];
  }

  lemma GroupFits(b: seq<Byte>, urlSafe: bool)
    requires b != []
    ensures |Encoded(b, urlSafe, true)| >= 4
  {
    PaddedLength(b, urlSafe);
  }

  lemma EmptyEncoding(b: seq<Byte>, urlSafe: bool)
    requires b == []
    ensures Encoded(b, urlSafe, true) == []
  {
  }

  /** Drops the one or two '=' at the end, as the code does. */
  method Trim(t: Text)
    modifies t`chars
    ensures t.chars == Trimmed(old(t.chars))
  {
    if t.chars != [] && t.chars[|t.chars| - 1] == NULL_ENDING {
      if |t.chars| > 1 && t.chars[|t.chars| - 2] == NULL_ENDING {
        t.Resize(|t.chars| - 2);
      } else {
        t.Resize(|t.chars| - 1);
      }
    }
  }

  ghost function Trimmed(s: seq<Byte>): seq<Byte> {
    if s == [] || s[|s| - 1] != NULL_ENDING then s
    else if |s| > 1 && s[|s| - 2] == NULL_ENDING then s[..|s| - 2]
    else s[..|s| - 1]
  }

  lemma TrimGivesBare(b: seq<Byte>, urlSafe: bool)
    ensures Trimmed(Encoded(b, urlSafe, true)) == Encoded(b, urlSafe, false)
  {
    PaddingIsSuffix(b, urlSafe);
    hide Encoded;
    var bare, padded := Encoded(b, urlSafe, false), Encoded(b, urlSafe, true);
    assert padded[..|bare|] == bare;
  }

  /** The four encoders.  `input` and `output` may be the same string; `buffer` is the string
      that is written to, a fresh one in that case. */
  method Base64EncodeInternal(input: Text, output: Text?, urlSafe: bool, pad: bool)
    returns (ok: bool, ghost buffer: Text?)
    modifies if output == null then {} else {output}
    ensures ok <==> output != null
    ensures ok ==> output.chars == Encoded(old(input.chars), urlSafe, pad)
    ensures ok ==> Buffers(input, output, buffer) && (output == input ==> fresh(buffer))
    ensures ok ==> buffer.writes == (if output == input then [] else old(output.writes))
                                    + From(0, EncodedSize(|old(input.chars)|))
  {
    buffer := null;
    if output == null {
      return false, null;
    }
    var inplace := output == input;
    var target := output;
    if inplace {
      target := new Text();
    }
    target.Resize(EncodedSize(|input.chars|));
    PaddedLength(input.chars, urlSafe);
    TrimGivesBare(input.chars, urlSafe);
    hide Encoded, From, EncodedSize;
    EncodeInto(input, target, urlSafe);
    if !pad {
      Trim(target);
    }
    if inplace {
      output.Assign(target.chars);
    }
    ok, buffer := true, target;
  }

  /** The string written to is the output, unless that is also the input. */
  ghost predicate Buffers(input: Text, output: Text?, buffer: Text?) {
    output != null && buffer != null && (output == input <==> buffer != output)
  }

  /** How many bytes the decoder makes room for. */
  function DecodedSize(s: seq<Byte>): nat {
    var mod := |s| % 4;
    if s == [] || mod == 1 then 0
    else
      var padded := ((|s| + 3) / 4) * 3;
      if mod >= 2 || (mod == 0 && s[|s| - 1] == NULL_ENDING) then
        if mod == 2 || (mod == 0 && s[|s| - 2] == NULL_ENDING) then padded - 2 else padded - 1
      else padded
  }

  /** The room for the last group, the implied '=' counted. */
  ghost function LastRoom(g: seq<Byte>): nat
    requires 2 <= |g| <= 4
  {
    if |g| == 2 then 1 else if |g| == 3 then 2
    else if g[3] != NULL_ENDING then 3 else if g[2] != NULL_ENDING then 2 else 1
  }

  /** Room at group `k`, which starts at character `4 * k` and byte `3 * k`. */
  lemma RoomAt(s: seq<Byte>, k: nat)
    requires 4 * k < |s| && |s| % 4 != 1
    ensures 4 * k + 4 < |s| ==> 3 * k + 3 <= DecodedSize(s)
    ensures 4 * k + 4 >= |s| ==> |s| - 4 * k >= 2 && DecodedSize(s) == 3 * k + LastRoom(s[4 * k..])
  {
    var left := |s| - 4 * k;
    assert |s| % 4 == left % 4;
    if left <= 4 {
      assert (|s| + 3) / 4 == k + 1;
    } else {
      assert (|s| + 3) / 4 >= k + 2;
    }
  }

  /** Room in the last group is exact for what is accepted, but one too many if half-padded. */
  lemma LastRoomExact(g: seq<Byte>)
    requires 2 <= |g| <= 4 && DecodedLast(g).Some?
    ensures LastRoom(g) == |DecodedLast(g).value| + (if |g| == 3 && g[2] == NULL_ENDING then 1 else 0)
  {
  }

  /** The stream of four sextets and its three bytes, as the decoder's loop computes them. */
  method DecodeStream(v0: Sextet, v1: Sextet, v2: Sextet, v3: Sextet) returns (b: (Byte, Byte, Byte))
    ensures b == Bytes(v0, v1, v2, v3)
  {
    var stream := Or(Or(Or(Shl(And(v0, 0x3F), 18), Shl(And(v1, 0x3F), 12)), Shl(And(v2, 0x3F), 6)), And(v3, 0x3F));
    ghost var w := Bytes(v0, v1, v2, v3);
    JoinSextets(v0, v1, v2, v3);
    ByteSum(v0, v1, v2, v3, w.0, w.1, w.2);
    SplitBytes(w.0, w.1, w.2, stream);
    hide Or, And, Shl, Shr, Bytes;
    b := (And(Shr(stream, 16), 0xFF), And(Shr(stream, 8), 0xFF), And(Shr(stream, 0), 0xFF));
  }

  /** The characters of a group, missing ones read as '='. */
  function CharAt(s: seq<Byte>, i: nat): Byte {
    if i < |s| then s[i] else NULL_ENDING
  }

  /** The tests of the decoder's loop on one group. */
  predicate Malformed(c0: Byte, c1: Byte, c2: Byte, c3: Byte, atEnd: bool) {
    || Reverse(c0) < 0 || Reverse(c1) < 0 || Reverse(c2) < 0 || Reverse(c3) < 0
    || c0 == NULL_ENDING || c1 == NULL_ENDING
    || (c2 == NULL_ENDING && !atEnd)
    || (c2 == NULL_ENDING && c3 != NULL_ENDING)
    || (c3 == NULL_ENDING && !atEnd)
  }

  /** What one group decodes to: three bytes in the middle, one to three at the end. */
  ghost function DecodedGroup(g: seq<Byte>, atEnd: bool): Option<seq<Byte>>
    requires if atEnd then 2 <= |g| <= 4 else |g| > 4
  {
    if atEnd then DecodedLast(g) else if FullGroup(g) then Some(GroupBytes(g)) else None
  }

  ghost function Length(g: seq<Byte>): nat {
    if CharAt(g, 2) == NULL_ENDING then 1 else if CharAt(g, 3) == NULL_ENDING then 2 else 3
  }

  ghost predicate Stale(g: seq<Byte>, b: (Byte, Byte, Byte)) {
    (CharAt(g, 2) == NULL_ENDING && b.1 != 0) || (CharAt(g, 3) == NULL_ENDING && b.2 != 0)
  }

  /** What the loop writes for a group: nothing if it is malformed, else as many bytes as its
      characters stand for, even if stale bits then reject it. */
  ghost function GroupWritten(g: seq<Byte>, atEnd: bool): seq<Byte>
    requires |g| >= 2
  {
    if Malformed(g[0], g[1], CharAt(g, 2), CharAt(g, 3), atEnd) then []
    else
      var b := Bytes(Reverse(g[0]), Reverse(g[1]), Reverse(CharAt(g, 2)), Reverse(CharAt(g, 3)));
      [b.0, b.1, b.2][..Length(g)]
  }

  /** All that is written before the loop ends or gives up. */
  ghost function Written(s: seq<Byte>): seq<Byte> {
    if |s| < 2 then []
    else if |s| <= 4 then GroupWritten(s, true)
    else GroupWritten(s, false) + (if DecodedGroup(s, false) == None then [] else Written(s[4..]))
  }

  /** The tests and the shifts decide a group as its specification does. */
  lemma GroupDecides(g: seq<Byte>, atEnd: bool, v0: int, v1: int, v2: int, v3: int)
    requires if atEnd then 2 <= |g| <= 4 else |g| > 4
    requires v0 == Reverse(g[0]) && v1 == Reverse(g[1]) && v2 == Reverse(CharAt(g, 2)) && v3 == Reverse(CharAt(g, 3))
    ensures Malformed(g[0], g[1], CharAt(g, 2), CharAt(g, 3), atEnd) ==> DecodedGroup(g, atEnd) == None
    ensures !Malformed(g[0], g[1], CharAt(g, 2), CharAt(g, 3), atEnd) ==>
              && 0 <= v0 < 64 && 0 <= v1 < 64 && 0 <= v2 < 64 && 0 <= v3 < 64
              && (CharAt(g, 2) == NULL_ENDING ==> CharAt(g, 3) == NULL_ENDING)
              && (CharAt(g, 3) == NULL_ENDING ==> atEnd)
    ensures !Malformed(g[0], g[1], CharAt(g, 2), CharAt(g, 3), atEnd) ==>
              var b := Bytes(v0, v1, v2, v3);
              && GroupWritten(g, atEnd) == [b.0, b.1, b.2][..Length(g)]
              && DecodedGroup(g, atEnd) == if Stale(g, b) then None else Some([b.0, b.1, b.2][..Length(g)])
    ensures Malformed(g[0], g[1], CharAt(g, 2), CharAt(g, 3), atEnd) ==> GroupWritten(g, atEnd) == []
  {
    assert SextetOf(NULL_ENDING) == -1;
    hide Bytes, SextetOf;
    if !Malformed(g[0], g[1], CharAt(g, 2), CharAt(g, 3), atEnd) {
      PaddedBytes(v0, v1, v2, v3);
      var b := Bytes(v0, v1, v2, v3);
      assert [b.0, b.1, b.2][..1] == [b.0];
      assert [b.0, b.1, b.2][..2] == [b.0, b.1];
      assert [b.0, b.1, b.2][..3] == [b.0, b.1, b.2];
    }
  }

  /** The writes of one group and the tests for stale bits between them. */
  method WriteGroup(target: Text, o: nat, c2: Byte, c3: Byte, b: (Byte, Byte, Byte)) returns (ok: bool, ghost n: nat)
    requires c2 == NULL_ENDING ==> c3 == NULL_ENDING
    requires o + (if c2 == NULL_ENDING then 1 else if c3 == NULL_ENDING then 2 else 3) <= |target.chars|
    modifies target
    ensures |target.chars| == |old(target.chars)| && target.chars[..o] == old(target.chars)[..o]
    ensures ok <==> !(c2 == NULL_ENDING && b.1 != 0) && !(c3 == NULL_ENDING && b.2 != 0)
    ensures n == (if c2 == NULL_ENDING then 1 else if c3 == NULL_ENDING then 2 else 3)
    ensures target.chars[o..o + n] == [b.0, b.1, b.2][..n]
    ensures target.chars[o + n..] == old(target.chars)[o + n..]
    ensures target.writes == old(target.writes) + From(o, n)
  {
    FromIs(o);
    target.Set(o, b.0);
    n := 1;
    if c2 != NULL_ENDING {
      target.Set(o + 1, b.1);
      n := 2;
    } else if b.1 != 0 {
      return false, 1;
    }
    if c3 != NULL_ENDING {
      target.Set(o + 2, b.2);
      n := 3;
    } else if b.2 != 0 {
      return false, n;
    }
    return true, n;
  }

  /** One turn of the decoder's loop.  `n` is the number of bytes written, in order from `o`. */
  method DecodeGroup(s: seq<Byte>, ghost k: nat, i: nat, target: Text, o: nat) returns (ok: bool, ghost n: nat)
    requires i == 4 * k < |s| && o == 3 * k && |s| % 4 != 1
    requires |target.chars| == DecodedSize(s)
    modifies target
    ensures |s| - i >= 2 && |target.chars| == |old(target.chars)|
    ensures ok <==> DecodedGroup(s[i..], i + 4 >= |s|).Some?
    ensures o + n <= |target.chars| && target.chars[o..o + n] == GroupWritten(s[i..], i + 4 >= |s|)
    ensures target.chars[..o] == old(target.chars)[..o] && target.chars[o + n..] == old(target.chars)[o + n..]
    ensures target.writes == old(target.writes) + From(o, n)
    ensures ok ==> DecodedGroup(s[i..], i + 4 >= |s|) == Some(target.chars[o..o + n])
  {
    hide DecodedSize, SextetOf, Bytes, DecodedGroup, GroupWritten, Malformed, Reverse, From;
    FromIs(o);
    RoomAt(s, k);
    n := 0;
    var c0, c1, c2, c3 := s[i], s[i + 1], CharAt(s, i + 2), CharAt(s, i + 3);
    var atEnd := i + 4 >= |s|;
    ghost var g := s[i..];
    assert g[0] == c0 && g[1] == c1 && CharAt(g, 2) == c2 && CharAt(g, 3) == c3;
    GroupDecides(g, atEnd, Reverse(c0), Reverse(c1), Reverse(c2), Reverse(c3));
    if Malformed(c0, c1, c2, c3, atEnd) {
      return false, 0;
    }
    var b := DecodeStream(Reverse(c0), Reverse(c1), Reverse(c2), Reverse(c3));
    ok, n := WriteGroup(target, o, c2, c3, b);
  }

  /** The stale bits of a short group: none exactly if the bytes it does not have are zero. */
  lemma PaddedBytes(v0: Sextet, v1: Sextet, v2: Sextet, v3: Sextet)
    ensures v2 == 0 ==> (Bytes(v0, v1, v2, v3).1 == 0 <==> v1 % 16 == 0)
    ensures v3 == 0 ==> (Bytes(v0, v1, v2, v3).2 == 0 <==> v2 % 4 == 0)
    ensures v2 == 0 && v3 == 0 ==> Bytes(v0, v1, v2, v3).2 == 0
    ensures Bytes(v0, v1, v2, v3).0 == Bytes(v0, v1, 0, 0).0 == Bytes(v0, v1, v2, 0).0
    ensures Bytes(v0, v1, v2, v3).1 == Bytes(v0, v1, v2, 0).1
  {
  }

  /** `done` has been decoded from the first `4 * k` characters of `s`, so what decoding `s`
      gives is `done` followed by what the rest gives. */
  ghost predicate Decoding(s: seq<Byte>, i: nat, done: seq<Byte>) {
    && i <= |s|
    && Decoded(s) == match Decoded(s[i..]) case None => None case Some(rest) => Some(done + rest)
  }

  lemma DecodingAdvances(s: seq<Byte>, i: nat, done: seq<Byte>)
    requires Decoding(s, i, done) && |s| - i >= 2
    ensures var atEnd := i + 4 >= |s|;
            match DecodedGroup(s[i..], atEnd)
            case None => Decoded(s) == None
            case Some(bytes) => Decoding(s, if atEnd then |s| else i + 4, done + bytes)
  {
    hide Decoded, DecodedLast, FullGroup, GroupBytes;
    var g := s[i..];
    DecodedStep(g);
    assert s[|s|..] == [] && Decoded([]) == Some([]) by {
      DecodedStep([]);
    }
    if i + 4 < |s| {
      assert g[4..] == s[i + 4..];
    }
    if DecodedGroup(g, i + 4 >= |s|).Some? {
      var bytes := DecodedGroup(g, i + 4 >= |s|).value;
      assert done + bytes + [] == done + bytes;
      if i + 4 < |s| && Decoded(g[4..]).Some? {
        assert done + bytes + Decoded(g[4..]).value == done + (bytes + Decoded(g[4..]).value);
      }
    }
  }

  lemma DecodedStep(g: seq<Byte>)
    ensures g == [] ==> Decoded(g) == Some([])
    ensures 2 <= |g| <= 4 ==> Decoded(g) == DecodedGroup(g, true)
    ensures |g| > 4 ==>
              (Decoded(g) ==
               match DecodedGroup(g, false)
               case None => None
               case Some(bytes) => match Decoded(g[4..]) case None => None case Some(rest) => Some(bytes + rest))
  {
    hide DecodedLast, FullGroup, GroupBytes;
  }

  /** The buffer after a turn: more of it is decoded, the rest is as it was. */
  ghost predicate Filled(t: seq<Byte>, room: seq<Byte>, done: seq<Byte>) {
    |t| == |room| && |done| <= |t| && t[..|done|] == done && t[|done|..] == room[|done|..]
  }

  lemma FilledAdvances(t: seq<Byte>, r: seq<Byte>, room: seq<Byte>, done: seq<Byte>, n: nat)
    requires Filled(t, room, done) && |r| == |t| && |done| + n <= |r|
    requires r[..|done|] == t[..|done|] && r[|done| + n..] == t[|done| + n..]
    ensures Filled(r, room, done + r[|done|..|done| + n])
  {
    var o := |done|;
    assert r[..o + n] == r[..o] + r[o..o + n];
    assert t[o + n..] == t[o..][n..] == room[o..][n..] == room[o + n..];
  }

  lemma FilledIs(t: seq<Byte>, room: seq<Byte>, done: seq<Byte>)
    requires Filled(t, room, done)
    ensures |done| <= |room| == |t| && t == done + room[|done|..]
  {
    assert t == t[..|done|] + t[|done|..];
  }

  lemma DecodedWhole(s: seq<Byte>, done: seq<Byte>)
    requires Decoding(s, |s|, done) && Writing(s, |s|, done)
    ensures Decoded(s) == Some(done) && Written(s) == done
  {
    assert s[|s|..] == [] && done + [] == done;
  }

  /** `done` has been written for the first `i` characters of `s`. */
  ghost predicate Writing(s: seq<Byte>, i: nat, done: seq<Byte>) {
    i <= |s| && Written(s) == done + Written(s[i..])
  }

  lemma WrittenLast(s: seq<Byte>, i: nat, done: seq<Byte>)
    requires Writing(s, i, done) && 2 <= |s| - i <= 4
    ensures Written(s) == done + GroupWritten(s[i..], true)
    ensures Writing(s, |s|, done + GroupWritten(s[i..], true))
  {
    hide GroupWritten, DecodedGroup;
    assert s[|s|..] == [];
  }

  lemma WrittenMiddle(s: seq<Byte>, i: nat, done: seq<Byte>, bytes: seq<Byte>)
    requires Writing(s, i, done) && |s| - i > 4 && bytes == GroupWritten(s[i..], false)
    ensures DecodedGroup(s[i..], false) == None ==> Written(s) == done + bytes
    ensures DecodedGroup(s[i..], false).Some? ==> Writing(s, i + 4, done + bytes)
  {
    hide GroupWritten, DecodedGroup, Written;
    WrittenStep(s[i..], s[i + 4..]);
    AppendAgain(done, bytes, Written(s[i + 4..]));
  }

  lemma WrittenStep(g: seq<Byte>, rest: seq<Byte>)
    requires |g| > 4 && rest == g[4..]
    ensures DecodedGroup(g, false) == None ==> Written(g) == GroupWritten(g, false)
    ensures DecodedGroup(g, false).Some? ==> Written(g) == GroupWritten(g, false) + Written(rest)
  {
    hide GroupWritten, DecodedGroup;
  }

  lemma AppendAgain(a: seq<Byte>, b: seq<Byte>, c: seq<Byte>)
    ensures a + (b + c) == a + b + c
  {
  }

  lemma WritingAdvances(s: seq<Byte>, i: nat, done: seq<Byte>)
    requires Writing(s, i, done) && |s| - i >= 2
    ensures var atEnd := i + 4 >= |s|;
            var next := done + GroupWritten(s[i..], atEnd);
            && (DecodedGroup(s[i..], atEnd) == None ==> Written(s) == next)
            && (DecodedGroup(s[i..], atEnd).Some? ==> Writing(s, if atEnd then |s| else i + 4, next))
  {
    hide GroupWritten, DecodedGroup, Written, Writing;
    if i + 4 >= |s| {
      WrittenLast(s, i, done);
    } else {
      WrittenMiddle(s, i, done, GroupWritten(s[i..], false));
    }
  }

  /** Room left over when all groups are decoded: only a half-padded string leaves a byte. */
  ghost predicate RoomLeft(s: seq<Byte>, k: nat, i: nat, done: seq<Byte>) {
    if i < |s| then i == 4 * k && |done| == 3 * k
    else DecodedSize(s) == |done| + (if HalfPadded(s) then 1 else 0)
  }

  lemma RoomAdvances(s: seq<Byte>, k: nat, i: nat, done: seq<Byte>, bytes: seq<Byte>)
    requires i < |s| && |s| % 4 != 1 && RoomLeft(s, k, i, done) && |s| - i >= 2
    requires DecodedGroup(s[i..], i + 4 >= |s|) == Some(bytes)
    ensures RoomLeft(s, k + 1, i + 4, done + bytes)
  {
    hide DecodedSize, DecodedLast, FullGroup, GroupBytes, LastRoom;
    RoomAt(s, k);
    if i + 4 >= |s| {
      var g := s[i..];
      LastRoomExact(g);
      HalfPaddedLast(s, k);
      hide HalfPadded;
    }
  }

  lemma HalfPaddedLast(s: seq<Byte>, k: nat)
    requires 4 * k + 2 <= |s| <= 4 * k + 4
    ensures HalfPadded(s) <==> |s[4 * k..]| == 3 && s[4 * k..][2] == NULL_ENDING
  {
    var left := |s| - 4 * k;
    assert |s| % 4 == left % 4;
  }

  /** The loop of the decoder over `target`, presized to `DecodedSize(s)`.  It fills the buffer
      from the front, each index once, until it ends or gives up. */
  method DecodeInto(s: seq<Byte>, target: Text) returns (ok: bool)
    requires |s| % 4 != 1 && |target.chars| == DecodedSize(s)
    modifies target
    ensures ok <==> Decoded(s).Some?
    ensures |Written(s)| <= |old(target.chars)| && target.chars == Written(s) + old(target.chars)[|Written(s)|..]
    ensures target.writes == old(target.writes) + From(0, |Written(s)|)
    ensures ok ==> Decoded(s) == Some(Written(s))
                   && DecodedSize(s) == |Written(s)| + (if HalfPadded(s) then 1 else 0)
  {
    hide Decoded, Written, DecodedGroup, GroupWritten, DecodedSize, From, HalfPadded, Decoding, Writing, Filled;
    ghost var room, log, done, k := target.chars, target.writes, [], 0;
    DecodingStarts(s, room);
    FromIs(0);
    var i, o := 0, 0;
    while i < |s|
      invariant |target.chars| == DecodedSize(s)
      invariant Decoding(s, Min(i, |s|), done) && Writing(s, Min(i, |s|), done) && Filled(target.chars, room, done)
      invariant RoomLeft(s, k, i, done) && (i < |s| ==> o == 3 * k)
      invariant target.writes == log + From(0, |done|)
      decreases |s| - i
    {
      ghost var before := target.chars;
      ghost var n;
      ok, n := DecodeGroup(s, k, i, target, o);
      DecodingAdvances(s, i, done);
      WritingAdvances(s, i, done);
      FilledAdvances(before, target.chars, room, done, n);
      FromMore(log, |done|, n);
      ghost var bytes := target.chars[o..o + n];
      if !ok {
        FilledIs(target.chars, room, done + bytes);
        return false;
      }
      RoomAdvances(s, k, i, done, bytes);
      done, k := done + bytes, k + 1;
      i, o := i + 4, o + 3;
    }
    FilledIs(target.chars, room, done);
    DecodedWhole(s, done);
    ok := true;
  }

  lemma DecodingStarts(s: seq<Byte>, room: seq<Byte>)
    requires |room| == DecodedSize(s)
    ensures Decoding(s, 0, []) && Writing(s, 0, []) && Filled(room, room, []) && RoomLeft(s, 0, 0, [])
  {
    hide Decoded, Written;
    assert s[0..] == s && [] + Written(s) == Written(s);
    if Decoded(s).Some? {
      assert [] + Decoded(s).value == Decoded(s).value;
    }
  }

  /** The decoder.  `input` and `output` may be the same string; `buffer` is the string that is
      written to, a fresh one in that case.  The output is told for rejected strings too.  A
      half-padded string leaves one byte after the decoded ones, whatever the resized output
      held there. */
  method Base64Decode(input: Text, output: Text?) returns (ok: bool, ghost buffer: Text?)
    modifies if output == null then {} else {output}
    ensures ok <==> output != null && Decoded(old(input.chars)).Some?
    ensures output != null && |old(input.chars)| % 4 == 1 ==>
              output.chars == old(output.chars) && output.writes == old(output.writes)
    ensures output != null && |old(input.chars)| % 4 != 1 ==>
              var s := old(input.chars);
              var room := if output == input then [] else old(output.chars);
              && Buffers(input, output, buffer) && (output == input ==> fresh(buffer))
              && |Written(s)| <= DecodedSize(s)
              && buffer.chars == Written(s) + Resized(room, DecodedSize(s))[|Written(s)|..]
              && buffer.writes == (if output == input then [] else old(output.writes)) + From(0, |Written(s)|)
              && output.chars == if output == input && !ok then s else buffer.chars
    ensures ok ==> var s := old(input.chars);
              var b := Decoded(s).value;
              var room := if output == input then [] else old(output.chars);
              && Written(s) == b
              && output.chars == b + (if HalfPadded(s) then [if |b| < |room| then room[|b|] else 0] else [])
  {
    hide Decoded, Written, DecodedSize, From, HalfPadded;
    buffer := null;
    if output == null {
      return false, null;
    }
    if |input.chars| % 4 == 1 {
      LengthOneMod4(input.chars);
      return false, null;
    }
    var inplace := output == input;
    var target := output;
    if inplace {
      target := new Text();
    }
    var s := input.chars;
    ghost var room := target.chars;
    target.Resize(DecodedSize(s));
    ok := DecodeInto(s, target);
    buffer := target;
    if ok {
      LastByte(room, DecodedSize(s), Written(s), HalfPadded(s));
      if inplace {
        output.Assign(target.chars);
      }
    }
  }

  /** What is left of a resized string behind its decoded bytes. */
  lemma LastByte(room: seq<Byte>, size: nat, b: seq<Byte>, over: bool)
    requires size == |b| + (if over then 1 else 0)
    ensures Resized(room, size)[|b|..] == if over then [if |b| < |room| then room[|b|] else 0] else []
  {
  }

  lemma {:induction false} LengthOneMod4(s: seq<Byte>)
    requires |s| % 4 == 1
    ensures Decoded(s) == None
    decreases |s|
  {
    if |s| > 4 {
      LengthOneMod4(s[4..]);
    }
  }
}
