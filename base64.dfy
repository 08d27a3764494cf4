/** The basic Base64 codec of section 4 of RFC 4648 as `java.util.Base64`
    implements it: the encoder pads with '=', the decoder accepts a final unit
    with or without its padding and rejects every other character.

    The codec works in two layers: bytes to six-bit symbols (with the padding
    symbol), and symbols to characters of the alphabet. */
module Base64 {
  import opened Strings

  type Byte = b: int | 0 <= b < 256

  /** A six-bit value: one character of the alphabet. */
  type Sextet = v: int | 0 <= v < 64

  /** A character of an encoding: an alphabet character or the pad '='. */
  datatype Symbol = Sx(v: Sextet) | Pad

  // ---------------------------------------------------------------- characters

  /** The value of an alphabet character, or None for any other character. */
  function DecodeChar(c: char): Option<Sextet> {
    if 'A' <= c <= 'Z' then Some(c as int - 'A' as int)
    else if 'a' <= c <= 'z' then Some(c as int - 'a' as int + 26)
    else if '0' <= c <= '9' then Some(c as int - '0' as int + 52)
    else if c == '+' then Some(62)
    else if c == '/' then Some(63)
    else None
  }

  /** The alphabet character for a six-bit value; decoding gives the value back. */
  function EncodeChar(v: Sextet): (c: char)
    ensures DecodeChar(c) == Some(v)
    ensures c != ':' && c != '='
  {
    if v < 26 then ('A' as int + v) as char
    else if v < 52 then ('a' as int + v - 26) as char
    else if v < 62 then ('0' as int + v - 52) as char
    else if v == 62 then '+'
    else '/'
  }

  function SymbolChar(x: Symbol): char {
    match x
    case Sx(v) => EncodeChar(v)
    case Pad => '='
  }

  /** The characters of a symbol string, one per symbol. */
  function Chars(xs: seq<Symbol>): (s: string)
    ensures |s| == |xs|
    ensures forall k :: 0 <= k < |xs| ==> s[k] == SymbolChar(xs[k])
    decreases |xs|
  {
    if xs == [] then [] else [SymbolChar(xs[0])] + Chars(xs[1..])
  }

  /** The symbols of a string, or None when a character is neither in the
      alphabet nor '='. */
  function Symbols(s: string): Option<seq<Symbol>>
    decreases |s|
  {
    if s == [] then Some([])
    else
      var x := if s[0] == '=' then Some(Pad) else if DecodeChar(s[0]).Some? then Some(Sx(DecodeChar(s[0]).value)) else None;
      match (x, Symbols(s[1..]))
      case (Some(first), Some(rest)) => Some([first] + rest)
      case _ => None
  }

  // ---------------------------------------------------------------- bytes

  /** The four symbols of a group of three bytes: the first six bits of `b0`,
      its last two bits with the first four of `b1`, the last four bits of `b1`
      with the first two of `b2`, and the last six of `b2`. A missing byte
      counts as 0. */
  function Hi(b0: Byte): Sextet {
    b0 / 4
  }

  function Mid0(b0: Byte, b1: Byte): Sextet {
    b0 % 4 * 16 + b1 / 16
  }

  function Mid1(b1: Byte, b2: Byte): Sextet {
    b1 % 16 * 4 + b2 / 64
  }

  function Lo(b2: Byte): Sextet {
    b2 % 64
  }

  /** The symbols the encoder emits: full groups, then a last group padded
      with one or two '='. */
  function EncodeSymbols(b: seq<Byte>): (xs: seq<Symbol>)
    decreases |b|
  {
    if |b| == 0 then []
    else if |b| == 1 then [Sx(Hi(b[0])), Sx(Mid0(b[0], 0)), Pad, Pad]
    else if |b| == 2 then [Sx(Hi(b[0])), Sx(Mid0(b[0], b[1])), Sx(Mid1(b[1], 0)), Pad]
    else [Sx(Hi(b[0])), Sx(Mid0(b[0], b[1])), Sx(Mid1(b[1], b[2])), Sx(Lo(b[2]))] + EncodeSymbols(b[3..])
  }

  /** The first byte carried by two sextets. */
  function Byte0(v0: Sextet, v1: Sextet): Byte {
    v0 * 4 + v1 / 16
  }

  /** The second byte carried by the second and third sextets. */
  function Byte1(v1: Sextet, v2: Sextet): Byte {
    v1 % 16 * 16 + v2 / 4
  }

  /** The third byte carried by the third and fourth sextets. */
  function Byte2(v2: Sextet, v3: Sextet): Byte {
    v2 % 4 * 64 + v3
  }

  /** The decoder on symbols: full units of four sextets, then a last unit of
      two or three sextets, optionally padded to four. A lone sextet, a
      misplaced pad or anything after the padding is an error. The unused low
      bits of the last sextet are not checked. */
  function DecodeSymbols(xs: seq<Symbol>): Option<seq<Byte>>
    decreases |xs|
  {
    if |xs| >= 4 && xs[0].Sx? && xs[1].Sx? && xs[2].Sx? && xs[3].Sx? then
      match DecodeSymbols(xs[4..])
      case None => None
      case Some(rest) => Some([Byte0(xs[0].v, xs[1].v), Byte1(xs[1].v, xs[2].v), Byte2(xs[2].v, xs[3].v)] + rest)
    else if xs == [] then Some([])
    else if |xs| == 1 || !xs[0].Sx? || !xs[1].Sx? then None
    else if |xs| == 2 || xs[2..] == [Pad, Pad] then Some([Byte0(xs[0].v, xs[1].v)])
    else if xs[2].Sx? && (|xs| == 3 || xs[3..] == [Pad]) then
      Some([Byte0(xs[0].v, xs[1].v), Byte1(xs[1].v, xs[2].v)])
    else None
  }

  /** A character the decoder reads: an alphabet character or the pad. */
  predicate Base64Char(c: char) {
    c == '=' || DecodeChar(c).Some?
  }

  /** `Base64.getEncoder().encodeToString(b)`: four characters per started
      group of three bytes, all of them alphabet characters or padding. */
  function Encode(b: seq<Byte>): (s: string)
    ensures |s| == 4 * ((|b| + 2) / 3)
    ensures forall k :: 0 <= k < |s| ==> Base64Char(s[k])
  {
    EncodeSymbolsLength(b);
    Chars(EncodeSymbols(b))
  }

  /** The symbols of a string exist only when every character is readable. */
  lemma {:induction false} SymbolsReadable(s: string)
    requires Symbols(s).Some?
    ensures forall k :: 0 <= k < |s| ==> Base64Char(s[k])
    decreases |s|
  {
    if s != [] {
      SymbolsReadable(s[1..]);
      forall k | 1 <= k < |s| ensures Base64Char(s[k]) {
        assert s[k] == s[1..][k - 1];
      }
    }
  }

  /** `Base64.getDecoder().decode(s)`, None where Java throws
      `IllegalArgumentException`: in particular for any character outside the
      alphabet other than '='. */
  function Decode(s: string): (r: Option<seq<Byte>>)
    ensures r.Some? ==> forall k :: 0 <= k < |s| ==> Base64Char(s[k])
  {
    match Symbols(s)
    case None => None
    case Some(xs) =>
      SymbolsReadable(s);
      DecodeSymbols(xs)
  }

  // ---------------------------------------------------------------- round trip

  /** Reading the characters of symbols gives the symbols back. */
  lemma {:induction false} SymbolsChars(xs: seq<Symbol>)
    ensures Symbols(Chars(xs)) == Some(xs)
    decreases |xs|
  {
    if xs != [] {
      SymbolsChars(xs[1..]);
      var s := Chars(xs);
      assert s[0] == SymbolChar(xs[0]) && s[1..] == Chars(xs[1..]);
      assert [xs[0]] + xs[1..] == xs;
    }
  }

  /** Each byte comes back from the two sextets that carry it. */
  lemma RoundTrip0(b0: Byte, b1: Byte)
    ensures Byte0(Hi(b0), Mid0(b0, b1)) == b0
  {
    var v1 := b0 % 4 * 16 + b1 / 16;
    assert v1 / 16 == b0 % 4;
  }

  lemma RoundTrip1(b0: Byte, b1: Byte, b2: Byte)
    ensures Byte1(Mid0(b0, b1), Mid1(b1, b2)) == b1
  {
    var v1 := b0 % 4 * 16 + b1 / 16;
    var v2 := b1 % 16 * 4 + b2 / 64;
    assert v1 % 16 == b1 / 16;
    assert v2 / 4 == b1 % 16;
  }

  lemma RoundTrip2(b1: Byte, b2: Byte)
    ensures Byte2(Mid1(b1, b2), Lo(b2)) == b2
  {
    var v2 := b1 % 16 * 4 + b2 / 64;
    assert v2 % 4 == b2 / 64;
  }

  /** A unit of four sextets in front of symbols that decode. */
  lemma DecodeSymbolsUnit(v0: Sextet, v1: Sextet, v2: Sextet, v3: Sextet, rest: seq<Symbol>, bytes: seq<Byte>)
    requires DecodeSymbols(rest) == Some(bytes)
    ensures DecodeSymbols([Sx(v0), Sx(v1), Sx(v2), Sx(v3)] + rest) ==
            Some([Byte0(v0, v1), Byte1(v1, v2), Byte2(v2, v3)] + bytes)
  {
    var xs := [Sx(v0), Sx(v1), Sx(v2), Sx(v3)] + rest;
    assert xs[4..] == rest;
  }

  /** The symbols of a full group of three bytes. */
  lemma EncodeSymbolsGroup(b: seq<Byte>)
    requires |b| >= 3
    ensures EncodeSymbols(b) ==
            [Sx(Hi(b[0])), Sx(Mid0(b[0], b[1])), Sx(Mid1(b[1], b[2])), Sx(Lo(b[2]))] + EncodeSymbols(b[3..])
  {
  }

  /** The three bytes of a full group come back from its four sextets. */
  lemma GroupBytes(b: seq<Byte>)
    requires |b| >= 3
    ensures [Byte0(Hi(b[0]), Mid0(b[0], b[1])), Byte1(Mid0(b[0], b[1]), Mid1(b[1], b[2])),
             Byte2(Mid1(b[1], b[2]), Lo(b[2]))] + b[3..] == b
  {
    RoundTrip0(b[0], b[1]);
    RoundTrip1(b[0], b[1], b[2]);
    RoundTrip2(b[1], b[2]);
    assert b == [b[0], b[1], b[2]] + b[3..];
  }

  /** One full group in front of bytes that already round-trip. */
  lemma DecodeSymbolsGroup(b: seq<Byte>)
    requires |b| >= 3 && DecodeSymbols(EncodeSymbols(b[3..])) == Some(b[3..])
    ensures DecodeSymbols(EncodeSymbols(b)) == Some(b)
  {
    EncodeSymbolsGroup(b);
    DecodeSymbolsUnit(Hi(b[0]), Mid0(b[0], b[1]), Mid1(b[1], b[2]), Lo(b[2]), EncodeSymbols(b[3..]), b[3..]);
    GroupBytes(b);
  }

  /** Decoding the symbols of an encoding gives the bytes back. */
  lemma {:induction false} DecodeEncodeSymbols(b: seq<Byte>)
    ensures DecodeSymbols(EncodeSymbols(b)) == Some(b)
    decreases |b|
  {
    if |b| == 1 {
      RoundTrip0(b[0], 0);
      assert EncodeSymbols(b)[2..] == [Pad, Pad];
      assert b == [b[0]];
    } else if |b| == 2 {
      RoundTrip0(b[0], b[1]);
      RoundTrip1(b[0], b[1], 0);
      assert EncodeSymbols(b)[3..] == [Pad];
      assert b == [b[0], b[1]];
    } else if |b| >= 3 {
      DecodeEncodeSymbols(b[3..]);
      DecodeSymbolsGroup(b);
    }
  }

  /** Decoding an encoding gives the bytes back. */
  lemma DecodeEncode(b: seq<Byte>)
    ensures Decode(Encode(b)) == Some(b)
  {
    SymbolsChars(EncodeSymbols(b));
    DecodeEncodeSymbols(b);
  }

  /** Four symbols for every started group of three bytes. */
  lemma {:induction false} EncodeSymbolsLength(b: seq<Byte>)
    ensures |EncodeSymbols(b)| == 4 * ((|b| + 2) / 3)
    decreases |b|
  {
    if |b| >= 3 {
      EncodeSymbolsLength(b[3..]);
    }
  }

  /** No character of an encoding is ':'. */
  lemma {:induction false} NoColon(xs: seq<Symbol>)
    ensures ':' !in Chars(xs)
    decreases |xs|
  {
    if xs != [] {
      NoColon(xs[1..]);
      assert Chars(xs) == [SymbolChar(xs[0])] + Chars(xs[1..]);
    }
  }

  /** Four characters for every started group of three bytes, and never a ':'
      (so a stored hash splits cleanly). */
  lemma EncodeShape(b: seq<Byte>)
    ensures |Encode(b)| == 4 * ((|b| + 2) / 3)
    ensures ':' !in Encode(b)
  {
    EncodeSymbolsLength(b);
    NoColon(EncodeSymbols(b));
  }

  /** Encoding is injective: distinct byte strings have distinct encodings. */
  lemma EncodeInjective(a: seq<Byte>, b: seq<Byte>)
    requires Encode(a) == Encode(b)
    ensures a == b
  {
    DecodeEncode(a);
    DecodeEncode(b);
  }
}
