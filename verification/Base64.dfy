/** Base 64 without padding (sections 3.2 and 4 of RFC 4648), as Go's `base64.RawStdEncoding`. */
module Base64 {
  import opened Wrappers

  type Byte = x: int | 0 <= x < 256

  type Sextet = x: int | 0 <= x < 64

  function CharOf(v: Sextet): char {
    if v < 26 then 'A' + v as char
    else if v < 52 then 'a' + (v - 26) as char
    else if v < 62 then '0' + (v - 52) as char
    else if v == 62 then '+' else '/'
  }

  function ValueOf(c: char): Option<Sextet> {
    if 'A' <= c <= 'Z' then Some((c - 'A') as int)
    else if 'a' <= c <= 'z' then Some((c - 'a') as int + 26)
    else if '0' <= c <= '9' then Some((c - '0') as int + 52)
    else if c == '+' then Some(62)
    else if c == '/' then Some(63)
    else None
  }

  lemma CharValue(v: Sextet)
    ensures ValueOf(CharOf(v)) == Some(v)
    ensures CharOf(v) !in {'$', '\r', '\n'}
  {
  }

  /** The four sextets of three bytes; zero bytes stand for missing ones. */
  function Cut1(a: Byte): Sextet { a / 4 }

  function Cut2(a: Byte, b: Byte): Sextet { a % 4 * 16 + b / 16 }

  function Cut3(b: Byte, c: Byte): Sextet { b % 16 * 4 + c / 64 }

  function Cut4(c: Byte): Sextet { c % 64 }

  function Encode(b: seq<Byte>): string {
    if b == [] then ""
    else if |b| == 1 then [CharOf(Cut1(b[0])), CharOf(Cut2(b[0], 0))]
    else if |b| == 2 then [CharOf(Cut1(b[0])), CharOf(Cut2(b[0], b[1])), CharOf(Cut3(b[1], 0))]
    else
      [CharOf(Cut1(b[0])), CharOf(Cut2(b[0], b[1])), CharOf(Cut3(b[1], b[2])), CharOf(Cut4(b[2]))] + Encode(b[3..])
  }

  /** The decoder passes over line breaks. */
  function DropBreaks(s: string): string {
    if s == "" then ""
    else (if s[0] in {'\r', '\n'} then "" else [s[0]]) + DropBreaks(s[1..])
  }

  /** The values of the characters, if all of them are in the alphabet. */
  function Sextets(s: string): (r: Option<seq<Sextet>>)
    ensures r.Some? ==> |r.value| == |s|
  {
    if s == "" then Some([])
    else
      match (ValueOf(s[0]), Sextets(s[1..]))
      case (Some(v), Some(vs)) => Some([v] + vs)
      case _ => None
  }

  function FirstByte(v: int, w: int): Byte
    requires 0 <= v < 64 && 0 <= w < 64
  {
    v * 4 + w / 16
  }

  function SecondByte(v: int, w: int): Byte
    requires 0 <= v < 64 && 0 <= w < 64
  {
    v % 16 * 16 + w / 4
  }

  function ThirdByte(v: int, w: int): Byte
    requires 0 <= v < 64 && 0 <= w < 64
  {
    v % 4 * 64 + w
  }

  /** Whole groups of four, then a rest of two or three; bits left over at the end are ignored. */
  function Join64(v: seq<Sextet>): Option<seq<Byte>> {
    if v == [] then Some([])
    else if |v| == 1 then None
    else if |v| == 2 then Some([FirstByte(v[0], v[1])])
    else if |v| == 3 then Some([FirstByte(v[0], v[1]), SecondByte(v[1], v[2])])
    else
      match Join64(v[4..])
      case None => None
      case Some(rest) => Some([FirstByte(v[0], v[1]), SecondByte(v[1], v[2]), ThirdByte(v[2], v[3])] + rest)
  }

  function Decode(s: string): Option<seq<Byte>> {
    match Sextets(DropBreaks(s))
    case None => None
    case Some(v) => Join64(v)
  }

  /** The sextets that the encoder prints. */
  function Split64(b: seq<Byte>): seq<Sextet> {
    if b == [] then []
    else if |b| == 1 then [Cut1(b[0]), Cut2(b[0], 0)]
    else if |b| == 2 then [Cut1(b[0]), Cut2(b[0], b[1]), Cut3(b[1], 0)]
    else [Cut1(b[0]), Cut2(b[0], b[1]), Cut3(b[1], b[2]), Cut4(b[2])] + Split64(b[3..])
  }

  /** Bytes cut into sextets and put together again. */
  lemma FirstBack(a: Byte, b: Byte)
    ensures FirstByte(Cut1(a), Cut2(a, b)) == a
  {
  }

  lemma LowDigit(x: int, h: int)
    requires 0 <= h < 16
    ensures (x * 16 + h) % 16 == h
  {
  }

  lemma HighDigit(x: int, r: int)
    requires 0 <= r < 4
    ensures (x * 4 + r) / 4 == x
  {
  }

  lemma SecondBack(a: Byte, b: Byte, c: Byte)
    ensures SecondByte(Cut2(a, b), Cut3(b, c)) == b
  {
    LowDigit(a % 4, b / 16);
    HighDigit(b % 16, c / 64);
  }

  lemma LowPair(x: int, h: int)
    requires 0 <= h < 4
    ensures (x * 4 + h) % 4 == h
  {
  }

  lemma ThirdBack(b: Byte, c: Byte)
    ensures ThirdByte(Cut3(b, c), Cut4(c)) == c
  {
    LowPair(b % 16, c / 64);
  }

  lemma JoinOne(v: seq<Sextet>, a: Byte)
    requires |v| == 2 && FirstByte(v[0], v[1]) == a
    ensures Join64(v) == Some([a])
  {
  }

  lemma JoinTwo(v: seq<Sextet>, a: Byte, b: Byte)
    requires |v| == 3 && FirstByte(v[0], v[1]) == a && SecondByte(v[1], v[2]) == b
    ensures Join64(v) == Some([a, b])
  {
  }

  lemma JoinThree(v: seq<Sextet>, more: seq<Sextet>, a: Byte, b: Byte, c: Byte, rest: seq<Byte>)
    requires |v| == 4 && FirstByte(v[0], v[1]) == a && SecondByte(v[1], v[2]) == b && ThirdByte(v[2], v[3]) == c
    requires Join64(more) == Some(rest)
    ensures Join64(v + more) == Some([a, b, c] + rest)
  {
    assert (v + more)[4..] == more;
  }

  lemma OneByte(a: Byte)
    ensures Join64([Cut1(a), Cut2(a, 0)]) == Some([a])
  {
    FirstBack(a, 0);
    JoinOne([Cut1(a), Cut2(a, 0)], a);
  }

  lemma TwoBytes(a: Byte, b: Byte)
    ensures Join64([Cut1(a), Cut2(a, b), Cut3(b, 0)]) == Some([a, b])
  {
    FirstBack(a, b);
    SecondBack(a, b, 0);
    JoinTwo([Cut1(a), Cut2(a, b), Cut3(b, 0)], a, b);
  }

  lemma ThreeBytes(a: Byte, b: Byte, c: Byte, more: seq<Sextet>, rest: seq<Byte>)
    requires Join64(more) == Some(rest)
    ensures Join64([Cut1(a), Cut2(a, b), Cut3(b, c), Cut4(c)] + more) == Some([a, b, c] + rest)
  {
    FirstBack(a, b);
    SecondBack(a, b, c);
    ThirdBack(b, c);
    JoinThree([Cut1(a), Cut2(a, b), Cut3(b, c), Cut4(c)], more, a, b, c, rest);
  }

  lemma {:induction false} SplitJoin64(b: seq<Byte>)
    ensures Join64(Split64(b)) == Some(b)
  {
    if |b| == 1 {
      OneByte(b[0]);
      assert b == [b[0]];
    } else if |b| == 2 {
      TwoBytes(b[0], b[1]);
      assert b == [b[0], b[1]];
    } else if |b| >= 3 {
      SplitJoin64(b[3..]);
      ThreeBytes(b[0], b[1], b[2], Split64(b[3..]), b[3..]);
      assert b == [b[0], b[1], b[2]] + b[3..];
    }
  }

  function Chars(v: seq<Sextet>): (r: string)
    ensures |r| == |v|
  {
    if v == [] then "" else [CharOf(v[0])] + Chars(v[1..])
  }

  lemma CharsOne(a: Sextet)
    ensures Chars([a]) == [CharOf(a)]
  {
    assert [a][1..] == [];
  }

  lemma CharsTwo(a: Sextet, b: Sextet)
    ensures Chars([a, b]) == [CharOf(a), CharOf(b)]
  {
    CharsOne(a);
    CharsOne(b);
    CharsConcat([a], [b]);
    assert [a] + [b] == [a, b];
  }

  lemma CharsThree(a: Sextet, b: Sextet, c: Sextet)
    ensures Chars([a, b, c]) == [CharOf(a), CharOf(b), CharOf(c)]
  {
    CharsTwo(a, b);
    CharsOne(c);
    CharsConcat([a, b], [c]);
    assert [a, b] + [c] == [a, b, c];
  }

  lemma CharsFour(a: Sextet, b: Sextet, c: Sextet, d: Sextet)
    ensures Chars([a, b, c, d]) == [CharOf(a), CharOf(b), CharOf(c), CharOf(d)]
  {
    CharsTwo(a, b);
    CharsTwo(c, d);
    CharsConcat([a, b], [c, d]);
    assert [a, b] + [c, d] == [a, b, c, d];
  }

  lemma {:induction false} EncodeIsChars(b: seq<Byte>)
    ensures Encode(b) == Chars(Split64(b))
  {
    if |b| == 1 {
      CharsTwo(Cut1(b[0]), Cut2(b[0], 0));
    } else if |b| == 2 {
      CharsThree(Cut1(b[0]), Cut2(b[0], b[1]), Cut3(b[1], 0));
    } else if |b| >= 3 {
      EncodeIsChars(b[3..]);
      CharsFour(Cut1(b[0]), Cut2(b[0], b[1]), Cut3(b[1], b[2]), Cut4(b[2]));
      CharsConcat([Cut1(b[0]), Cut2(b[0], b[1]), Cut3(b[1], b[2]), Cut4(b[2])], Split64(b[3..]));
    }
  }

  lemma {:induction false} CharsConcat(v: seq<Sextet>, w: seq<Sextet>)
    ensures Chars(v + w) == Chars(v) + Chars(w)
  {
    if v == [] {
      assert v + w == w;
    } else {
      var first, more := [CharOf(v[0])], Chars(v[1..]);
      assert (v + w)[1..] == v[1..] + w;
      CharsConcat(v[1..], w);
      assert first + (more + Chars(w)) == (first + more) + Chars(w);
    }
  }

  lemma CharRead(v: Sextet, rest: string)
    ensures DropBreaks([CharOf(v)] + rest) == [CharOf(v)] + DropBreaks(rest)
    ensures Sextets([CharOf(v)] + rest) == match Sextets(rest)
                                           case None => None
                                           case Some(vs) => Some([v] + vs)
  {
    CharValue(v);
    assert ([CharOf(v)] + rest)[1..] == rest;
  }

  lemma {:induction false} CharsRead(v: seq<Sextet>)
    ensures DropBreaks(Chars(v)) == Chars(v) && Sextets(Chars(v)) == Some(v)
    ensures '$' !in Chars(v)
  {
    if v != [] {
      CharsRead(v[1..]);
      CharValue(v[0]);
      CharRead(v[0], Chars(v[1..]));
      assert v == [v[0]] + v[1..];
    }
  }

  /** Decoding undoes encoding, for every sequence of bytes; and no dollar sign is printed. */
  lemma DecodeEncode(b: seq<Byte>)
    ensures Decode(Encode(b)) == Some(b)
    ensures '$' !in Encode(b)
  {
    EncodeIsChars(b);
    CharsRead(Split64(b));
    SplitJoin64(b);
  }

  lemma CharIsAscii(v: Sextet)
    ensures (CharOf(v) as int) < 128
  {
  }

  lemma {:induction false} CharsAreAscii(v: seq<Sextet>)
    ensures forall i :: 0 <= i < |Chars(v)| ==> (Chars(v)[i] as int) < 128
  {
    if v != [] {
      CharIsAscii(v[0]);
      CharsAreAscii(v[1..]);
    }
  }

  /** Of the test vectors of section 10 of RFC 4648, one for each length of the rest. */
  lemma RfcVectors()
    ensures Encode([102]) == "Zg"
    ensures Encode([102, 111]) == "Zm8"
    ensures Encode([102, 111, 111]) == "Zm9v"
    ensures Encode([102, 111, 111, 98, 97, 114]) == "Zm9vYmFy"
  {
    var six: seq<Byte> := [102, 111, 111, 98, 97, 114];
    var three: seq<Byte> := [102, 111, 111];
    assert six[3..] == [98, 97, 114];
    assert three[3..] == [];
    var last: seq<Byte> := [98, 97, 114];
    assert last[3..] == [];
    assert Encode(last) == "YmFy";
  }
}
