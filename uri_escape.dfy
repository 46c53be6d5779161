/** `encodeURIComponent`, which `TaxiiConnect.asQueryString` applies to every
    key and value. Characters outside the unreserved set are written as the
    `%XX` escapes (upper-case hex) of their UTF-8 bytes. A Dafny `char` is a
    Unicode scalar value, the same thing a well-formed JavaScript string holds
    as one code unit or a surrogate pair, so the escape never fails here.

    `Unesc` is the decoder used to state that the escape loses nothing. */
module UriEscape {
  import opened Optional

  /** The characters `encodeURIComponent` leaves as they are. */
  predicate Unreserved(c: char) {
    || ('A' <= c <= 'Z') || ('a' <= c <= 'z') || ('0' <= c <= '9')
    || c == '-' || c == '_' || c == '.' || c == '!' || c == '~' || c == '*' || c == '\'' || c == '(' || c == ')'
  }

  predicate IsByte(b: nat) { b < 256 }

  function HexDigit(d: nat): (c: char)
    requires d < 16
    ensures Unreserved(c)
  {
    if d < 10 then ('0' as int + d) as char else ('A' as int + d - 10) as char
  }

  /** The value of a hexadecimal digit, either case. */
  function HexValue(c: char): Option<nat> {
    if '0' <= c <= '9' then Some(c as int - '0' as int)
    else if 'A' <= c <= 'F' then Some(c as int - 'A' as int + 10)
    else if 'a' <= c <= 'f' then Some(c as int - 'a' as int + 10)
    else None
  }

  lemma HexRoundTrip(d: nat)
    requires d < 16
    ensures HexValue(HexDigit(d)) == Some(d)
  {
  }

  /** The UTF-8 encoding of one scalar value. */
  function Utf8(c: char): (bs: seq<nat>)
    ensures 1 <= |bs| <= 4 && forall k :: 0 <= k < |bs| ==> IsByte(bs[k])
  {
    var cp := c as int;
    if cp < 0x80 then [cp]
    else if cp < 0x800 then [0xC0 + cp / 64, 0x80 + cp % 64]
    else if cp < 0x10000 then [0xE0 + cp / 4096, 0x80 + (cp / 64) % 64, 0x80 + cp % 64]
    else [0xF0 + cp / 262144, 0x80 + (cp / 4096) % 64, 0x80 + (cp / 64) % 64, 0x80 + cp % 64]
  }

  /** `%XX` for one byte. */
  function PercentByte(b: nat): (r: string)
    requires IsByte(b)
    ensures |r| == 3 && r[0] == '%'
  {
    ['%', HexDigit(b / 16), HexDigit(b % 16)]
  }

  /** The escapes of a byte sequence, one after the other. */
  function Percent(bs: seq<nat>): (r: string)
    requires forall k :: 0 <= k < |bs| ==> IsByte(bs[k])
    ensures |r| == 3 * |bs|
  {
    if bs == [] then [] else PercentByte(bs[0]) + Percent(bs[1..])
  }

  /** The escape of one character. */
  function EscChar(c: char): (r: string)
    ensures |r| > 0
    ensures Unreserved(c) <==> r == [c]
  {
    if Unreserved(c) then [c] else Percent(Utf8(c))
  }

  /** `encodeURIComponent(s)`. */
  function Esc(s: string): (r: string)
    ensures |r| >= |s|
    ensures r == [] <==> s == []
  {
    if s == [] then [] else EscChar(s[0]) + Esc(s[1..])
  }

  /** An escape holds only unreserved characters and `%`. */
  lemma {:induction false} PercentHasNo(bs: seq<nat>, c: char)
    requires forall k :: 0 <= k < |bs| ==> IsByte(bs[k])
    requires !Unreserved(c) && c != '%'
    ensures c !in Percent(bs)
  {
    if bs != [] {
      PercentHasNo(bs[1..], c);
      assert c !in PercentByte(bs[0]);
    }
  }

  /** `encodeURIComponent` leaves no character but the unreserved ones and
      `%`, so none of the separators `&`, `=`, `?`, `[`, `]` of a query
      string. */
  lemma {:induction false} EscHasNo(s: string, c: char)
    requires !Unreserved(c) && c != '%'
    ensures c !in Esc(s)
  {
    if s != [] {
      EscHasNo(s[1..], c);
      if !Unreserved(s[0]) {
        PercentHasNo(Utf8(s[0]), c);
      }
    }
  }

  /** The byte written as `%XX` at position `i` of `s`, if there is one. */
  function ByteAt(s: string, i: nat): (r: Option<nat>)
    ensures r.Some? ==> i + 3 <= |s| && IsByte(r.value)
  {
    if i + 3 <= |s| && s[i] == '%' && HexValue(s[i + 1]).Some? && HexValue(s[i + 2]).Some?
       && HexValue(s[i + 1]).value < 16 && HexValue(s[i + 2]).value < 16
    then Some(16 * HexValue(s[i + 1]).value + HexValue(s[i + 2]).value)
    else None
  }

  /** A UTF-8 continuation byte at position `i`, as its six payload bits. */
  function ContAt(s: string, i: nat): (r: Option<nat>)
    ensures r.Some? ==> i + 3 <= |s| && r.value < 64
  {
    match ByteAt(s, i)
    case Some(b) => if 0x80 <= b < 0xC0 then Some(b - 0x80) else None
    case None => None
  }

  predicate IsScalar(cp: int) {
    (0 <= cp < 0xD800) || (0xE000 <= cp < 0x110000)
  }

  /** The character a code point stands for, with the length consumed. */
  function Scalar(cp: int, len: nat): Option<(char, nat)> {
    if IsScalar(cp) then Some((cp as char, len)) else None
  }

  /** Decode the first character of an escaped string and say how many
      characters of it that took. */
  function DecodeOne(s: string): (r: Option<(char, nat)>)
    requires |s| > 0
    ensures r.Some? ==> 1 <= r.value.1 <= |s|
  {
    if s[0] != '%' then Some((s[0], 1))
    else
      match ByteAt(s, 0)
      case None => None
      case Some(b0) =>
        if b0 < 0x80 then Scalar(b0, 3)
        else if 0xC0 <= b0 < 0xE0 then
          match ContAt(s, 3)
          case None => None
          case Some(x1) => Scalar((b0 - 0xC0) * 64 + x1, 6)
        else if 0xE0 <= b0 < 0xF0 then
          match (ContAt(s, 3), ContAt(s, 6))
          case (Some(x1), Some(x2)) => Scalar((b0 - 0xE0) * 4096 + x1 * 64 + x2, 9)
          case _ => None
        else if 0xF0 <= b0 < 0xF8 then
          match (ContAt(s, 3), ContAt(s, 6), ContAt(s, 9))
          case (Some(x1), Some(x2), Some(x3)) =>
            Scalar((b0 - 0xF0) * 262144 + x1 * 4096 + x2 * 64 + x3, 12)
          case _ => None
        else None
  }

  /** A lenient inverse of `encodeURIComponent`: percent-decoding followed
      by UTF-8 decoding; `None` for a malformed escape. Unlike
      `decodeURIComponent` it accepts overlong UTF-8 sequences (`%C0%80`
      decodes to U+0000); only its agreement on escaped text is used. */
  function Unesc(s: string): Option<string>
    decreases |s|
  {
    if s == [] then Some([])
    else
      match DecodeOne(s)
      case None => None
      case Some((c, n)) =>
        match Unesc(s[n..])
        case None => None
        case Some(rest) => Some([c] + rest)
  }

  lemma HexPair(b: nat)
    requires IsByte(b)
    ensures HexValue(HexDigit(b / 16)) == Some(b / 16)
    ensures HexValue(HexDigit(b % 16)) == Some(b % 16)
    ensures 16 * (b / 16) + b % 16 == b
  {
    HexRoundTrip(b / 16);
    HexRoundTrip(b % 16);
  }

  /** Reading a byte is unaffected by what comes before it. */
  lemma ByteAtShift(x: string, y: string, j: nat)
    ensures ByteAt(x + y, |x| + j) == ByteAt(y, j)
  {
    if j + 3 <= |y| {
      assert (x + y)[|x| + j] == y[j];
      assert (x + y)[|x| + j + 1] == y[j + 1];
      assert (x + y)[|x| + j + 2] == y[j + 2];
    }
  }

  /** The escape of a byte reads back as that byte. */
  lemma ByteAtPercentByte(b: nat, y: string)
    requires IsByte(b)
    ensures ByteAt(PercentByte(b) + y, 0) == Some(b)
  {
    HexPair(b);
    var s := PercentByte(b) + y;
    assert s[0] == '%' && s[1] == HexDigit(b / 16) && s[2] == HexDigit(b % 16);
  }

  /** The `%XX` escape of the `i`-th byte is read back at position `3 * i`. */
  lemma {:induction false} ByteAtPercent(bs: seq<nat>, t: string, i: nat)
    requires forall k :: 0 <= k < |bs| ==> IsByte(bs[k])
    requires i < |bs|
    ensures ByteAt(Percent(bs) + t, 3 * i) == Some(bs[i])
  {
    var rest := Percent(bs[1..]) + t;
    assert Percent(bs) + t == PercentByte(bs[0]) + rest;
    if i == 0 {
      ByteAtPercentByte(bs[0], rest);
    } else {
      ByteAtPercent(bs[1..], t, i - 1);
      ByteAtShift(PercentByte(bs[0]), rest, 3 * (i - 1));
    }
  }

  lemma Utf8Two(cp: int)
    requires 0x80 <= cp < 0x800
    ensures 0xC0 <= 0xC0 + cp / 64 < 0xE0
    ensures (cp / 64) * 64 + cp % 64 == cp
  {
  }

  lemma Utf8Three(cp: int)
    requires 0x800 <= cp < 0x10000
    ensures 0xE0 <= 0xE0 + cp / 4096 < 0xF0
    ensures (cp / 4096) * 4096 + ((cp / 64) % 64) * 64 + cp % 64 == cp
  {
    assert (cp / 64) == (cp / 4096) * 64 + (cp / 64) % 64;
  }

  lemma Utf8Four(cp: int)
    requires 0x10000 <= cp < 0x110000
    ensures 0xF0 <= 0xF0 + cp / 262144 < 0xF8
    ensures (cp / 262144) * 262144 + ((cp / 4096) % 64) * 4096 + ((cp / 64) % 64) * 64 + cp % 64 == cp
  {
    assert (cp / 4096) == (cp / 262144) * 64 + (cp / 4096) % 64;
    assert (cp / 64) == (cp / 4096) * 64 + (cp / 64) % 64;
  }

  lemma DecodeOneByte(c: char, t: string)
    requires !Unreserved(c) && c as int < 0x80
    ensures DecodeOne(Percent(Utf8(c)) + t) == Some((c, 3))
  {
    var s := Percent(Utf8(c)) + t;
    ByteAtPercent(Utf8(c), t, 0);
    assert ByteAt(s, 0) == Some(c as int);
  }

  /** The bytes of a two-byte encoding: a lead byte and one continuation
      byte carrying the code point. */
  lemma Utf8PartsTwo(c: char)
    requires 0x80 <= c as int < 0x800
    ensures var bs := Utf8(c);
      && |bs| == 2 && 0xC0 <= bs[0] < 0xE0 && 0x80 <= bs[1] < 0xC0
      && (bs[0] - 0xC0) * 64 + (bs[1] - 0x80) == c as int
  {
    Utf8Two(c as int);
  }

  lemma Utf8PartsThree(c: char)
    requires 0x800 <= c as int < 0x10000
    ensures var bs := Utf8(c);
      && |bs| == 3 && 0xE0 <= bs[0] < 0xF0 && 0x80 <= bs[1] < 0xC0 && 0x80 <= bs[2] < 0xC0
      && (bs[0] - 0xE0) * 4096 + (bs[1] - 0x80) * 64 + (bs[2] - 0x80) == c as int
  {
    Utf8Three(c as int);
  }

  lemma Utf8PartsFour(c: char)
    requires 0x10000 <= c as int
    ensures var bs := Utf8(c);
      && |bs| == 4 && 0xF0 <= bs[0] < 0xF8 && 0x80 <= bs[1] < 0xC0 && 0x80 <= bs[2] < 0xC0 && 0x80 <= bs[3] < 0xC0
      && (bs[0] - 0xF0) * 262144 + (bs[1] - 0x80) * 4096 + (bs[2] - 0x80) * 64 + (bs[3] - 0x80) == c as int
  {
    Utf8Four(c as int);
  }

  /** A character's own code point decodes back to it. */
  lemma ScalarOfChar(c: char, n: nat)
    ensures Scalar(c as int, n) == Some((c, n))
  {
  }

  /** A continuation byte read at position `i` gives its low six bits. */
  lemma ContAtByte(s: string, i: nat, b: nat)
    requires ByteAt(s, i) == Some(b) && 0x80 <= b < 0xC0
    ensures ContAt(s, i) == Some(b - 0x80)
  {
  }

  /** `DecodeOne` on a two-byte sequence, given its bytes. */
  lemma DecodeOneTwo(s: string, b0: nat, b1: nat)
    requires ByteAt(s, 0) == Some(b0) && 0xC0 <= b0 < 0xE0
    requires ByteAt(s, 3) == Some(b1) && 0x80 <= b1 < 0xC0
    ensures DecodeOne(s) == Scalar((b0 - 0xC0) * 64 + (b1 - 0x80), 6)
  {
    ContAtByte(s, 3, b1);
  }

  /** `DecodeOne` on a three-byte sequence, given its bytes. */
  lemma DecodeOneThree(s: string, b0: nat, b1: nat, b2: nat)
    requires ByteAt(s, 0) == Some(b0) && 0xE0 <= b0 < 0xF0
    requires ByteAt(s, 3) == Some(b1) && 0x80 <= b1 < 0xC0
    requires ByteAt(s, 6) == Some(b2) && 0x80 <= b2 < 0xC0
    ensures DecodeOne(s) == Scalar((b0 - 0xE0) * 4096 + (b1 - 0x80) * 64 + (b2 - 0x80), 9)
  {
    ContAtByte(s, 3, b1);
    ContAtByte(s, 6, b2);
  }

  /** `DecodeOne` on a four-byte sequence, given its bytes. */
  lemma DecodeOneFour(s: string, b0: nat, b1: nat, b2: nat, b3: nat)
    requires ByteAt(s, 0) == Some(b0) && 0xF0 <= b0 < 0xF8
    requires ByteAt(s, 3) == Some(b1) && 0x80 <= b1 < 0xC0
    requires ByteAt(s, 6) == Some(b2) && 0x80 <= b2 < 0xC0
    requires ByteAt(s, 9) == Some(b3) && 0x80 <= b3 < 0xC0
    ensures DecodeOne(s) == Scalar((b0 - 0xF0) * 262144 + (b1 - 0x80) * 4096 + (b2 - 0x80) * 64 + (b3 - 0x80), 12)
  {
    ContAtByte(s, 3, b1);
    ContAtByte(s, 6, b2);
    ContAtByte(s, 9, b3);
  }

  /** Any two-byte lead and continuation, escaped, decode as the code
      point they carry. */
  lemma DecodeTwoEscaped(bs: seq<nat>, t: string)
    requires |bs| == 2 && forall k :: 0 <= k < |bs| ==> IsByte(bs[k])
    requires 0xC0 <= bs[0] < 0xE0 && 0x80 <= bs[1] < 0xC0
    ensures DecodeOne(Percent(bs) + t) == Scalar((bs[0] - 0xC0) * 64 + (bs[1] - 0x80), 6)
  {
    ByteAtPercent(bs, t, 0);
    ByteAtPercent(bs, t, 1);
    DecodeOneTwo(Percent(bs) + t, bs[0], bs[1]);
  }

  lemma DecodeThreeEscaped(bs: seq<nat>, t: string)
    requires |bs| == 3 && forall k :: 0 <= k < |bs| ==> IsByte(bs[k])
    requires 0xE0 <= bs[0] < 0xF0 && 0x80 <= bs[1] < 0xC0 && 0x80 <= bs[2] < 0xC0
    ensures DecodeOne(Percent(bs) + t) == Scalar((bs[0] - 0xE0) * 4096 + (bs[1] - 0x80) * 64 + (bs[2] - 0x80), 9)
  {
    ByteAtPercent(bs, t, 0);
    ByteAtPercent(bs, t, 1);
    ByteAtPercent(bs, t, 2);
    DecodeOneThree(Percent(bs) + t, bs[0], bs[1], bs[2]);
  }

  lemma DecodeFourEscaped(bs: seq<nat>, t: string)
    requires |bs| == 4 && forall k :: 0 <= k < |bs| ==> IsByte(bs[k])
    requires 0xF0 <= bs[0] < 0xF8 && 0x80 <= bs[1] < 0xC0 && 0x80 <= bs[2] < 0xC0 && 0x80 <= bs[3] < 0xC0
    ensures DecodeOne(Percent(bs) + t)
      == Scalar((bs[0] - 0xF0) * 262144 + (bs[1] - 0x80) * 4096 + (bs[2] - 0x80) * 64 + (bs[3] - 0x80), 12)
  {
    ByteAtPercent(bs, t, 0);
    ByteAtPercent(bs, t, 1);
    ByteAtPercent(bs, t, 2);
    ByteAtPercent(bs, t, 3);
    DecodeOneFour(Percent(bs) + t, bs[0], bs[1], bs[2], bs[3]);
  }

  lemma DecodeTwoBytes(c: char, t: string)
    requires 0x80 <= c as int < 0x800
    ensures DecodeOne(Percent(Utf8(c)) + t) == Some((c, 6))
  {
    Utf8PartsTwo(c);
    DecodeTwoEscaped(Utf8(c), t);
    ScalarOfChar(c, 6);
  }

  lemma DecodeThreeBytes(c: char, t: string)
    requires 0x800 <= c as int < 0x10000
    ensures DecodeOne(Percent(Utf8(c)) + t) == Some((c, 9))
  {
    Utf8PartsThree(c);
    DecodeThreeEscaped(Utf8(c), t);
    ScalarOfChar(c, 9);
  }

  lemma DecodeFourBytes(c: char, t: string)
    requires 0x10000 <= c as int
    ensures DecodeOne(Percent(Utf8(c)) + t) == Some((c, 12))
  {
    Utf8PartsFour(c);
    DecodeFourEscaped(Utf8(c), t);
    ScalarOfChar(c, 12);
  }

  /** Decoding the escape of a character, whatever follows it, gives back
      the character and consumes exactly its escape. */
  lemma DecodeOneEscChar(c: char, t: string)
    ensures DecodeOne(EscChar(c) + t) == Some((c, |EscChar(c)|))
  {
    if Unreserved(c) {
      DecodeOnePlain(c, t);
    } else {
      assert EscChar(c) == Percent(Utf8(c));
      DecodeOneEscaped(c, t);
    }
  }

  /** An unreserved character decodes as itself. */
  lemma DecodeOnePlain(c: char, t: string)
    requires Unreserved(c)
    ensures DecodeOne([c] + t) == Some((c, 1))
  {
    assert ([c] + t)[0] == c;
  }

  /** The escape of a reserved character decodes back to it. */
  lemma DecodeOneEscaped(c: char, t: string)
    requires !Unreserved(c)
    ensures DecodeOne(Percent(Utf8(c)) + t) == Some((c, 3 * |Utf8(c)|))
  {
    var cp := c as int;
    if cp < 0x80 {
      DecodeOneByte(c, t);
    } else if cp < 0x800 {
      DecodeTwoBytes(c, t);
    } else if cp < 0x10000 {
      DecodeThreeBytes(c, t);
    } else {
      DecodeFourBytes(c, t);
    }
  }

  /** `decodeURIComponent(encodeURIComponent(s)) == s`: the escape is
      injective, so a query string determines the text it was made from. */
  lemma {:induction false} UnescEsc(s: string)
    ensures Unesc(Esc(s)) == Some(s)
  {
    if s != [] {
      var e := Esc(s);
      DecodeOneEscChar(s[0], Esc(s[1..]));
      assert e[|EscChar(s[0])|..] == Esc(s[1..]);
      UnescEsc(s[1..]);
      assert [s[0]] + s[1..] == s;
    }
  }

  /** Two texts with the same escape are equal. */
  lemma EscInjective(s: string, t: string)
    requires Esc(s) == Esc(t)
    ensures s == t
  {
    UnescEsc(s);
    UnescEsc(t);
  }

  /** The escape works character by character. */
  lemma {:induction false} EscAppend(a: string, b: string)
    ensures Esc(a + b) == Esc(a) + Esc(b)
  {
    if a != [] {
      assert (a + b)[0] == a[0];
      assert (a + b)[1..] == a[1..] + b;
      calc {
        Esc(a + b);
        EscChar(a[0]) + Esc(a[1..] + b);
        { EscAppend(a[1..], b); }
        EscChar(a[0]) + (Esc(a[1..]) + Esc(b));
        (EscChar(a[0]) + Esc(a[1..])) + Esc(b);
      }
    } else {
      assert a + b == b;
    }
  }

  /** A text of unreserved characters only is its own escape. */
  lemma {:induction false} EscUnreserved(s: string)
    requires forall k :: 0 <= k < |s| ==> Unreserved(s[k])
    ensures Esc(s) == s
  {
    if s != [] {
      EscUnreserved(s[1..]);
      assert [s[0]] + s[1..] == s;
    }
  }
}
