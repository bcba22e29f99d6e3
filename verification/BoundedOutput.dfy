/** Output bounding: the chunked log read, the truncation to a UTF-8 boundary, and the agreement of
    the two with truncating the whole stream. */
module BoundedOutput {
  import opened GoText
  import Sequences
  import opened Wrappers

  newtype byte = x: int | 0 <= x < 256

  const BUF_SIZE: nat := 32 * 1024
  const SLACK: nat := 1024

  // ----- UTF-8, section 4 of RFC 3629 -----

  /** `utf8RuneStart`. */
  predicate RuneStart(b: byte)
    ensures RuneStart(b) <==> !(0x80 <= b < 0xC0)
  {
    (b as bv8) & 0xC0 != 0x80
  }

  predicate In(s: seq<byte>, i: nat, lo: byte, hi: byte) { i < |s| && lo <= s[i] <= hi }

  /** The length of the well-formed character at the front of `s`, or 0 when there is none. */
  function CharLen(s: seq<byte>): (n: nat)
    ensures n <= |s| && n <= 4
    ensures n > 0 ==> RuneStart(s[0]) && forall i | 0 < i < n :: !RuneStart(s[i])
  {
    if In(s, 0, 0x00, 0x7F) then 1
    else if In(s, 0, 0xC2, 0xDF) && In(s, 1, 0x80, 0xBF) then 2
    else if In(s, 0, 0xE0, 0xE0) && In(s, 1, 0xA0, 0xBF) && In(s, 2, 0x80, 0xBF) then 3
    else if In(s, 0, 0xE1, 0xEC) && In(s, 1, 0x80, 0xBF) && In(s, 2, 0x80, 0xBF) then 3
    else if In(s, 0, 0xED, 0xED) && In(s, 1, 0x80, 0x9F) && In(s, 2, 0x80, 0xBF) then 3
    else if In(s, 0, 0xEE, 0xEF) && In(s, 1, 0x80, 0xBF) && In(s, 2, 0x80, 0xBF) then 3
    else if In(s, 0, 0xF0, 0xF0) && In(s, 1, 0x90, 0xBF) && In(s, 2, 0x80, 0xBF) && In(s, 3, 0x80, 0xBF) then 4
    else if In(s, 0, 0xF1, 0xF3) && In(s, 1, 0x80, 0xBF) && In(s, 2, 0x80, 0xBF) && In(s, 3, 0x80, 0xBF) then 4
    else if In(s, 0, 0xF4, 0xF4) && In(s, 1, 0x80, 0x8F) && In(s, 2, 0x80, 0xBF) && In(s, 3, 0x80, 0xBF) then 4
    else 0
  }

  predicate ValidUtf8(s: seq<byte>)
    decreases |s|
  {
    s == [] || (CharLen(s) > 0 && ValidUtf8(s[CharLen(s)..]))
  }

  /** In valid text the character boundaries are exactly the rune starts. */
  lemma {:induction false} BoundaryIff(s: seq<byte>, i: nat)
    requires ValidUtf8(s) && i <= |s|
    ensures ValidUtf8(s[..i]) <==> i == |s| || RuneStart(s[i])
    ensures ValidUtf8(s[..i]) ==> ValidUtf8(s[i..])
    decreases |s|
  {
    var n := CharLen(s);
    if i == 0 {
      assert s[0..] == s;
    } else if i < n {
      assert CharLen(s[..i]) == 0;
    } else {
      assert CharLen(s[..i]) == n;
      Sequences.DropThenTake(s, n, i);
      BoundaryIff(s[n..], i - n);
    }
  }

  // ----- The encoding, section 3 of RFC 3629 -----

  /** A character number that UTF-8 encodes. */
  predicate Scalar(c: nat) { c <= 0x10FFFF && !(0xD800 <= c <= 0xDFFF) }

  function Tail(c: nat): byte { (0x80 + c % 64) as byte }

  /** The bytes of one character. */
  function Encode(c: nat): (s: seq<byte>)
    requires Scalar(c)
  {
    if c < 0x80 then [c as byte]
    else if c < 0x800 then [(0xC0 + c / 64) as byte, Tail(c)]
    else if c < 0x1_0000 then [(0xE0 + c / 4096) as byte, Tail(c / 64), Tail(c)]
    else [(0xF0 + c / 262144) as byte, Tail(c / 4096), Tail(c / 64), Tail(c)]
  }

  function EncodeAll(cs: seq<nat>): seq<byte>
    requires forall c | c in cs :: Scalar(c)
  {
    if cs == [] then [] else Encode(cs[0]) + EncodeAll(cs[1..])
  }

  lemma TwoBytes(x: nat, y: nat)
    requires 2 <= x < 32 && y < 64
    ensures Scalar(x * 64 + y) && Encode(x * 64 + y) == [(0xC0 + x) as byte, (0x80 + y) as byte]
  {}

  lemma ThreeBytes(x: nat, y: nat, z: nat)
    requires x < 16 && y < 64 && z < 64 && (x == 0 ==> y >= 32) && (x == 13 ==> y < 32)
    ensures var c := (x * 64 + y) * 64 + z;
            Scalar(c) && Encode(c) == [(0xE0 + x) as byte, (0x80 + y) as byte, (0x80 + z) as byte]
  {
    var c := (x * 64 + y) * 64 + z;
    assert c / 64 == x * 64 + y && c / 4096 == x && c % 64 == z;
  }

  lemma FourBytes(w: nat, x: nat, y: nat, z: nat)
    requires w <= 4 && x < 64 && y < 64 && z < 64 && (w == 0 ==> x >= 16) && (w == 4 ==> x < 16)
    ensures var c := ((w * 64 + x) * 64 + y) * 64 + z;
            Scalar(c) &&
            Encode(c) == [(0xF0 + w) as byte, (0x80 + x) as byte, (0x80 + y) as byte, (0x80 + z) as byte]
  {
    var c := ((w * 64 + x) * 64 + y) * 64 + z;
    assert c / 64 == (w * 64 + x) * 64 + y && c / 4096 == w * 64 + x && c / 262144 == w && c % 64 == z;
  }

  lemma EncodedIsWellFormed(c: nat, s: seq<byte>)
    requires Scalar(c) && Encode(c) <= s
    ensures CharLen(s) == |Encode(c)|
  {
    if 0x80 <= c < 0x800 {
      EncodedTwo(c, s);
    } else if 0x800 <= c < 0x1_0000 {
      EncodedThree(c, s);
    } else if c >= 0x1_0000 {
      EncodedFour(c, s);
    }
  }

  lemma EncodedTwo(c: nat, s: seq<byte>)
    requires 0x80 <= c < 0x800 && Encode(c) <= s
    ensures CharLen(s) == 2
  {
    TwoBytes(c / 64, c % 64);
    assert s[0] == Encode(c)[0] && s[1] == Encode(c)[1];
    WellFormedTwo(s, c / 64, c % 64);
  }

  lemma EncodedThree(c: nat, s: seq<byte>)
    requires 0x800 <= c < 0x1_0000 && Scalar(c) && Encode(c) <= s
    ensures CharLen(s) == 3
  {
    assert s[0] == Encode(c)[0] && s[1] == Encode(c)[1] && s[2] == Encode(c)[2];
    WellFormedThree(s, c / 4096, c / 64 % 64, c % 64);
  }

  lemma EncodedFour(c: nat, s: seq<byte>)
    requires 0x1_0000 <= c && Scalar(c) && Encode(c) <= s
    ensures CharLen(s) == 4
  {
    assert s[0] == Encode(c)[0] && s[1] == Encode(c)[1] && s[2] == Encode(c)[2] && s[3] == Encode(c)[3];
    WellFormedFour(s, c / 262144, c / 4096 % 64, c / 64 % 64, c % 64);
  }

  lemma WellFormedTwo(s: seq<byte>, x: nat, y: nat)
    requires |s| >= 2 && 2 <= x < 32 && y < 64 && s[0] as nat == 0xC0 + x && s[1] as nat == 0x80 + y
    ensures CharLen(s) == 2
  {}

  lemma WellFormedThree(s: seq<byte>, x: nat, y: nat, z: nat)
    requires |s| >= 3 && x < 16 && y < 64 && z < 64 && (x == 0 ==> y >= 32) && (x == 13 ==> y < 32)
    requires s[0] as nat == 0xE0 + x && s[1] as nat == 0x80 + y && s[2] as nat == 0x80 + z
    ensures CharLen(s) == 3
  {}

  lemma WellFormedFour(s: seq<byte>, w: nat, x: nat, y: nat, z: nat)
    requires |s| >= 4 && w <= 4 && x < 64 && y < 64 && z < 64 && (w == 0 ==> x >= 16) && (w == 4 ==> x < 16)
    requires s[0] as nat == 0xF0 + w && s[1] as nat == 0x80 + x && s[2] as nat == 0x80 + y && s[3] as nat == 0x80 + z
    ensures CharLen(s) == 4
  {}

  lemma WellFormedIsEncoded(s: seq<byte>) returns (c: nat)
    requires CharLen(s) > 0
    ensures Scalar(c) && Encode(c) == s[..CharLen(s)]
  {
    var n := CharLen(s);
    if n == 1 {
      c := s[0] as nat;
    } else if n == 2 {
      c := TwoDecoded(s);
    } else if n == 3 {
      c := ThreeDecoded(s);
    } else {
      c := FourDecoded(s);
    }
  }

  lemma TwoDecoded(s: seq<byte>) returns (c: nat)
    requires CharLen(s) == 2
    ensures Scalar(c) && Encode(c) == s[..2]
  {
    var x, y := s[0] as nat - 0xC0, s[1] as nat - 0x80;
    TwoBytes(x, y);
    c := x * 64 + y;
  }

  lemma ThreeDecoded(s: seq<byte>) returns (c: nat)
    requires CharLen(s) == 3
    ensures Scalar(c) && Encode(c) == s[..3]
  {
    var x, y, z := s[0] as nat - 0xE0, s[1] as nat - 0x80, s[2] as nat - 0x80;
    ThreeBytes(x, y, z);
    c := (x * 64 + y) * 64 + z;
  }

  lemma FourDecoded(s: seq<byte>) returns (c: nat)
    requires CharLen(s) == 4
    ensures Scalar(c) && Encode(c) == s[..4]
  {
    var w, x, y, z := s[0] as nat - 0xF0, s[1] as nat - 0x80, s[2] as nat - 0x80, s[3] as nat - 0x80;
    FourBytes(w, x, y, z);
    c := ((w * 64 + x) * 64 + y) * 64 + z;
  }

  /** The syntax of section 4 is exactly the set of encoded texts. */
  lemma {:induction false} ValidIffEncoded(s: seq<byte>)
    ensures ValidUtf8(s) <==> exists cs: seq<nat> :: (forall c | c in cs :: Scalar(c)) && EncodeAll(cs) == s
    decreases |s|
  {
    if ValidUtf8(s) {
      var cs := Decoded(s);
    }
    if cs: seq<nat> :| (forall c | c in cs :: Scalar(c)) && EncodeAll(cs) == s {
      EncodedIsValid(cs);
    }
  }

  lemma {:induction false} Decoded(s: seq<byte>) returns (cs: seq<nat>)
    requires ValidUtf8(s)
    ensures (forall c | c in cs :: Scalar(c)) && EncodeAll(cs) == s
    decreases |s|
  {
    cs := [];
    if s != [] {
      var c := WellFormedIsEncoded(s);
      var rest := Decoded(s[CharLen(s)..]);
      cs := [c] + rest;
      assert cs[1..] == rest;
    }
  }

  lemma {:induction false} EncodedIsValid(cs: seq<nat>)
    requires forall c | c in cs :: Scalar(c)
    ensures ValidUtf8(EncodeAll(cs))
  {
    if cs != [] {
      var s := EncodeAll(cs);
      EncodedIsValid(cs[1..]);
      EncodedIsWellFormed(cs[0], s);
      assert s[|Encode(cs[0])|..] == EncodeAll(cs[1..]);
    }
  }

  // ----- TruncateText -----

  /** The bytes of an ASCII string. */
  function Ascii(s: string): (r: seq<byte>)
    ensures |r| == |s|
  {
    seq(|s|, i requires 0 <= i < |s| => (s[i] as int % 256) as byte)
  }

  const ELLIPSIS: seq<byte> := [0x0A, 0xE2, 0x80, 0xA6]
  const BEFORE_COUNT := "truncated ("
  const AFTER_COUNT := " more bytes omitted, raise --max-output-bytes)"

  function Marker(omitted: nat): seq<byte> {
    ELLIPSIS + Ascii(BEFORE_COUNT) + Ascii(Itoa(omitted)) + Ascii(AFTER_COUNT)
  }

  /** The last rune start at or before `cut`, or 0. */
  function CutBack(s: seq<byte>, cut: nat): (c: nat)
    requires cut < |s|
    ensures c <= cut && (c == 0 || RuneStart(s[c])) && forall i | c < i <= cut :: !RuneStart(s[i])
  {
    if cut > 0 && !RuneStart(s[cut]) then CutBack(s, cut - 1) else cut
  }

  function KeptBody(s: seq<byte>, maxBytes: int): seq<byte> {
    if maxBytes <= 0 || |s| <= maxBytes then s else s[..CutBack(s, maxBytes)]
  }

  function Truncated(s: seq<byte>, maxBytes: int): seq<byte> {
    KeptBody(s, maxBytes) + if maxBytes <= 0 || |s| <= maxBytes then [] else Marker(|s| - maxBytes)
  }

  method TruncateText(s: seq<byte>, maxBytes: int) returns (r: seq<byte>)
    ensures r == Truncated(s, maxBytes)
  {
    if maxBytes <= 0 || |s| <= maxBytes { return s; }
    var omitted := |s| - maxBytes;
    var cut := maxBytes;
    while cut > 0 && !RuneStart(s[cut])
      invariant 0 <= cut <= maxBytes
      invariant CutBack(s, cut) == CutBack(s, maxBytes)
    {
      cut := cut - 1;
    }
    return s[..cut] + Marker(omitted);
  }

  /** On valid text the kept body is the longest run of whole characters that fits. It is at most 3
      bytes short of the limit, so the count in the marker falls short of what was dropped by at most
      3. */
  lemma KeepsWholeCharacters(s: seq<byte>, maxBytes: int)
    requires ValidUtf8(s) && 0 < maxBytes < |s|
    ensures var kept := KeptBody(s, maxBytes);
            && kept <= s && ValidUtf8(kept) && ValidUtf8(s[|kept|..])
            && maxBytes - 3 <= |kept| <= maxBytes
            && (forall n | |kept| < n <= maxBytes :: !ValidUtf8(s[..n]))
            && 0 <= (|s| - |kept|) - (|s| - maxBytes) <= 3
  {
    var c := CutBack(s, maxBytes);
    BoundaryIff(s, c);
    BoundaryIff(s, maxBytes);
    forall n | c < n <= maxBytes ensures !ValidUtf8(s[..n]) {
      BoundaryIff(s, n);
    }
    assert ValidUtf8(s[c..]);
    forall i | 0 < i <= maxBytes - c ensures !RuneStart(s[c..][i]) {
      assert s[c..][i] == s[c + i];
    }
    RestStartsWithin4(s[c..], maxBytes - c);
  }

  /** In valid text no more than three bytes in a row continue a character. */
  lemma RestStartsWithin4(s: seq<byte>, k: nat)
    requires ValidUtf8(s) && k < |s| && forall i | 0 < i <= k :: !RuneStart(s[i])
    ensures k <= 3
  {
    var n := CharLen(s);
    if n <= k {
      assert ValidUtf8(s[n..]) && s[n..] != [] && CharLen(s[n..]) > 0;
      assert RuneStart(s[n..][0]);
    }
  }

  /** For arbitrary bytes: a truncated text fits the limit exactly when the last bytes up to the limit, as
      many as the marker takes, all continue a character, so that the cut makes room for the marker. */
  lemma FitsIff(s: seq<byte>, maxBytes: int)
    requires maxBytes > 0
    ensures |Truncated(s, maxBytes)| <= maxBytes <==>
            |s| <= maxBytes ||
            (var m := |Marker(|s| - maxBytes)|;
             m <= maxBytes && forall i | maxBytes - m < i <= maxBytes :: !RuneStart(s[i]))
  {
    if |s| > maxBytes {
      var m, c := |Marker(|s| - maxBytes)|, CutBack(s, maxBytes);
      assert |Truncated(s, maxBytes)| == c + m;
      if c + m > maxBytes && m <= maxBytes {
        assert RuneStart(s[c]) && maxBytes - m < c <= maxBytes;
      }
    }
  }

  /** On valid text that never happens: a truncated text is always longer than the limit. */
  lemma ValidTextFitsIff(s: seq<byte>, maxBytes: int)
    requires ValidUtf8(s) && maxBytes > 0
    ensures |Truncated(s, maxBytes)| <= maxBytes <==> |s| <= maxBytes
  {
    if |s| > maxBytes { KeepsWholeCharacters(s, maxBytes); }
  }

  /** A marker alone can fit: a limit of 300 on 301 continuation bytes. */
  lemma ContinuationBytesFit()
    ensures var s := seq(301, _ => 0x80 as byte); |s| > 300 && |Truncated(s, 300)| <= 300
  {
    var s := seq(301, _ => 0x80 as byte);
    assert Itoa(1) == ['1'];
    assert forall i | 0 <= i < |s| :: !RuneStart(s[i]);
    FitsIff(s, 300);
  }

  lemma MarkerInjective(m: nat, n: nat)
    requires Marker(m) == Marker(n)
    ensures m == n
  {
    assert |Ascii(Itoa(m))| == |Ascii(Itoa(n))| by {
      assert |Marker(m)| == |Marker(n)|;
    }
    Sequences.Cancel(ELLIPSIS + Ascii(BEFORE_COUNT), Ascii(Itoa(m)), Ascii(AFTER_COUNT),
                     Ascii(Itoa(n)), Ascii(AFTER_COUNT));
    AsciiDigits(Itoa(m), Itoa(n));
    ItoaInjective(m, n);
  }

  /** A truncated text is its kept body and the marker, byte for byte: a line break, an ellipsis, the fixed
      words, and between them the number of bytes beyond the limit in decimal. */
  lemma TruncatedSpelledOut(s: seq<byte>, maxBytes: int)
    requires 0 < maxBytes < |s|
    ensures Truncated(s, maxBytes) ==
              KeptBody(s, maxBytes) + (BeforeBytes() + Ascii(Itoa(|s| - maxBytes)) + AfterBytes())
  {
    BeforeSpelledOut();
    AfterSpelledOut();
  }

  /** Line break, ellipsis, "truncated (". */
  function BeforeBytes(): seq<byte> {
    [0x0A, 0xE2, 0x80, 0xA6, 0x74, 0x72, 0x75, 0x6E, 0x63, 0x61, 0x74, 0x65, 0x64, 0x20, 0x28]
  }

  /** " more bytes omitted, raise --max-output-bytes)". */
  function AfterBytes(): seq<byte> {
    [0x20, 0x6D, 0x6F, 0x72, 0x65, 0x20, 0x62, 0x79, 0x74] +
    [0x65, 0x73, 0x20, 0x6F, 0x6D, 0x69, 0x74, 0x74, 0x65] +
    [0x64, 0x2C, 0x20, 0x72, 0x61, 0x69, 0x73, 0x65, 0x20] +
    [0x2D, 0x2D, 0x6D, 0x61, 0x78, 0x2D, 0x6F, 0x75, 0x74] +
    [0x70, 0x75, 0x74, 0x2D, 0x62, 0x79, 0x74, 0x65, 0x73] +
    [0x29]
  }

  lemma BeforeSpelledOut()
    ensures ELLIPSIS + Ascii(BEFORE_COUNT) == BeforeBytes()
  {}

  lemma AsciiJoins(a: string, b: string)
    ensures Ascii(a + b) == Ascii(a) + Ascii(b)
  {}

  lemma AfterSpelledOut()
    ensures Ascii(AFTER_COUNT) == AfterBytes()
  {
    AsciiJoins(" more bytes omitted, raise ", "--max-output-bytes)");
    WordsSpelledOut();
    FlagSpelledOut();
  }

  lemma WordsSpelledOut()
    ensures Ascii(" more bytes omitted, raise ") == [0x20, 0x6D, 0x6F, 0x72, 0x65, 0x20, 0x62, 0x79, 0x74] +
      [0x65, 0x73, 0x20, 0x6F, 0x6D, 0x69, 0x74, 0x74, 0x65] + [0x64, 0x2C, 0x20, 0x72, 0x61, 0x69, 0x73, 0x65, 0x20]
  {
    AsciiJoins(" more byt", "es omitte");
    AsciiJoins(" more bytes omitte", "d, raise ");
  }

  lemma FlagSpelledOut()
    ensures Ascii("--max-output-bytes)") == [0x2D, 0x2D, 0x6D, 0x61, 0x78, 0x2D, 0x6F, 0x75, 0x74] +
      [0x70, 0x75, 0x74, 0x2D, 0x62, 0x79, 0x74, 0x65, 0x73] +
      [0x29]
  {
    AsciiJoins("--max-out", "put-bytes");
    AsciiJoins("--max-output-bytes", ")");
  }

  /** The bytes of a decimal number are those of its digits. */
  lemma DigitBytes(n: nat)
    ensures forall i | 0 <= i < |Itoa(n)| ::
              '0' <= Itoa(n)[i] <= '9' && Ascii(Itoa(n))[i] as int == 0x30 + (Itoa(n)[i] as int - '0' as int)
  {
    forall i | 0 <= i < |Itoa(n)| ensures '0' <= Itoa(n)[i] <= '9' {
      assert Itoa(n)[i] in Itoa(n);
    }
  }

  lemma AsciiDigits(s: string, t: string)
    requires AllDigits(s) && AllDigits(t) && Ascii(s) == Ascii(t)
    ensures s == t
  {
    assert |s| == |Ascii(s)| == |t|;
    forall i | 0 <= i < |s| ensures s[i] == t[i] {
      assert Ascii(s)[i] == Ascii(t)[i] && s[i] in s && t[i] in t;
    }
  }

  // ----- readAtMost -----

  datatype ReadErr = NoErr | Eof | Failure

  /** What one `Read` delivers. */
  datatype Chunk = Chunk(data: seq<byte>, err: ReadErr)

  function Next(script: seq<Chunk>): Chunk {
    if script == [] then Chunk([], Eof) else script[0]
  }

  function Rest(script: seq<Chunk>): seq<Chunk> {
    if script == [] then [] else script[1..]
  }

  predicate FitBuffer(script: seq<Chunk>) { forall c | c in script :: |c.data| <= BUF_SIZE }

  /** Every byte up to the first end of file or error. */
  function Stream(script: seq<Chunk>): seq<byte> {
    if script == [] then []
    else script[0].data + if script[0].err == NoErr then Stream(script[1..]) else []
  }

  predicate Fails(script: seq<Chunk>) {
    script != [] && (script[0].err == Failure || (script[0].err == NoErr && Fails(script[1..])))
  }

  /** A reader that delivers its stream in any chunks, empty ones included, and then end of file. */
  class Reader {
    var script: seq<Chunk>

    method Read(buf: array<byte>) returns (n: nat, err: ReadErr)
      requires FitBuffer(script) && buf.Length == BUF_SIZE
      modifies this, buf
      ensures n <= buf.Length && buf[..n] == Next(old(script)).data && err == Next(old(script)).err
      ensures script == Rest(old(script)) && FitBuffer(script)
    {
      var c := Next(script);
      n, err := |c.data|, c.err;
      forall i | 0 <= i < n { buf[i] := c.data[i]; }
      script := Rest(script);
    }
  }

  datatype ReadEnd = Complete | ReadFailed | HitLimit

  function ReadResult(script: seq<Chunk>, got: seq<byte>, maxBytes: int): (seq<byte>, ReadEnd) {
    if |got| >= maxBytes then (got, HitLimit)
    else
      var c := Next(script);
      match c.err
      case Eof => (got + c.data, Complete)
      case Failure => (got + c.data, ReadFailed)
      case NoErr => ReadResult(Rest(script), got + c.data, maxBytes)
  }

  method ReadAtMost(r: Reader, maxBytes: int) returns (body: seq<byte>, end: ReadEnd)
    requires FitBuffer(r.script)
    modifies r
    ensures (body, end) == ReadResult(old(r.script), [], maxBytes)
  {
    body := [];
    var buf := new byte[BUF_SIZE];
    while |body| < maxBytes
      invariant FitBuffer(r.script) && fresh(buf)
      invariant ReadResult(r.script, body, maxBytes) == ReadResult(old(r.script), [], maxBytes)
      decreases |r.script|
    {
      ghost var before, c := body, Next(r.script);
      var n, err := r.Read(buf);
      if n > 0 {
        body := body + buf[..n];
      }
      assert body == before + c.data;
      if err == Eof { return body, Complete; }
      if err == Failure { return body, ReadFailed; }
    }
    return body, HitLimit;
  }

  /** However the stream is chunked, the read delivers a prefix of it; the whole of it unless the
      limit was hit, and then at least `maxBytes` but less than one buffer more. */
  lemma {:induction false} ReadIsBoundedPrefix(script: seq<Chunk>, got: seq<byte>, maxBytes: int)
    requires FitBuffer(script)
    ensures var (body, end) := ReadResult(script, got, maxBytes);
            && body <= got + Stream(script)
            && (end != HitLimit ==> body == got + Stream(script) && (end == ReadFailed <==> Fails(script)))
            && (end == HitLimit ==> |body| >= maxBytes)
            && (|got| < maxBytes ==> |body| < maxBytes + BUF_SIZE)
  {
    if |got| < maxBytes && Next(script).err == NoErr {
      ReadIsBoundedPrefix(Rest(script), got + Next(script).data, maxBytes);
      assert got + Next(script).data + Stream(Rest(script)) == got + Stream(script);
    }
  }

  // ----- get_logs followed by Wrap's truncation -----

  const NO_LOGS := "(no logs found)"

  function Int64(x: int): int { (x - MIN_INT) % (MAX_UINT + 1) + MIN_INT }

  function TextOf(body: seq<byte>): seq<byte> { if |body| == 0 then Ascii(NO_LOGS) else body }

  /** The text `get_logs` returns, or nothing when the read fails. */
  function LogText(script: seq<Chunk>, maxOutput: int): Option<seq<byte>> {
    var (body, end) := ReadResult(script, [], Int64(maxOutput + SLACK));
    if end == ReadFailed then None else Some(TextOf(body))
  }

  method GetLogs(r: Reader, maxOutputBytes: int) returns (text: Option<seq<byte>>)
    requires FitBuffer(r.script)
    modifies r
    ensures text == LogText(old(r.script), maxOutputBytes)
  {
    var limit := Int64(maxOutputBytes + SLACK);
    var body, end := ReadAtMost(r, limit);
    if end == ReadFailed { return None; }
    text := Some(TextOf(body));
  }

  /** Reading at most the output limit plus 1024 bytes and then truncating keeps the same body as
      truncating the whole stream. The two texts, markers included, are equal exactly when nothing is
      truncated or the read took the whole stream. */
  lemma BoundedReadKeepsBody(script: seq<Chunk>, maxOutput: int)
    requires FitBuffer(script) && 0 < maxOutput <= MAX_INT - SLACK
    requires LogText(script, maxOutput).Some?
    ensures var text, full := LogText(script, maxOutput).value, TextOf(Stream(script));
            && KeptBody(text, maxOutput) == KeptBody(full, maxOutput)
            && |text| < maxOutput + SLACK + BUF_SIZE
            && (Truncated(text, maxOutput) == Truncated(full, maxOutput) <==> |full| <= maxOutput || text == full)
  {
    BoundedText(script, maxOutput);
    var text, full := LogText(script, maxOutput).value, TextOf(Stream(script));
    if text != full { PrefixTruncatesAlike(text, full, maxOutput); }
  }

  lemma BoundedText(script: seq<Chunk>, maxOutput: int)
    requires FitBuffer(script) && 0 < maxOutput <= MAX_INT - SLACK
    requires LogText(script, maxOutput).Some?
    ensures var text, full := LogText(script, maxOutput).value, TextOf(Stream(script));
            && (text == full || (text < full && |text| >= maxOutput + SLACK))
            && |text| < maxOutput + SLACK + BUF_SIZE
  {
    ReadIsBoundedPrefix(script, [], maxOutput + SLACK);
    assert [] + Stream(script) == Stream(script);
    assert Int64(maxOutput + SLACK) == maxOutput + SLACK;
  }

  lemma PrefixTruncatesAlike(text: seq<byte>, full: seq<byte>, maxOutput: int)
    requires text < full && 0 < maxOutput < |text|
    ensures KeptBody(text, maxOutput) == KeptBody(full, maxOutput)
    ensures Truncated(text, maxOutput) != Truncated(full, maxOutput)
  {
    PrefixKeepsAlike(text, full, maxOutput);
    MarkersDiffer(KeptBody(text, maxOutput), |text| - maxOutput, |full| - maxOutput);
  }

  lemma PrefixKeepsAlike(text: seq<byte>, full: seq<byte>, maxOutput: int)
    requires text < full && 0 < maxOutput < |text|
    ensures KeptBody(text, maxOutput) == KeptBody(full, maxOutput)
  {
    SameCut(text, full, maxOutput);
    var c := CutBack(text, maxOutput);
    assert text == full[..|text|] && text[..c] == full[..c];
  }

  lemma MarkersDiffer(kept: seq<byte>, m: nat, n: nat)
    requires m != n
    ensures kept + Marker(m) != kept + Marker(n)
  {
    if kept + Marker(m) == kept + Marker(n) {
      assert (kept + Marker(m))[|kept|..] == Marker(m) && (kept + Marker(n))[|kept|..] == Marker(n);
      MarkerInjective(m, n);
    }
  }

  lemma {:induction false} SameCut(s: seq<byte>, t: seq<byte>, cut: nat)
    requires s <= t && cut < |s|
    ensures CutBack(s, cut) == CutBack(t, cut)
  {
    if cut > 0 && !RuneStart(s[cut]) { SameCut(s, t, cut - 1); }
  }

  /** How much the reader delivers before the read that ends the stream. */
  function BytesBeforeEnd(script: seq<Chunk>): nat {
    if script == [] || script[0].err != NoErr then 0 else |script[0].data| + BytesBeforeEnd(script[1..])
  }

  lemma {:induction false} ReadFailsIff(script: seq<Chunk>, got: seq<byte>, maxBytes: int)
    ensures ReadResult(script, got, maxBytes).1 == ReadFailed <==>
            Fails(script) && |got| + BytesBeforeEnd(script) < maxBytes
  {
    if |got| < maxBytes && Next(script).err == NoErr {
      ReadFailsIff(Rest(script), got + Next(script).data, maxBytes);
    }
  }

  /** The read error is reported exactly when the stream fails and the limit is not reached before the
      failing read. */
  lemma ReadErrorIff(script: seq<Chunk>, maxOutput: int)
    requires 0 < maxOutput <= MAX_INT - SLACK
    ensures LogText(script, maxOutput).None? <==> Fails(script) && BytesBeforeEnd(script) < maxOutput + SLACK
  {
    ReadFailsIff(script, [], maxOutput + SLACK);
    assert Int64(maxOutput + SLACK) == maxOutput + SLACK;
  }

  /** The sizes and the text that stands for no logs, spelled out. */
  lemma LogsSpelledOut(script: seq<Chunk>, maxOutput: int)
    requires 0 < maxOutput <= 0x7FFF_FFFF_FFFF_FBFF
    requires forall c | c in script :: |c.data| <= 32_768
    ensures LogText(script, maxOutput).None? <==> Fails(script) && BytesBeforeEnd(script) < maxOutput + 1024
    ensures LogText(script, maxOutput).Some? ==>
              && |LogText(script, maxOutput).value| < maxOutput + 33_792
              && (Stream(script) == [] ==>
                    // "(no logs found)"
                    LogText(script, maxOutput).value ==
                      [0x28, 0x6E, 0x6F, 0x20, 0x6C, 0x6F, 0x67, 0x73, 0x20, 0x66, 0x6F, 0x75, 0x6E, 0x64, 0x29])
              && (Stream(script) != [] ==> LogText(script, maxOutput).value <= Stream(script))
  {
    ReadErrorIff(script, maxOutput);
    if LogText(script, maxOutput).Some? {
      BoundedText(script, maxOutput);
      NoLogsSpelledOut();
    }
  }

  lemma NoLogsSpelledOut()
    ensures Ascii(NO_LOGS) == [0x28, 0x6E, 0x6F, 0x20, 0x6C, 0x6F, 0x67, 0x73, 0x20, 0x66, 0x6F, 0x75, 0x6E, 0x64, 0x29]
  {}

  /** Above that range the limit wraps around to a negative number, nothing is read, and every stream
      is reported as having no logs. */
  lemma WrappedLimitLosesLogs(script: seq<Chunk>, maxOutput: int)
    requires MAX_INT - SLACK < maxOutput <= MAX_INT
    ensures LogText(script, maxOutput) == Some(Ascii(NO_LOGS))
  {
    assert Int64(maxOutput + SLACK) == maxOutput + SLACK - (MAX_UINT + 1) < 0;
  }
}
