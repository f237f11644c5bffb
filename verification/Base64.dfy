/** Unpadded URL-safe Base64: section 5 of RFC 4648, with padding omitted as section 3.2 allows. */
module Base64 {
  import opened Common

  type Sextet = x: nat | x < 64

  // ---------------------------------------------------------------------------------------
  // The alphabet

  predicate InAlphabet(c: char) {
    'A' <= c <= 'Z' || 'a' <= c <= 'z' || '0' <= c <= '9' || c == '-' || c == '_'
  }

  function CharOf(v: Sextet): (c: char)
    ensures InAlphabet(c)
  {
    if v < 26 then 'A' + v as char
    else if v < 52 then 'a' + (v - 26) as char
    else if v < 62 then '0' + (v - 52) as char
    else if v == 62 then '-' else '_'
  }

  function SextetOf(c: char): Sextet
    requires InAlphabet(c)
  {
    if 'A' <= c <= 'Z' then c as int - 'A' as int
    else if 'a' <= c <= 'z' then c as int - 'a' as int + 26
    else if '0' <= c <= '9' then c as int - '0' as int + 52
    else if c == '-' then 62 else 63
  }

  function Chars(sextets: seq<Sextet>): string {
    if sextets == [] then "" else [CharOf(sextets[0])] + Chars(sextets[1..])
  }

  function Sextets(s: string): Option<seq<Sextet>> {
    if s == "" then Some([])
    else
      match Sextets(s[1..])
      case Some(rest) => if InAlphabet(s[0]) then Some([SextetOf(s[0])] + rest) else None
      case None => None
  }

  lemma {:induction false} SextetsOfChars(sextets: seq<Sextet>)
    ensures Sextets(Chars(sextets)) == Some(sextets)
    ensures |Chars(sextets)| == |sextets|
    ensures forall c :: c in Chars(sextets) ==> InAlphabet(c)
  {
    if sextets != [] {
      SextetsOfChars(sextets[1..]);
      assert Chars(sextets)[1..] == Chars(sextets[1..]);
      assert sextets == [sextets[0]] + sextets[1..];
    }
  }

  lemma {:induction false} CharsOfSextets(s: string)
    requires Sextets(s).Some?
    ensures Chars(Sextets(s).value) == s
  {
    if s != "" {
      CharsOfSextets(s[1..]);
      assert Sextets(s).value[1..] == Sextets(s[1..]).value;
    }
  }

  // ---------------------------------------------------------------------------------------
  // Regrouping bits

  /** Three bytes as four sextets. */
  function Pack(x: Byte, y: Byte, z: Byte): (Sextet, Sextet, Sextet, Sextet) {
    (x / 4, x % 4 * 16 + y / 16, y % 16 * 4 + z / 64, z % 64)
  }

  function Unpack(a: Sextet, b: Sextet, c: Sextet, d: Sextet): (Byte, Byte, Byte) {
    (a * 4 + b / 16, b % 16 * 16 + c / 4, c % 4 * 64 + d)
  }

  lemma Low4(p: nat, q: nat)
    requires q < 4
    ensures (p * 4 + q) / 4 == p && (p * 4 + q) % 4 == q
  {
  }

  lemma Low16(p: nat, q: nat)
    requires q < 16
    ensures (p * 16 + q) / 16 == p && (p * 16 + q) % 16 == q
  {
  }

  lemma Low64(p: nat, q: nat)
    requires q < 64
    ensures (p * 64 + q) / 64 == p && (p * 64 + q) % 64 == q
  {
  }

  lemma UnpackPack(x: Byte, y: Byte, z: Byte)
    ensures var (a, b, c, d) := Pack(x, y, z); Unpack(a, b, c, d) == (x, y, z)
    ensures z == 0 ==> Pack(x, y, z).3 == 0
    ensures y == 0 && z == 0 ==> Pack(x, y, z).2 == 0
  {
    Low16(x % 4, y / 16);
    Low4(y % 16, z / 64);
  }

  lemma PackUnpack(a: Sextet, b: Sextet, c: Sextet, d: Sextet)
    ensures var (x, y, z) := Unpack(a, b, c, d); Pack(x, y, z) == (a, b, c, d)
    ensures c == 0 && d == 0 ==> Unpack(a, b, c, d).2 == 0
  {
    var (x, y, z) := Unpack(a, b, c, d);
    Low4(a, b / 16);
    Low16(b % 16, c / 4);
    Low64(c % 4, d);
    Rejoin(b, 16);
    Rejoin(c, 4);
    assert x / 4 == a && x % 4 == b / 16;
    assert y / 16 == b % 16 && y % 16 == c / 4;
    assert z / 64 == c % 4 && z % 64 == d;
  }

  lemma Rejoin(n: nat, m: nat)
    requires m > 0
    ensures n / m * m + n % m == n
  {
  }

  /** A last group of one or two bytes is cut short after its meaningful sextets. */
  function Split(bytes: seq<Byte>): seq<Sextet> {
    if |bytes| == 0 then []
    else if |bytes| == 1 then var (a, b, _, _) := Pack(bytes[0], 0, 0); [a, b]
    else if |bytes| == 2 then var (a, b, c, _) := Pack(bytes[0], bytes[1], 0); [a, b, c]
    else var (a, b, c, d) := Pack(bytes[0], bytes[1], bytes[2]); [a, b, c, d] + Split(bytes[3..])
  }

  /** Strict: a short last group must leave no bits over. */
  function Joined(s: seq<Sextet>): Option<seq<Byte>> {
    if |s| == 0 then Some([])
    else if |s| == 1 then None
    else if |s| == 2 then var (x, y, _) := Unpack(s[0], s[1], 0, 0); if y == 0 then Some([x]) else None
    else if |s| == 3 then var (x, y, z) := Unpack(s[0], s[1], s[2], 0); if z == 0 then Some([x, y]) else None
    else
      match Joined(s[4..])
      case Some(rest) => var (x, y, z) := Unpack(s[0], s[1], s[2], s[3]); Some([x, y, z] + rest)
      case None => None
  }

  lemma {:induction false} JoinedSplit(bytes: seq<Byte>)
    ensures Joined(Split(bytes)) == Some(bytes)
    ensures |Split(bytes)| == (4 * |bytes| + 2) / 3
  {
    if |bytes| == 1 {
      UnpackPack(bytes[0], 0, 0);
      assert bytes == [bytes[0]];
    } else if |bytes| == 2 {
      UnpackPack(bytes[0], bytes[1], 0);
      assert bytes == [bytes[0], bytes[1]];
    } else if |bytes| > 2 {
      UnpackPack(bytes[0], bytes[1], bytes[2]);
      JoinedSplit(bytes[3..]);
      assert Split(bytes)[4..] == Split(bytes[3..]);
      assert bytes == [bytes[0], bytes[1], bytes[2]] + bytes[3..];
    }
  }

  lemma {:induction false} SplitJoined(s: seq<Sextet>)
    requires Joined(s).Some?
    ensures Split(Joined(s).value) == s
  {
    if |s| == 2 {
      PackUnpack(s[0], s[1], 0, 0);
      assert s == [s[0], s[1]];
    } else if |s| == 3 {
      PackUnpack(s[0], s[1], s[2], 0);
      assert s == [s[0], s[1], s[2]];
    } else if |s| > 3 {
      PackUnpack(s[0], s[1], s[2], s[3]);
      SplitJoined(s[4..]);
      assert Joined(s).value[3..] == Joined(s[4..]).value;
      assert s == [s[0], s[1], s[2], s[3]] + s[4..];
    }
  }

  // ---------------------------------------------------------------------------------------
  // The code

  function Encode(bytes: seq<Byte>): string {
    Chars(Split(bytes))
  }

  function Decode(s: string): Option<seq<Byte>> {
    match Sextets(s)
    case Some(sextets) => Joined(sextets)
    case None => None
  }

  /** Decoding what was encoded gives the bytes back. */
  lemma DecodeEncode(bytes: seq<Byte>)
    ensures Decode(Encode(bytes)) == Some(bytes)
  {
    SextetsOfChars(Split(bytes));
    JoinedSplit(bytes);
  }

  /** Every byte string has one encoding: whatever decodes is the encoding of what it decodes to. */
  lemma EncodeDecode(s: string)
    requires Decode(s).Some?
    ensures Encode(Decode(s).value) == s
  {
    CharsOfSextets(s);
    SplitJoined(Sextets(s).value);
  }

  lemma EncodeShape(bytes: seq<Byte>)
    ensures |Encode(bytes)| == (4 * |bytes| + 2) / 3
    ensures forall c :: c in Encode(bytes) ==> InAlphabet(c)
  {
    SextetsOfChars(Split(bytes));
    JoinedSplit(bytes);
  }

  // ---------------------------------------------------------------------------------------
  // What the standard says

  /** Examples of section 10 of RFC 4648, without their padding, and the two characters that make it URL-safe. */
  lemma StandardExamples()
    ensures Encode([0x66]) == "Zg" && Encode([0x66, 0x6f]) == "Zm8"
    ensures Encode([0x66, 0x6f, 0x6f]) == "Zm9v"
    ensures Encode([0xfb, 0xff]) == "-_8"
  {
    TwoChars(0x66);
    ThreeChars(0x66, 0x6f);
    ThreeChars(0xfb, 0xff);
    FourChars(0x66, 0x6f, 0x6f);
  }

  lemma TwoChars(x: Byte)
    ensures var (a, b, _, _) := Pack(x, 0, 0); Encode([x]) == [CharOf(a), CharOf(b)]
  {
    var (a, b, _, _) := Pack(x, 0, 0);
    CharsCons(b, []);
    CharsCons(a, [b]);
    assert [a] + [b] == [a, b] && [b] + [] == [b];
  }

  lemma ThreeChars(x: Byte, y: Byte)
    ensures var (a, b, c, _) := Pack(x, y, 0); Encode([x, y]) == [CharOf(a), CharOf(b), CharOf(c)]
  {
    var (a, b, c, _) := Pack(x, y, 0);
    CharsCons(c, []);
    CharsCons(b, [c]);
    CharsCons(a, [b, c]);
    assert [a] + [b, c] == [a, b, c] && [b] + [c] == [b, c] && [c] + [] == [c];
  }

  lemma FourChars(x: Byte, y: Byte, z: Byte)
    ensures var (a, b, c, d) := Pack(x, y, z); Encode([x, y, z]) == [CharOf(a), CharOf(b), CharOf(c), CharOf(d)]
  {
    OneGroup(x, y, z, []);
    assert [x, y, z] + [] == [x, y, z] && Encode([]) == [];
  }

  lemma CharsCons(v: Sextet, rest: seq<Sextet>)
    ensures Chars([v] + rest) == [CharOf(v)] + Chars(rest)
  {
    assert ([v] + rest)[1..] == rest;
  }

  /** Three bytes are four characters, and the rest follows. */
  lemma OneGroup(x: Byte, y: Byte, z: Byte, rest: seq<Byte>)
    ensures var (a, b, c, d) := Pack(x, y, z);
      Encode([x, y, z] + rest) == [CharOf(a), CharOf(b), CharOf(c), CharOf(d)] + Encode(rest)
  {
    var bytes := [x, y, z] + rest;
    var (a, b, c, d) := Pack(x, y, z);
    assert bytes[3..] == rest && Split(bytes) == [a, b, c, d] + Split(rest);
    CharsCons(d, Split(rest));
    CharsCons(c, [d] + Split(rest));
    CharsCons(b, [c] + ([d] + Split(rest)));
    CharsCons(a, [b] + ([c] + ([d] + Split(rest))));
    assert [a, b, c, d] + Split(rest) == [a] + ([b] + ([c] + ([d] + Split(rest))));
  }
}
