/** The pairing handshake: the offer a QR code carries, the key exchange, and the sealed channel. */
module Pairing {
  import opened Common
  import opened Text
  import Base64
  import Decimal

  const VERSION: Byte := 1
  const MAX_CODE_BYTES: nat := 4096
  const MAX_ADDRESSES: nat := 32

  type Key = s: seq<Byte> | |s| == 32 witness seq(32, _ => 0)
  type PairingNonce = s: seq<Byte> | |s| == 16 witness seq(16, _ => 0)
  type SealNonce = s: seq<Byte> | |s| == 12 witness seq(12, _ => 0)

  datatype SyncError =
    | Malformed(what: string)
    | Version(version: string)
    | Handshake(what: string)
    | Crypto(what: string)
    | Transfer(what: string)

  // ---------------------------------------------------------------------------------------
  // The offer

  datatype Offer = Offer(publicKey: Key, nonce: PairingNonce, addresses: seq<string>)

  function Encode(offer: Offer): string {
    "SG" + Decimal.Print(VERSION) + ":" + Base64.Encode(offer.publicKey) + ":" + Base64.Encode(offer.nonce) + ":"
    + Join(offer.addresses, ',')
  }

  /** `split_once(':')` */
  function SplitOnce(s: string): Option<(string, string)> {
    var i := IndexOf(s, ':');
    if i == |s| then None else Some((s[..i], s[i + 1..]))
  }

  /** Trim every part and drop the empty ones. */
  function Addresses(parts: seq<string>): seq<string> {
    if parts == [] then []
    else (if Trim(parts[0]) == "" then [] else [Trim(parts[0])]) + Addresses(parts[1..])
  }

  function DecodeSized(text: string, size: nat): Option<seq<Byte>> {
    match Base64.Decode(text)
    case Some(bytes) => if |bytes| == size then Some(bytes) else None
    case None => None
  }

  function Decode(text: string): Result<Offer, SyncError> {
    DecodeTrimmed(Trim(text))
  }

  function DecodeTrimmed(t: string): Result<Offer, SyncError> {
    if Utf8Len(t) > MAX_CODE_BYTES then Err(Malformed("pairing code is too large"))
    else if !("SG" <= t) then Err(Malformed("not a ServerGlass pairing code"))
    else match SplitOnce(t[2..])
      case None => Err(Malformed("truncated pairing code"))
      case Some((version, body)) =>
        if version != Decimal.Print(VERSION) then Err(Version(version)) else DecodeBody(body)
  }

  function DecodeBody(body: string): Result<Offer, SyncError> {
    match SplitOnce(body)
    case None => Err(Malformed("no nonce"))
    case Some((key, afterKey)) =>
      match SplitOnce(afterKey)
      case None => Err(Malformed("no address"))
      case Some((nonce, list)) => DecodeParts(key, nonce, list)
  }

  function DecodeParts(key: string, nonce: string, list: string): Result<Offer, SyncError> {
    match (DecodeSized(key, 32), DecodeSized(nonce, 16))
    case (None, _) => Err(Malformed("bad key"))
    case (_, None) => Err(Malformed("bad nonce"))
    case (Some(k), Some(n)) =>
      var addresses := Addresses(Split(list, ','));
      if addresses == [] then Err(Malformed("no address"))
      else if |addresses| > MAX_ADDRESSES then Err(Malformed("too many pairing addresses"))
      else Ok(Offer(k, n, addresses))
  }

  /** What an address must be to survive the comma-separated list. */
  predicate Plain(address: string) {
    address != "" && IsTrimmed(address) && ',' !in address
  }

  predicate AllPlain(addresses: seq<string>) {
    forall a :: a in addresses ==> Plain(a)
  }

  predicate Sendable(offer: Offer) {
    && 1 <= |offer.addresses| <= MAX_ADDRESSES
    && AllPlain(offer.addresses)
    && Utf8Len(Encode(offer)) <= MAX_CODE_BYTES
  }

  lemma {:induction false} AddressesArePlain(parts: seq<string>)
    requires forall p :: p in parts ==> ',' !in p
    ensures AllPlain(Addresses(parts))
  {
    if parts != [] {
      assert parts[0] in parts;
      assert forall p :: p in parts[1..] ==> p in parts;
      AddressesArePlain(parts[1..]);
      TrimTrims(parts[0]);
      TrimKeepsOut(parts[0], ',');
    }
  }

  lemma TrimKeepsOut(s: string, c: char)
    requires c !in s
    ensures c !in Trim(s)
  {
    TrimStartIsSuffix(s);
    TrimEndIsPrefix(TrimStart(s));
  }

  lemma {:induction false} PlainStay(addresses: seq<string>)
    requires AllPlain(addresses)
    ensures Addresses(addresses) == addresses
  {
    if addresses != [] {
      assert addresses[0] in addresses && Plain(addresses[0]);
      assert forall a :: a in addresses[1..] ==> a in addresses;
      TrimmedStays(addresses[0]);
      PlainStay(addresses[1..]);
    }
  }

  /** Whatever decodes has between 1 and 32 plain addresses. */
  lemma DecodedIsPlain(body: string)
    requires DecodeBody(body).Ok?
    ensures 1 <= |DecodeBody(body).value.addresses| <= MAX_ADDRESSES && AllPlain(DecodeBody(body).value.addresses)
  {
    var (_, afterKey) := SplitOnce(body).value;
    var (_, list) := SplitOnce(afterKey).value;
    AddressesArePlain(Split(list, ','));
  }

  lemma SplitOnceIs(head: string, tail: string)
    requires ':' !in head
    ensures SplitOnce(head + ":" + tail) == Some((head, tail))
  {
    var s := head + ":" + tail;
    assert forall j :: 0 <= j < |head| ==> s[j] == head[j];
    IndexOfIs(s, ':', |head|);
    assert s[..|head|] == head && s[|head| + 1..] == tail;
  }

  lemma NoColon(bytes: seq<Byte>)
    ensures ':' !in Base64.Encode(bytes)
  {
    Base64.EncodeShape(bytes);
  }

  function Body(offer: Offer): string {
    Base64.Encode(offer.publicKey) + ":" + (Base64.Encode(offer.nonce) + ":" + Join(offer.addresses, ','))
  }

  lemma VersionPrints()
    ensures Decimal.Print(VERSION) == "1"
  {
  }

  lemma Regroup(version: string, key: string, nonce: string, list: string)
    ensures "SG" + version + ":" + key + ":" + nonce + ":" + list
         == "SG" + (version + ":" + (key + ":" + (nonce + ":" + list)))
  {
    var tail := nonce + ":" + list;
    assert key + ":" + nonce + ":" + list == key + ":" + tail;
    var body := key + ":" + tail;
    assert version + ":" + key + ":" + nonce + ":" + list == version + ":" + body;
  }

  /** What follows the first two letters of a code splits into version and body. */
  lemma CodeSplits(version: string, body: string)
    requires ':' !in version
    ensures var code := "SG" + (version + ":" + body); "SG" <= code && SplitOnce(code[2..]) == Some((version, body))
  {
    var code := "SG" + (version + ":" + body);
    assert code[2..] == version + ":" + body;
    SplitOnceIs(version, body);
  }

  lemma EncodeParts(offer: Offer)
    ensures Encode(offer) == "SG" + ("1" + ":" + Body(offer))
    ensures "SG" <= Encode(offer)
    ensures SplitOnce(Encode(offer)[2..]) == Some(("1", Body(offer)))
  {
    VersionPrints();
    Regroup("1", Base64.Encode(offer.publicKey), Base64.Encode(offer.nonce), Join(offer.addresses, ','));
    CodeSplits("1", Body(offer));
  }

  lemma PartsDecode(offer: Offer)
    requires 1 <= |offer.addresses| <= MAX_ADDRESSES && AllPlain(offer.addresses)
    ensures DecodeParts(Base64.Encode(offer.publicKey), Base64.Encode(offer.nonce), Join(offer.addresses, ',')) == Ok(offer)
  {
    Base64.DecodeEncode(offer.publicKey);
    Base64.DecodeEncode(offer.nonce);
    assert forall a :: a in offer.addresses ==> Plain(a);
    SplitJoin(offer.addresses, ',');
    PlainStay(offer.addresses);
  }

  lemma BodySplits(key: string, nonce: string, list: string)
    requires ':' !in key && ':' !in nonce
    ensures DecodeBody(key + ":" + (nonce + ":" + list)) == DecodeParts(key, nonce, list)
  {
    SplitOnceIs(key, nonce + ":" + list);
    SplitOnceIs(nonce, list);
  }

  lemma BodyDecodes(offer: Offer)
    requires 1 <= |offer.addresses| <= MAX_ADDRESSES && AllPlain(offer.addresses)
    ensures DecodeBody(Body(offer)) == Ok(offer)
  {
    NoColon(offer.publicKey);
    NoColon(offer.nonce);
    BodySplits(Base64.Encode(offer.publicKey), Base64.Encode(offer.nonce), Join(offer.addresses, ','));
    PartsDecode(offer);
  }

  lemma {:induction false} JoinEndsPlain(addresses: seq<string>)
    requires addresses != [] && AllPlain(addresses)
    ensures var list := Join(addresses, ','); list != "" && !IsWhitespace(list[|list| - 1])
  {
    assert addresses[0] in addresses && Plain(addresses[0]);
    if |addresses| > 1 {
      assert forall a :: a in addresses[1..] ==> a in addresses;
      JoinEndsPlain(addresses[1..]);
    }
  }

  lemma EndOfConcat(front: string, back: string)
    requires back != ""
    ensures (front + back)[|front + back| - 1] == back[|back| - 1]
  {
  }

  lemma TrimmedCode(tail: string)
    requires tail != "" && !IsWhitespace(tail[|tail| - 1])
    ensures Trim("SG" + tail) == "SG" + tail
  {
    EndOfConcat("SG", tail);
    assert ("SG" + tail)[0] == 'S';
    TrimmedStays("SG" + tail);
  }

  lemma BodyEndsPlain(offer: Offer)
    requires offer.addresses != [] && AllPlain(offer.addresses)
    ensures var body := Body(offer); body != "" && !IsWhitespace(body[|body| - 1])
  {
    var list := Join(offer.addresses, ',');
    JoinEndsPlain(offer.addresses);
    EndOfConcat(Base64.Encode(offer.nonce) + ":", list);
    EndOfConcat(Base64.Encode(offer.publicKey) + ":", Base64.Encode(offer.nonce) + ":" + list);
  }

  lemma EncodedIsTrimmed(offer: Offer)
    requires offer.addresses != [] && AllPlain(offer.addresses)
    ensures Trim(Encode(offer)) == Encode(offer)
  {
    EncodeParts(offer);
    BodyEndsPlain(offer);
    EndOfConcat("1" + ":", Body(offer));
    TrimmedCode("1" + ":" + Body(offer));
  }

  /** An encoding in good shape decodes if and only if it is not too long. */
  lemma PlainRoundTrip(offer: Offer)
    requires 1 <= |offer.addresses| <= MAX_ADDRESSES && AllPlain(offer.addresses)
    ensures Decode(Encode(offer)) == Ok(offer) <==> Utf8Len(Encode(offer)) <= MAX_CODE_BYTES
  {
    EncodedIsTrimmed(offer);
    EncodeParts(offer);
    VersionPrints();
    BodyDecodes(offer);
  }

  lemma OkIsPlain(text: string)
    requires Decode(text).Ok?
    ensures var addresses := Decode(text).value.addresses; 1 <= |addresses| <= MAX_ADDRESSES && AllPlain(addresses)
  {
    var body := DecodedParts(Trim(text));
    DecodedIsPlain(body);
  }

  /**
   An offer survives the trip through a QR code exactly when it has 1 to 32 non-empty, trimmed,
   comma-free addresses and fits in 4096 bytes; colons in an address never matter.
   */
  lemma OfferRoundTrip(offer: Offer)
    ensures Decode(Encode(offer)) == Ok(offer) <==> Sendable(offer)
    ensures Sendable(offer)
       <==> 1 <= |offer.addresses| <= 32 && AllPlain(offer.addresses) && Utf8Len(Encode(offer)) <= 4096
  {
    if Decode(Encode(offer)) == Ok(offer) {
      OkIsPlain(Encode(offer));
    }
    if 1 <= |offer.addresses| <= MAX_ADDRESSES && AllPlain(offer.addresses) {
      PlainRoundTrip(offer);
    }
  }

  lemma {:induction false} AddressesShrink(parts: seq<string>)
    ensures Utf8Len(Join(Addresses(parts), ',')) <= Utf8Len(Join(parts, ','))
  {
    if parts != [] {
      AddressesShrink(parts[1..]);
      TrimShrinks(parts[0]);
      var head, rest := Trim(parts[0]), Addresses(parts[1..]);
      if |parts| > 1 {
        JoinLength(parts[0], parts[1..]);
      }
      if head == "" {
        assert Addresses(parts) == rest;
      } else if rest == [] {
        assert Addresses(parts) == [head];
      } else {
        JoinLength(head, rest);
      }
    }
  }

  lemma JoinLength(head: string, rest: seq<string>)
    requires rest != []
    ensures Utf8Len(Join([head] + rest, ',')) == Utf8Len(head) + 1 + Utf8Len(Join(rest, ','))
  {
    assert ([head] + rest)[1..] == rest;
    Utf8LenConcat(head + ",", Join(rest, ','));
    Utf8LenConcat(head, ",");
    assert Utf8Len(",") == 1 by {
      assert ","[1..] == "";
    }
  }

  lemma SplitOnceParts(s: string)
    requires SplitOnce(s).Some?
    ensures var (head, tail) := SplitOnce(s).value; s == head + ":" + tail
  {
  }

  lemma PrefixedLength(key: string, nonce: string, list: string, shorter: string)
    requires Utf8Len(shorter) <= Utf8Len(list)
    ensures Utf8Len(key + ":" + (nonce + ":" + shorter)) <= Utf8Len(key + ":" + (nonce + ":" + list))
  {
    Utf8LenConcat(key + ":", nonce + ":" + list);
    Utf8LenConcat(key + ":", nonce + ":" + shorter);
    Utf8LenConcat(nonce + ":", list);
    Utf8LenConcat(nonce + ":", shorter);
  }

  /** Re-encoding what was decoded never takes more bytes than the code it came from. */
  lemma BodyShrinks(body: string)
    requires DecodeBody(body).Ok?
    ensures Utf8Len(Body(DecodeBody(body).value)) <= Utf8Len(body)
  {
    var offer := DecodeBody(body).value;
    var (key, afterKey) := SplitOnce(body).value;
    var (nonce, list) := SplitOnce(afterKey).value;
    SplitOnceParts(body);
    SplitOnceParts(afterKey);
    Base64.EncodeDecode(key);
    Base64.EncodeDecode(nonce);
    AddressesShrink(Split(list, ','));
    JoinSplit(list, ',');
    PrefixedLength(key, nonce, list, Join(offer.addresses, ','));
  }

  lemma SplitsBack(t: string)
    requires "SG" <= t && SplitOnce(t[2..]).Some?
    ensures var (version, body) := SplitOnce(t[2..]).value;
      t == "SG" + (version + ":" + body) && ':' !in version
  {
    SplitOnceParts(t[2..]);
    assert t == t[..2] + t[2..];
  }

  /** What a text that decodes consists of. */
  lemma DecodedParts(t: string) returns (body: string)
    requires DecodeTrimmed(t).Ok?
    ensures t == "SG" + ("1" + ":" + body) && DecodeBody(body) == DecodeTrimmed(t)
    ensures Utf8Len(t) <= MAX_CODE_BYTES
  {
    VersionPrints();
    body := SplitOnce(t[2..]).value.1;
    SplitsBack(t);
  }

  lemma CodeLength(body: string)
    ensures Utf8Len("SG" + ("1" + ":" + body)) == 4 + Utf8Len(body)
  {
    Utf8LenConcat("SG", "1" + ":" + body);
    Utf8LenConcat("1" + ":", body);
    assert Utf8Len("SG") == 2 && Utf8Len("1" + ":") == 2 by {
      assert "SG"[1..] == "G" && "G"[1..] == "" && ("1" + ":")[1..] == ":" && ":"[1..] == "";
    }
  }

  lemma DecodedIsSendable(body: string)
    requires DecodeBody(body).Ok? && Utf8Len("SG" + ("1" + ":" + body)) <= MAX_CODE_BYTES
    ensures Sendable(DecodeBody(body).value)
  {
    var offer := DecodeBody(body).value;
    DecodedIsPlain(body);
    BodyShrinks(body);
    EncodeParts(offer);
    CodeLength(body);
    CodeLength(Body(offer));
  }

  /** Any text that decodes re-encodes to text that decodes to the same offer. */
  lemma DecodeIsStable(text: string)
    requires Decode(text).Ok?
    ensures Decode(Encode(Decode(text).value)) == Decode(text)
  {
    var body := DecodedParts(Trim(text));
    DecodedIsSendable(body);
    OfferRoundTrip(Decode(text).value);
  }

  /** Trimmed text that claims another format version, and which one. */
  ghost predicate ClaimsVersion(t: string, version: string) {
    && Utf8Len(t) <= MAX_CODE_BYTES && ':' !in version && version != "1"
    && exists body: string :: t == "SG" + (version + ":" + body)
  }

  /** A code from a newer device is refused by naming its version, and nothing else is refused that way. */
  lemma FutureVersionsAreNamed(text: string, version: string)
    ensures Decode(text) == Err(Version(version)) <==> ClaimsVersion(Trim(text), version)
  {
    VersionErrorMeans(Trim(text), version);
    if DecodeTrimmed(Trim(text)) == Err(Version(version)) {
      VersionSplits(Trim(text), version);
    } else if ClaimsVersion(Trim(text), version) {
      VersionIsSplitOff(Trim(text), version);
    }
  }

  lemma BodyHasNoVersion(body: string, version: string)
    ensures DecodeBody(body) != Err(Version(version))
  {
  }

  lemma VersionErrorMeans(t: string, version: string)
    ensures DecodeTrimmed(t) == Err(Version(version))
       <==> && Utf8Len(t) <= MAX_CODE_BYTES && "SG" <= t
            && SplitOnce(t[2..]).Some? && SplitOnce(t[2..]).value.0 == version && version != "1"
  {
    VersionPrints();
    if "SG" <= t && SplitOnce(t[2..]).Some? {
      BodyHasNoVersion(SplitOnce(t[2..]).value.1, version);
    }
  }

  lemma VersionIsSplitOff(t: string, version: string)
    requires ClaimsVersion(t, version)
    ensures "SG" <= t && SplitOnce(t[2..]).Some? && SplitOnce(t[2..]).value.0 == version
  {
    var body: string :| t == "SG" + (version + ":" + body);
    CodeSplits(version, body);
  }

  lemma VersionSplits(t: string, version: string)
    requires "SG" <= t && SplitOnce(t[2..]).Some? && SplitOnce(t[2..]).value.0 == version
    ensures ':' !in version && exists body: string :: t == "SG" + (version + ":" + body)
  {
    SplitsBack(t);
  }

  // ---------------------------------------------------------------------------------------
  // The handshake

  /** The primitives, as functions: key agreement, key derivation, authenticated encryption. */
  datatype Suite<!Secret> = Suite(
    publicKey: Secret -> Key,
    agree: (Secret, Key) -> Key,
    contributory: Key -> bool,
    expand: (seq<Byte>, Key, string, nat) -> Option<seq<Byte>>,
    encrypt: (Key, SealNonce, seq<Byte>) -> Option<seq<Byte>>,
    decrypt: (Key, SealNonce, seq<Byte>) -> Option<seq<Byte>>)

  /** Section 6.1 of RFC 7748: both sides compute the same shared secret. */
  ghost predicate AgreementCommutes<Secret(!new)>(suite: Suite<Secret>) {
    forall a, b :: suite.agree(a, suite.publicKey(b)) == suite.agree(b, suite.publicKey(a))
  }

  /** Section 2.8 of RFC 8439: decryption inverts encryption, and the tag adds 16 bytes. */
  ghost predicate CipherInverts<Secret>(suite: Suite<Secret>) {
    forall key: Key, nonce: SealNonce, plain: seq<Byte> ::
      suite.encrypt(key, nonce, plain).Some? ==>
        && suite.decrypt(key, nonce, suite.encrypt(key, nonce, plain).value) == Some(plain)
        && |suite.encrypt(key, nonce, plain).value| == |plain| + 16
  }

  datatype Session = Session(key: Key, code: nat)

  function FromBigEndian(bytes: seq<Byte>): nat {
    if bytes == [] then 0 else FromBigEndian(bytes[..|bytes| - 1]) * 256 + bytes[|bytes| - 1]
  }

  function Transcript(offerer: Key, accepter: Key, nonce: PairingNonce): seq<Byte> {
    [VERSION] + offerer + accepter + nonce
  }

  /** The transcript fixes the version, both public keys, whose is whose, and the nonce of the offer. */
  lemma TranscriptReadsBack(offerer: Key, accepter: Key, nonce: PairingNonce)
    ensures var t := Transcript(offerer, accepter, nonce);
      |t| == 81 && t[0] == 1 && t[1..33] == offerer && t[33..65] == accepter && t[65..] == nonce
  {
  }

  /** Two exchanges are salted alike only if they are the same exchange; in swapped roles they are another. */
  lemma TranscriptsTellExchangesApart(
      a: Key, b: Key, nonce: PairingNonce, c: Key, d: Key, other: PairingNonce)
    ensures Transcript(a, b, nonce) == Transcript(c, d, other) <==> a == c && b == d && nonce == other
    ensures Transcript(a, b, nonce) == Transcript(b, a, nonce) <==> a == b
  {
    TranscriptReadsBack(a, b, nonce);
    TranscriptReadsBack(c, d, other);
    TranscriptReadsBack(b, a, nonce);
  }

  function Complete<Secret>(suite: Suite<Secret>, secret: Secret, nonce: PairingNonce, theirs: Key, offering: bool)
    : Result<Session, SyncError>
  {
    var shared, ours := suite.agree(secret, theirs), suite.publicKey(secret);
    if !suite.contributory(shared) then Err(Handshake("the other device sent an unusable key"))
    else
      var transcript := if offering then Transcript(ours, theirs, nonce) else Transcript(theirs, ours, nonce);
      match (suite.expand(transcript, shared, "serverglass pairing key", 32),
             suite.expand(transcript, shared, "serverglass verification code", 4))
      case (Some(key), Some(sas)) =>
        if |key| == 32 && |sas| == 4 then Ok(Session(key, FromBigEndian(sas) % 1_000_000))
        else Err(Handshake("key derivation failed"))
      case _ => Err(Handshake("key derivation failed"))
  }

  /** The device showing the code and the device that scanned it derive the same key and code. */
  lemma BothSidesAgree<Secret(!new)>(suite: Suite<Secret>, offerer: Secret, accepter: Secret, nonce: PairingNonce)
    requires AgreementCommutes(suite)
    ensures Complete(suite, offerer, nonce, suite.publicKey(accepter), true)
         == Complete(suite, accepter, nonce, suite.publicKey(offerer), false)
  {
  }

  /**
   A handshake succeeds exactly if the peer's key contributes and both derivations yield their bytes. The
   session's key and code are then derived from the shared secret, salted with the offerer's key before
   the accepter's, and the code is six decimal digits.
   */
  lemma HandshakeDerives<Secret>(suite: Suite<Secret>, secret: Secret, nonce: PairingNonce, theirs: Key, offering: bool)
    ensures var r := Complete(suite, secret, nonce, theirs, offering);
      var shared, ours := suite.agree(secret, theirs), suite.publicKey(secret);
      var salt := if offering then [1] + ours + theirs + nonce else [1] + theirs + ours + nonce;
      var key := suite.expand(salt, shared, "serverglass pairing key", 32);
      var sas := suite.expand(salt, shared, "serverglass verification code", 4);
      && (r.Ok? <==> suite.contributory(shared) && key.Some? && |key.value| == 32 && sas.Some? && |sas.value| == 4)
      && (!suite.contributory(shared) ==> r == Err(Handshake("the other device sent an unusable key")))
      && (r.Ok? ==>
            && r.value.key == key.value
            && r.value.code < 1_000_000
            && r.value.code == Word32(sas.value[0], sas.value[1], sas.value[2], sas.value[3]) % 1_000_000)
  {
    var shared, ours := suite.agree(secret, theirs), suite.publicKey(secret);
    var salt := if offering then Transcript(ours, theirs, nonce) else Transcript(theirs, ours, nonce);
    var sas := suite.expand(salt, shared, "serverglass verification code", 4);
    if sas.Some? && |sas.value| == 4 {
      FourBytes(sas.value);
    }
  }

  /** Four bytes as a number, the first one counting most. */
  function Word32(a: nat, b: nat, c: nat, d: nat): nat {
    0x100_0000 * a + 0x1_0000 * b + 0x100 * c + d
  }

  lemma FourBytes(b: seq<Byte>)
    requires |b| == 4
    ensures FromBigEndian(b) == Word32(b[0], b[1], b[2], b[3])
  {
    assert b[..3][..2] == b[..2] && b[..2][..1] == b[..1] && b[..1][..0] == [];
    assert FromBigEndian(b[..1]) == b[0];
    assert FromBigEndian(b[..2]) == Word32(0, 0, b[0], b[1]);
    assert FromBigEndian(b[..3]) == Word32(0, b[0], b[1], b[2]);
  }

  // ---------------------------------------------------------------------------------------
  // The code people compare

  /** `{:06}` */
  function SixDigits(code: nat): string {
    var digits := Decimal.Print(code);
    if |digits| >= 6 then digits else seq(6 - |digits|, _ => '0') + digits
  }

  /** In two groups, as in `042 913`. */
  function Shown(session: Session): string
    requires |SixDigits(session.code)| >= 3
  {
    SixDigits(session.code)[..3] + " " + SixDigits(session.code)[3..]
  }

  lemma {:induction false} PrintLength(n: nat, digits: nat, bound: nat)
    requires digits >= 1 && bound == Power10(digits) && n < bound
    ensures |Decimal.Print(n)| <= digits
  {
    if n >= 10 {
      assert digits > 1;
      PrintLength(n / 10, digits - 1, Power10(digits - 1));
    }
  }

  function Power10(n: nat): nat {
    if n == 0 then 1 else 10 * Power10(n - 1)
  }

  lemma {:induction false} LeadingZeros(k: nat, digits: string)
    ensures Decimal.Value(seq(k, _ => '0') + digits) == Decimal.Value(digits)
    decreases |digits|, k
  {
    var padded := seq(k, _ => '0') + digits;
    if digits == "" {
      if k > 0 {
        LeadingZeros(k - 1, "");
        assert padded[..k - 1] == seq(k - 1, _ => '0') + "";
      } else {
        assert padded == "";
      }
    } else {
      LeadingZeros(k, digits[..|digits| - 1]);
      assert padded[..|padded| - 1] == seq(k, _ => '0') + digits[..|digits| - 1];
    }
  }

  /** Six digits in two groups of three, and they are the code. */
  lemma ShownIsTheCode(session: Session)
    requires session.code < 1_000_000
    ensures |SixDigits(session.code)| == 6 && |Shown(session)| == 7 && Shown(session)[3] == ' '
    ensures Decimal.Value(Shown(session)[..3] + Shown(session)[4..]) == Some(session.code)
  {
    assert Power10(6) == 1_000_000 by {
      assert Power10(3) == 1_000;
    }
    PrintLength(session.code, 6, 1_000_000);
    var digits := Decimal.Print(session.code);
    Decimal.ValueOfPrint(session.code);
    LeadingZeros(6 - |digits|, digits);
    assert SixDigits(session.code) == seq(6 - |digits|, _ => '0') + digits;
    var six := SixDigits(session.code);
    assert Shown(session)[..3] + Shown(session)[4..] == six;
  }

  /** Two screens show the same text exactly when they hold the same code. */
  lemma SameScreenSameCode(a: Session, b: Session)
    requires a.code < 1_000_000 && b.code < 1_000_000
    ensures |SixDigits(a.code)| == 6 && |SixDigits(b.code)| == 6
    ensures Shown(a) == Shown(b) <==> a.code == b.code
  {
    ShownIsTheCode(a);
    ShownIsTheCode(b);
  }

  // ---------------------------------------------------------------------------------------
  // Sealing

  function Seal<Secret>(suite: Suite<Secret>, session: Session, nonce: SealNonce, plain: seq<Byte>)
    : Result<seq<Byte>, SyncError>
  {
    match suite.encrypt(session.key, nonce, plain)
    case Some(body) => Ok(nonce + body)
    case None => Err(Crypto("could not encrypt the transfer"))
  }

  function Open<Secret>(suite: Suite<Secret>, session: Session, sealed: seq<Byte>): Result<seq<Byte>, SyncError> {
    if |sealed| < 12 then Err(Crypto("the transfer was truncated"))
    else match suite.decrypt(session.key, sealed[..12], sealed[12..])
      case Some(plain) => Ok(plain)
      case None => Err(Crypto("the transfer could not be decrypted"))
  }

  /** What opens is a nonce and a ciphertext that decrypts under it; everything else is refused. */
  lemma OpensIff<Secret>(suite: Suite<Secret>, session: Session, nonce: SealNonce, body: seq<Byte>)
    ensures Open(suite, session, nonce + body)
         == match suite.decrypt(session.key, nonce, body)
            case Some(plain) => Ok(plain)
            case None => Err(Crypto("the transfer could not be decrypted"))
    ensures forall short: seq<Byte> :: |short| < 12 ==>
              Open(suite, session, short) == Err(Crypto("the transfer was truncated"))
  {
    assert (nonce + body)[..12] == nonce && (nonce + body)[12..] == body;
  }

  /** What one side seals the other opens, and sealing costs 28 bytes. */
  lemma OpenInvertsSeal<Secret>(suite: Suite<Secret>, sender: Session, receiver: Session, nonce: SealNonce, plain: seq<Byte>)
    requires CipherInverts(suite) && sender.key == receiver.key
    requires Seal(suite, sender, nonce, plain).Ok?
    ensures Open(suite, receiver, Seal(suite, sender, nonce, plain).value) == Ok(plain)
    ensures |Seal(suite, sender, nonce, plain).value| == |plain| + 28
    ensures Seal(suite, sender, nonce, plain).value[..12] == nonce
  {
    var body := suite.encrypt(sender.key, nonce, plain).value;
    assert (nonce + body)[..12] == nonce && (nonce + body)[12..] == body;
  }
}
