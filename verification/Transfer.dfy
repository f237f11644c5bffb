/** Carrying the sealed payload between two paired devices: a big-endian length, then the bytes. */
module Transfer {
  import opened Common
  import opened Pairing

  const MAX_TRANSFER: nat := 0x10_0000

  const TOO_LARGE: SyncError := SyncError.Transfer("the inventory is too large to send")
  const STOPPED_EARLY: SyncError := SyncError.Transfer("the transfer stopped early")
  const TOO_MUCH: SyncError := SyncError.Transfer("the other device offered more than an inventory could be")

  /** `u32::to_be_bytes` */
  function BigEndian(n: U32): (bytes: seq<Byte>)
    ensures |bytes| == 4
  {
    [n / 0x100_0000, n / 0x1_0000 % 0x100, n / 0x100 % 0x100, n % 0x100]
  }

  lemma FromBigEndianSnoc(bytes: seq<Byte>, b: Byte)
    ensures FromBigEndian(bytes + [b]) == FromBigEndian(bytes) * 256 + b
  {
    assert (bytes + [b])[..|bytes|] == bytes;
  }

  lemma BigEndianRoundTrip(n: U32)
    ensures FromBigEndian(BigEndian(n)) == n
  {
    var b := BigEndian(n);
    FromBigEndianSnoc([], b[0]);
    FromBigEndianSnoc([b[0]], b[1]);
    FromBigEndianSnoc([b[0], b[1]], b[2]);
    FromBigEndianSnoc([b[0], b[1], b[2]], b[3]);
    assert [] + [b[0]] == [b[0]] && [b[0]] + [b[1]] == [b[0], b[1]];
    assert [b[0], b[1]] + [b[2]] == [b[0], b[1], b[2]] && [b[0], b[1], b[2]] + [b[3]] == b;
    BytesOf(n);
  }

  /** A number from its four bytes. */
  lemma BytesOf(n: nat)
    ensures ((n / 0x100_0000 * 256 + n / 0x1_0000 % 0x100) * 256 + n / 0x100 % 0x100) * 256 + n % 0x100 == n
  {
    assert n / 0x100 / 0x100 == n / 0x1_0000 && n / 0x1_0000 / 0x100 == n / 0x100_0000;
  }

  // ---------------------------------------------------------------------------------------
  // The stream

  function Flat(chunks: seq<seq<Byte>>): seq<Byte> {
    if chunks == [] then [] else chunks[0] + Flat(chunks[1..])
  }

  lemma {:induction false} FlatAppend(chunks: seq<seq<Byte>>, bytes: seq<Byte>)
    ensures Flat(chunks + [bytes]) == Flat(chunks) + bytes
  {
    if chunks == [] {
      assert (chunks + [bytes])[1..] == [];
    } else {
      assert (chunks + [bytes])[1..] == chunks[1..] + [bytes];
      FlatAppend(chunks[1..], bytes);
    }
  }

  lemma FlatCons(piece: seq<Byte>, rest: seq<seq<Byte>>)
    ensures Flat([piece] + rest) == piece + Flat(rest)
  {
    assert ([piece] + rest)[1..] == rest;
  }

  /** Moving a whole piece, or the front of one, into the buffer leaves the bytes in order. */
  lemma PieceTaken(buffer: seq<Byte>, piece: seq<Byte>, rest: seq<seq<Byte>>, room: nat)
    requires room <= |piece|
    ensures buffer + Flat([piece] + rest) == (buffer + piece[..room]) + Flat([piece[room..]] + rest)
    ensures buffer + Flat([piece] + rest) == (buffer + piece) + Flat(rest)
  {
    FlatCons(piece, rest);
    FlatCons(piece[room..], rest);
    assert piece == piece[..room] + piece[room..];
  }

  lemma SplitPoint(front: seq<Byte>, back: seq<Byte>, n: nat)
    requires |front| == n
    ensures (front + back)[..n] == front && (front + back)[n..] == back
  {
  }

  /** Bytes in flight, in whatever pieces the network delivers them. */
  class ByteStream {
    var chunks: seq<seq<Byte>>

    constructor (chunks: seq<seq<Byte>>)
      ensures this.chunks == chunks
    {
      this.chunks := chunks;
    }

    method WriteAll(bytes: seq<Byte>)
      modifies this
      ensures Flat(chunks) == old(Flat(chunks)) + bytes
    {
      FlatAppend(chunks, bytes);
      chunks := chunks + [bytes];
    }

    /** Fill a buffer of `n` bytes, taking as much of the next piece as fits each time. */
    method ReadExact(n: nat) returns (r: Result<seq<Byte>, SyncError>)
      modifies this
      ensures |old(Flat(chunks))| >= n ==> r == Ok(old(Flat(chunks))[..n]) && Flat(chunks) == old(Flat(chunks))[n..]
      ensures |old(Flat(chunks))| < n ==> r == Err(STOPPED_EARLY)
    {
      ghost var all := Flat(chunks);
      var buffer: seq<Byte> := [];
      while |buffer| < n
        invariant |buffer| <= n && buffer + Flat(chunks) == all
        decreases n - |buffer| + |chunks|
      {
        if chunks == [] {
          assert buffer == all;
          return Err(STOPPED_EARLY);
        }
        var piece, rest := chunks[0], chunks[1..];
        assert chunks == [piece] + rest;
        var room := n - |buffer|;
        PieceTaken(buffer, piece, rest, if |piece| <= room then 0 else room);
        if |piece| <= room {
          buffer := buffer + piece;
          chunks := rest;
        } else {
          buffer := buffer + piece[..room];
          chunks := [piece[room..]] + rest;
        }
      }
      SplitPoint(buffer, Flat(chunks), n);
      return Ok(buffer);
    }
  }

  // ---------------------------------------------------------------------------------------
  // Sending and receiving

  function Frame(sealed: seq<Byte>): seq<Byte>
    requires |sealed| <= U32_MAX
  {
    BigEndian(|sealed|) + sealed
  }

  /** What the sender puts on the wire, or why it will not. */
  function Sent<Secret>(suite: Suite<Secret>, session: Session, nonce: SealNonce, plain: seq<Byte>)
    : Result<seq<Byte>, SyncError>
  {
    if |plain| > MAX_TRANSFER - 28 then Err(TOO_LARGE)
    else match Seal(suite, session, nonce, plain)
      case Err(error) => Err(error)
      case Ok(sealed) => if |sealed| > U32_MAX then Err(TOO_LARGE) else Ok(Frame(sealed))
  }

  /** What the receiver makes of the bytes on the wire. */
  function Received<Secret>(suite: Suite<Secret>, session: Session, wire: seq<Byte>): Result<seq<Byte>, SyncError> {
    if |wire| < 4 then Err(STOPPED_EARLY)
    else
      var length := FromBigEndian(wire[..4]);
      if length > MAX_TRANSFER then Err(TOO_MUCH)
      else if |wire| - 4 < length then Err(STOPPED_EARLY)
      else Open(suite, session, wire[4..4 + length])
  }

  method WritePayload<Secret>(suite: Suite<Secret>, session: Session, nonce: SealNonce, stream: ByteStream, plain: seq<Byte>)
    returns (r: Result<(), SyncError>)
    modifies stream
    ensures match Sent(suite, session, nonce, plain)
      case Ok(wire) => r == Ok(()) && Flat(stream.chunks) == old(Flat(stream.chunks)) + wire
      case Err(error) => r == Err(error) && Flat(stream.chunks) == old(Flat(stream.chunks))
  {
    if |plain| > MAX_TRANSFER - 28 {
      return Err(TOO_LARGE);
    }
    var sealed := Seal(suite, session, nonce, plain);
    if sealed.Err? {
      return Err(sealed.error);
    }
    if |sealed.value| > U32_MAX {
      return Err(TOO_LARGE);
    }
    ghost var before := Flat(stream.chunks);
    var length := BigEndian(|sealed.value|);
    stream.WriteAll(length);
    stream.WriteAll(sealed.value);
    assert before + length + sealed.value == before + (length + sealed.value);
    return Ok(());
  }

  method AcceptTransfer<Secret>(suite: Suite<Secret>, session: Session, stream: ByteStream)
    returns (r: Result<seq<Byte>, SyncError>)
    modifies stream
    ensures r == Received(suite, session, old(Flat(stream.chunks)))
  {
    ghost var wire := Flat(stream.chunks);
    var header := stream.ReadExact(4);
    if header.Err? {
      return Err(header.error);
    }
    var length := FromBigEndian(header.value);
    if length > MAX_TRANSFER {
      return Err(TOO_MUCH);
    }
    var sealed := stream.ReadExact(length);
    if sealed.Err? {
      return Err(sealed.error);
    }
    assert sealed.value == wire[4..][..length] == wire[4..4 + length];
    return Open(suite, session, sealed.value);
  }

  /**
   Whatever the sender accepts arrives: the sealed form is 28 bytes longer, never over the
   receiver's limit, and opens to the same bytes, whatever follows it on the stream.
   */
  lemma SentIsReceived<Secret>(
      suite: Suite<Secret>, sender: Session, receiver: Session, nonce: SealNonce, plain: seq<Byte>, after: seq<Byte>)
    requires CipherInverts(suite) && sender.key == receiver.key
    requires Sent(suite, sender, nonce, plain).Ok?
    ensures var wire := Sent(suite, sender, nonce, plain).value;
      && |wire| == 4 + |plain| + 28 && |plain| + 28 <= MAX_TRANSFER
      && FromBigEndian(wire[..4]) == |plain| + 28
      && Received(suite, receiver, wire + after) == Ok(plain)
  {
    var sealed := Seal(suite, sender, nonce, plain).value;
    OpenInvertsSeal(suite, sender, receiver, nonce, plain);
    BigEndianRoundTrip(|sealed|);
    var wire := Frame(sealed);
    assert wire[..4] == BigEndian(|sealed|);
    assert (wire + after)[..4] == wire[..4];
    assert (wire + after)[4..4 + |sealed|] == sealed;
  }

  /** What arrives is told by the length announced: too much, too little, or the sealed bytes, whatever follows them. */
  lemma ReceivedByLength<Secret>(suite: Suite<Secret>, session: Session, n: U32, rest: seq<Byte>)
    ensures Received(suite, session, BigEndian(n) + rest)
         == if n > 1_048_576 then Err(TOO_MUCH)
            else if |rest| < n then Err(STOPPED_EARLY)
            else Open(suite, session, rest[..n])
  {
    var wire := BigEndian(n) + rest;
    BigEndianRoundTrip(n);
    assert wire[..4] == BigEndian(n);
    if |rest| >= n {
      assert wire[4..4 + n] == rest[..n];
    }
  }

  /** The sender's limit is exact: it refuses what the receiver would, and nothing else. */
  lemma SenderLimitIsTheReceivers<Secret>(suite: Suite<Secret>, session: Session, nonce: SealNonce, plain: seq<Byte>)
    requires CipherInverts(suite) && Seal(suite, session, nonce, plain).Ok?
    ensures |Seal(suite, session, nonce, plain).value| <= 1_048_576 <==> Sent(suite, session, nonce, plain).Ok?
    ensures |plain| + 28 > 1_048_576 ==> Sent(suite, session, nonce, plain) == Err(TOO_LARGE)
  {
    OpenInvertsSeal(suite, session, session, nonce, plain);
  }

  /**
   Pairing to payload: if both devices complete the handshake on one offer, a plaintext the sender
   accepts reaches the other side intact however the network cuts the stream up.
   */
  method DeliverAcrossAnyChunking<Secret(!new)>(
      suite: Suite<Secret>, offerer: Secret, accepter: Secret, pairing: PairingNonce, nonce: SealNonce,
      plain: seq<Byte>, stream: ByteStream)
    returns (r: Result<seq<Byte>, SyncError>)
    requires AgreementCommutes(suite) && CipherInverts(suite)
    requires Complete(suite, offerer, pairing, suite.publicKey(accepter), true).Ok?
    requires var session := Complete(suite, offerer, pairing, suite.publicKey(accepter), true).value;
      Sent(suite, session, nonce, plain).Ok? && Flat(stream.chunks) == Sent(suite, session, nonce, plain).value
    modifies stream
    ensures r == Ok(plain)
  {
    BothSidesAgree(suite, offerer, accepter, pairing);
    var session := Complete(suite, accepter, pairing, suite.publicKey(offerer), false).value;
    SentIsReceived(suite, session, session, nonce, plain, []);
    assert Flat(stream.chunks) + [] == Flat(stream.chunks);
    r := AcceptTransfer(suite, session, stream);
  }
}
