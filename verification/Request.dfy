/** Requests, and the ids that merge them and find their answers. */
module Request {
  import opened Common

  /** A Rust string is its UTF-8 bytes. */
  type Bytes = seq<Byte>

  datatype Request =
    | ReadFile(path: Bytes)
    | ReadDir(path: Bytes)
    | Exec(argv: seq<Bytes>)
    | Http(url: Bytes, httpMethod: Bytes, headers: seq<(Bytes, Bytes)>)
  {
    /** Executed against the monitored host, not from the app itself. */
    predicate IsRemote() {
      !Http?
    }

    /** The host has a command for it: neither HTTP nor an empty argument vector. */
    predicate Served() {
      !Http? && (Exec? ==> argv != [])
    }
  }

  const MODULUS: nat := 0x1_0000_0000_0000_0000
  const OFFSET_BASIS: nat := 0xcbf2_9ce4_8422_2325
  const MULTIPLIER: nat := 0x1000_0000_01b3

  type Word = x: nat | x < MODULUS

  /** `hash ^= byte`: only the low eight bits of the hash can change. */
  function XorByte(hash: Word, b: Byte): Word {
    XorBound(hash % 256, b, 8);
    assert hash / 256 < MODULUS / 256;
    hash / 256 * 256 + Xor(hash % 256, b, 8)
  }

  /** Exclusive or of the low `bits` bits of two numbers. */
  function Xor(a: nat, b: nat, bits: nat): nat {
    if bits == 0 then 0 else (a + b) % 2 + 2 * Xor(a / 2, b / 2, bits - 1)
  }

  function Pow2(bits: nat): nat {
    if bits == 0 then 1 else 2 * Pow2(bits - 1)
  }

  lemma {:induction false} XorBound(a: nat, b: nat, bits: nat)
    ensures Xor(a, b, bits) < Pow2(bits)
    ensures Pow2(8) == 256
  {
    if bits > 0 {
      XorBound(a / 2, b / 2, bits - 1);
    }
  }

  function Scramble(hash: Word): Word {
    hash * MULTIPLIER % MODULUS
  }

  function Fed(hash: Word, bytes: Bytes): Word {
    if bytes == [] then hash
    else Scramble(XorByte(Fed(hash, bytes[..|bytes| - 1]), bytes[|bytes| - 1]))
  }

  method Feed(start: Word, bytes: Bytes) returns (hash: Word)
    ensures hash == Fed(start, bytes)
  {
    hash := start;
    assert bytes[..0] == [];
    for n := 0 to |bytes|
      invariant hash == Fed(start, bytes[..n])
    {
      assert bytes[..n + 1][..n] == bytes[..n];
      hash := XorByte(hash, bytes[n]);
      hash := Scramble(hash);
    }
    assert bytes[..|bytes|] == bytes;
  }

  // ---------------------------------------------------------------------------------------
  // The canonical encoding

  const NUL: Byte := 0

  function EncodeArgs(argv: seq<Bytes>): Bytes {
    if argv == [] then [] else argv[0] + [NUL] + EncodeArgs(argv[1..])
  }

  function EncodeHeaders(headers: seq<(Bytes, Bytes)>): Bytes {
    if headers == [] then [] else headers[0].0 + headers[0].1 + EncodeHeaders(headers[1..])
  }

  /** The bytes the hash is taken over. */
  function Encoding(request: Request): Bytes {
    match request
    case ReadFile(path) => [0x66, NUL] + path
    case ReadDir(path) => [0x64, NUL] + path
    case Exec(argv) => [0x78, NUL] + EncodeArgs(argv)
    case Http(url, httpMethod, headers) => [0x68, NUL] + (httpMethod + (url + EncodeHeaders(headers)))
  }

  function HashOf(request: Request): Word {
    Fed(OFFSET_BASIS, Encoding(request))
  }

  function IdOf(request: Request): string {
    Hex(HashOf(request), 16)
  }

  lemma {:induction false} FedConcat(hash: Word, a: Bytes, b: Bytes)
    ensures Fed(Fed(hash, a), b) == Fed(hash, a + b)
  {
    if b == [] {
      assert a + b == a;
    } else {
      FedConcat(hash, a, b[..|b| - 1]);
      assert (a + b)[..|a + b| - 1] == a + b[..|b| - 1];
    }
  }

  /** `Request::id`: feeds the parts one after another, then prints the hash as 16 hex digits. */
  method Id(request: Request) returns (id: string)
    ensures id == IdOf(request)
  {
    var hash: Word := OFFSET_BASIS;
    match request {
      case ReadFile(path) =>
        hash := Feed(hash, [0x66, NUL]);
        hash := Feed(hash, path);
        FedConcat(OFFSET_BASIS, [0x66, NUL], path);
      case ReadDir(path) =>
        hash := Feed(hash, [0x64, NUL]);
        hash := Feed(hash, path);
        FedConcat(OFFSET_BASIS, [0x64, NUL], path);
      case Exec(argv) =>
        hash := Feed(hash, [0x78, NUL]);
        hash := FeedArgs(hash, argv);
        FedConcat(OFFSET_BASIS, [0x78, NUL], EncodeArgs(argv));
      case Http(url, httpMethod, headers) =>
        hash := Feed(hash, [0x68, NUL]);
        hash := Feed(hash, httpMethod);
        hash := Feed(hash, url);
        hash := FeedHeaders(hash, headers);
        var prefix := Fed(OFFSET_BASIS, [0x68, NUL]);
        FedConcat(Fed(prefix, httpMethod), url, EncodeHeaders(headers));
        FedConcat(prefix, httpMethod, url + EncodeHeaders(headers));
        FedConcat(OFFSET_BASIS, [0x68, NUL], httpMethod + (url + EncodeHeaders(headers)));
    }
    id := Hex(hash, 16);
  }

  method FeedArgs(start: Word, argv: seq<Bytes>) returns (hash: Word)
    ensures hash == Fed(start, EncodeArgs(argv))
  {
    hash := start;
    assert argv[0..] == argv;
    for n := 0 to |argv|
      invariant Fed(hash, EncodeArgs(argv[n..])) == Fed(start, EncodeArgs(argv))
    {
      var arg, rest := argv[n], EncodeArgs(argv[n + 1..]);
      assert argv[n..][0] == arg && argv[n..][1..] == argv[n + 1..];
      FedConcat(hash, arg + [NUL], rest);
      FedConcat(hash, arg, [NUL]);
      hash := Feed(hash, arg);
      hash := Feed(hash, [NUL]);
    }
  }

  method FeedHeaders(start: Word, headers: seq<(Bytes, Bytes)>) returns (hash: Word)
    ensures hash == Fed(start, EncodeHeaders(headers))
  {
    hash := start;
    assert headers[0..] == headers;
    for n := 0 to |headers|
      invariant Fed(hash, EncodeHeaders(headers[n..])) == Fed(start, EncodeHeaders(headers))
    {
      var (key, value) := headers[n];
      assert headers[n..][0] == headers[n] && headers[n..][1..] == headers[n + 1..];
      FedConcat(hash, key + value, EncodeHeaders(headers[n + 1..]));
      FedConcat(hash, key, value);
      hash := Feed(hash, key);
      hash := Feed(hash, value);
    }
  }

  // ---------------------------------------------------------------------------------------
  // When two requests have the same encoding

  /** The NUL-terminated pieces of a byte string. */
  function Pieces(bytes: Bytes): seq<Bytes> {
    if bytes == [] then []
    else if bytes[0] == NUL then [[]] + Pieces(bytes[1..])
    else
      var rest := Pieces(bytes[1..]);
      if rest == [] then [bytes] else [[bytes[0]] + rest[0]] + rest[1..]
  }

  /** An argument vector with every argument split at its NUL bytes. */
  function SplitAtNuls(argv: seq<Bytes>): seq<Bytes> {
    if argv == [] then [] else Pieces(argv[0] + [NUL]) + SplitAtNuls(argv[1..])
  }

  /** An HTTP request run together: nothing separates method, URL and headers. */
  function Flattened(request: Request): Bytes
    requires request.Http?
  {
    request.httpMethod + (request.url + EncodeHeaders(request.headers))
  }

  /** What is left of a request once the boundaries the encoding does not mark are forgotten. */
  function Canonical(request: Request): Request {
    match request
    case Exec(argv) => Exec(SplitAtNuls(argv))
    case Http(_, _, _) => Http(Flattened(request), [], [])
    case _ => request
  }

  predicate NulFree(request: Request) {
    request.Exec? ==> forall arg :: arg in request.argv ==> NUL !in arg
  }

  /** The pieces of a byte string with one byte put in front. */
  function Prepended(first: Byte, pieces: seq<Bytes>): seq<Bytes> {
    if first == NUL then [[]] + pieces
    else if pieces == [] then [[first]]
    else [[first] + pieces[0]] + pieces[1..]
  }

  lemma PiecesStep(first: Byte, rest: Bytes)
    ensures Pieces([first] + rest) == Prepended(first, Pieces(rest))
  {
    assert ([first] + rest)[1..] == rest;
    assert Pieces(rest) == [] ==> [first] + rest == [first];
  }

  lemma PrependedConcat(first: Byte, pieces: seq<Bytes>, more: seq<Bytes>)
    requires pieces != []
    ensures Prepended(first, pieces + more) == Prepended(first, pieces) + more
  {
    assert (pieces + more)[0] == pieces[0] && (pieces + more)[1..] == pieces[1..] + more;
  }

  lemma {:induction false} PiecesNonEmpty(a: Bytes)
    requires a != []
    ensures Pieces(a) != []
  {
  }

  lemma {:induction false} PiecesConcat(a: Bytes, b: Bytes)
    ensures Pieces(a + [NUL] + b) == Pieces(a + [NUL]) + Pieces(b)
    ensures Pieces(a + [NUL]) != []
    decreases |a|
  {
    PiecesNonEmpty(a + [NUL]);
    if a == [] {
      assert a + [NUL] + b == [NUL] + b && a + [NUL] == [NUL] + [];
      PiecesStep(NUL, b);
      PiecesStep(NUL, []);
    } else {
      var tail := a[1..] + [NUL];
      PiecesConcat(a[1..], b);
      assert a + [NUL] + b == [a[0]] + (tail + b);
      assert a + [NUL] == [a[0]] + tail;
      PiecesStep(a[0], tail + b);
      PiecesStep(a[0], tail);
      PrependedConcat(a[0], Pieces(tail), Pieces(b));
    }
  }

  /** Splitting at NULs forgets nothing but where the argument boundaries were. */
  lemma {:induction false} PiecesRejoin(a: Bytes)
    ensures EncodeArgs(Pieces(a + [NUL])) == a + [NUL]
    decreases |a|
  {
    if a == [] {
      assert [NUL][1..] == [];
      assert Pieces([NUL]) == [[]];
    } else {
      var tail := a[1..] + [NUL];
      PiecesRejoin(a[1..]);
      PiecesNonEmpty(tail);
      PiecesStep(a[0], tail);
      EncodePrepended(a[0], Pieces(tail));
      assert a + [NUL] == [a[0]] + tail;
    }
  }

  lemma EncodePrepended(first: Byte, pieces: seq<Bytes>)
    requires pieces != []
    ensures EncodeArgs(Prepended(first, pieces)) == [first] + EncodeArgs(pieces)
  {
    var head, rest := pieces[0], pieces[1..];
    assert pieces == [head] + rest;
    EncodeArgsCons([], pieces);
    EncodeArgsCons([first] + head, rest);
    EncodeArgsCons(head, rest);
    assert [] + [NUL] + EncodeArgs(pieces) == [NUL] + EncodeArgs(pieces);
    assert [first] + head + [NUL] + EncodeArgs(rest) == [first] + (head + [NUL] + EncodeArgs(rest));
  }

  lemma EncodeArgsCons(arg: Bytes, argv: seq<Bytes>)
    ensures EncodeArgs([arg] + argv) == arg + [NUL] + EncodeArgs(argv)
  {
    assert ([arg] + argv)[1..] == argv;
  }

  lemma {:induction false} EncodeArgsConcat(a: seq<Bytes>, b: seq<Bytes>)
    ensures EncodeArgs(a + b) == EncodeArgs(a) + EncodeArgs(b)
  {
    if a == [] {
      assert a + b == b;
    } else {
      var head, rest := a[0], a[1..];
      EncodeArgsConcat(rest, b);
      EncodeArgsCons(head, rest + b);
      EncodeArgsCons(head, rest);
      Associative(head + [NUL], EncodeArgs(rest), EncodeArgs(b));
      assert a == [head] + rest && a + b == [head] + (rest + b);
    }
  }

  lemma {:induction false} SplitKeepsEncoding(argv: seq<Bytes>)
    ensures EncodeArgs(SplitAtNuls(argv)) == EncodeArgs(argv)
  {
    if argv != [] {
      SplitKeepsEncoding(argv[1..]);
      PiecesRejoin(argv[0]);
      EncodeArgsConcat(Pieces(argv[0] + [NUL]), SplitAtNuls(argv[1..]));
    }
  }

  lemma {:induction false} PiecesOfEncoding(argv: seq<Bytes>)
    ensures Pieces(EncodeArgs(argv)) == SplitAtNuls(argv)
  {
    if argv != [] {
      PiecesOfEncoding(argv[1..]);
      PiecesConcat(argv[0], EncodeArgs(argv[1..]));
    }
  }

  /** The encodings of two requests agree exactly when the requests do up to unmarked boundaries. */
  lemma EncodingsAgree(a: Request, b: Request)
    ensures Encoding(a) == Encoding(b) <==> Canonical(a) == Canonical(b)
  {
    var bodyA, bodyB := Encoding(a)[2..], Encoding(b)[2..];
    if Encoding(a) == Encoding(b) {
      assert Encoding(a)[0] == Encoding(b)[0];
      assert bodyA == bodyB;
    }
    if a.Exec? && b.Exec? {
      assert bodyA == EncodeArgs(a.argv) && bodyB == EncodeArgs(b.argv);
      PiecesOfEncoding(a.argv);
      PiecesOfEncoding(b.argv);
      SplitKeepsEncoding(a.argv);
      SplitKeepsEncoding(b.argv);
    } else if a.Http? && b.Http? {
      assert bodyA == Flattened(a) && bodyB == Flattened(b);
    } else if !a.Exec? && !a.Http? && !b.Exec? && !b.Http? {
      assert bodyA == a.path && bodyB == b.path;
    }
  }

  lemma {:induction false} NulFreeIsSplit(argv: seq<Bytes>)
    requires forall arg :: arg in argv ==> NUL !in arg
    ensures SplitAtNuls(argv) == argv
  {
    if argv != [] {
      NulFreeIsSplit(argv[1..]);
      NulFreePiece(argv[0]);
    }
  }

  lemma {:induction false} NulFreePiece(arg: Bytes)
    requires NUL !in arg
    ensures Pieces(arg + [NUL]) == [arg]
  {
    if arg == [] {
      assert [NUL][1..] == [];
    } else {
      NulFreePiece(arg[1..]);
      assert (arg + [NUL])[1..] == arg[1..] + [NUL];
      assert arg[0] in arg && [arg[0]] + arg[1..] == arg;
    }
  }

  /** On remote requests without NUL bytes the encoding is injective. */
  lemma EncodingIsInjective(a: Request, b: Request)
    requires a.IsRemote() && b.IsRemote() && NulFree(a) && NulFree(b)
    requires Encoding(a) == Encoding(b)
    ensures a == b
  {
    EncodingsAgree(a, b);
    if a.Exec? && b.Exec? {
      NulFreeIsSplit(a.argv);
      NulFreeIsSplit(b.argv);
    }
  }

  /** Off the remote requests it is not: method and URL of an HTTP request run together. */
  lemma HttpEncodingsCollide()
    ensures Http([0x62], [0x61], []) != Http([0x61, 0x62], [], [])
    ensures IdOf(Http([0x62], [0x61], [])) == IdOf(Http([0x61, 0x62], [], []))
  {
    var a, b := Http([0x62], [0x61], []), Http([0x61, 0x62], [], []);
    assert a.url != b.url;
    assert [0x61] + ([0x62] + EncodeHeaders([])) == [] + ([0x61, 0x62] + EncodeHeaders([]));
    assert Encoding(a) == Encoding(b);
  }

  /** The method and the headers take as many bytes in both, piece by piece. */
  predicate SameLayout(a: Request, b: Request)
    requires a.Http? && b.Http?
  {
    && |a.httpMethod| == |b.httpMethod|
    && |a.headers| == |b.headers|
    && forall k :: 0 <= k < |a.headers| ==>
         |a.headers[k].0| == |b.headers[k].0| && |a.headers[k].1| == |b.headers[k].1|
  }

  lemma {:induction false} SameLayoutHeaders(a: seq<(Bytes, Bytes)>, b: seq<(Bytes, Bytes)>)
    requires |a| == |b|
    requires forall k :: 0 <= k < |a| ==> |a[k].0| == |b[k].0| && |a[k].1| == |b[k].1|
    ensures |EncodeHeaders(a)| == |EncodeHeaders(b)|
    ensures EncodeHeaders(a) == EncodeHeaders(b) ==> a == b
  {
    if a != [] {
      SameLayoutHeaders(a[1..], b[1..]);
      if EncodeHeaders(a) == EncodeHeaders(b) {
        SamePrefix(a[0].0 + a[0].1, EncodeHeaders(a[1..]), b[0].0 + b[0].1, EncodeHeaders(b[1..]));
        SamePrefix(a[0].0, a[0].1, b[0].0, b[0].1);
        assert a == [a[0]] + a[1..] && b == [b[0]] + b[1..];
      }
    }
  }

  lemma SamePrefix(p: Bytes, x: Bytes, q: Bytes, y: Bytes)
    requires p + x == q + y && |p| == |q|
    ensures p == q && x == y
  {
    assert p == (p + x)[..|p|] && q == (q + y)[..|q|];
    assert x == (p + x)[|p|..] && y == (q + y)[|q|..];
  }

  /** HTTP requests laid out alike are encoded alike only if they are the same request. */
  lemma HttpAgreeIffEqual(a: Request, b: Request)
    requires a.Http? && b.Http? && SameLayout(a, b)
    ensures Encoding(a) == Encoding(b) <==> a == b
  {
    if Encoding(a) == Encoding(b) {
      SameLayoutHeaders(a.headers, b.headers);
      SamePrefix([0x68, NUL], Flattened(a), [0x68, NUL], Flattened(b));
      SamePrefix(a.httpMethod, a.url + EncodeHeaders(a.headers), b.httpMethod, b.url + EncodeHeaders(b.headers));
      SamePrefix(a.url, EncodeHeaders(a.headers), b.url, EncodeHeaders(b.headers));
    }
  }

  /** Nothing else is encoded like this request. */
  predicate Unambiguous(request: Request) {
    match request
    case Exec(argv) => |argv| <= 1 && NulFree(request)
    case Http(_, _, _) => false
    case _ => true
  }

  /**
   Some other request has the encoding of this one exactly when this one is HTTP, has two or more
   arguments, or has a NUL byte in its only one.
   */
  lemma TwinIff(request: Request)
    ensures (exists twin :: twin != request && Encoding(twin) == Encoding(request)) <==> !Unambiguous(request)
  {
    if Unambiguous(request) {
      forall twin | Encoding(twin) == Encoding(request) ensures twin == request {
        NoTwin(request, twin);
      }
    } else {
      var twin := TwinOf(request);
    }
  }

  lemma NoTwin(request: Request, twin: Request)
    requires Unambiguous(request) && Encoding(twin) == Encoding(request)
    ensures twin == request
  {
    EncodingsAgree(request, twin);
    if request.Exec? {
      SamePrefix([0x78, NUL], EncodeArgs(twin.argv), [0x78, NUL], EncodeArgs(request.argv));
      NoTwinArgs(request.argv, twin.argv);
    }
  }

  lemma EmptyEncoding(argv: seq<Bytes>)
    ensures EncodeArgs(argv) == [] <==> argv == []
  {
  }

  lemma NoTwinArgs(argv: seq<Bytes>, other: seq<Bytes>)
    requires |argv| <= 1 && (forall arg :: arg in argv ==> NUL !in arg)
    requires EncodeArgs(other) == EncodeArgs(argv)
    ensures other == argv
  {
    EmptyEncoding(other);
    if argv != [] {
      var arg := argv[0];
      OneArg(arg);
      assert argv == [arg];
      forall j | 0 <= j < |arg| ensures (arg + [NUL])[j] != NUL {
        assert arg[j] in arg && arg in argv;
      }
      var first, rest := other[0], EncodeArgs(other[1..]);
      assert (first + [NUL] + rest)[|first|] == NUL;
      SamePrefix(first + [NUL], rest, arg + [NUL], []);
      SamePrefix(first, [NUL], arg, [NUL]);
      EmptyEncoding(other[1..]);
      assert other == [first] + other[1..];
    }
  }

  lemma OneArg(arg: Bytes)
    ensures EncodeArgs([arg]) == arg + [NUL]
  {
    var argv := [arg];
    assert argv[1..] == [];
  }

  /** The other request: two arguments joined by a NUL, one split at it, or an empty header added. */
  lemma TwinOf(request: Request) returns (twin: Request)
    requires !Unambiguous(request)
    ensures twin != request && Encoding(twin) == Encoding(request)
  {
    if request.Http? {
      twin := request.(headers := [([], [])] + request.headers);
      assert twin.headers[1..] == request.headers;
      assert EncodeHeaders(twin.headers) == EncodeHeaders(request.headers);
      assert |twin.headers| != |request.headers|;
    } else if |request.argv| >= 2 {
      var a, b, rest := request.argv[0], request.argv[1], request.argv[2..];
      twin := Exec([a + [NUL] + b] + rest);
      assert request.argv == [a] + ([b] + rest) && request.argv[1..] == [b] + rest && ([b] + rest)[1..] == rest;
      assert twin.argv[1..] == rest;
      assert EncodeArgs(twin.argv) == EncodeArgs(request.argv);
      assert |twin.argv| != |request.argv|;
    } else {
      var arg := request.argv[0];
      var k :| 0 <= k < |arg| && arg[k] == NUL;
      var a, b := arg[..k], arg[k + 1..];
      twin := Exec([a, b]);
      assert arg == a + [NUL] + b && request.argv == [arg];
      OneArg(arg);
      OneArg(b);
      assert twin.argv[1..] == [b];
      assert EncodeArgs(twin.argv) == a + [NUL] + (b + [NUL]);
      assert EncodeArgs(twin.argv) == EncodeArgs(request.argv);
      assert |twin.argv| != |request.argv|;
    }
  }

  /** Two commands under one id: one argument with a NUL in it, and the two arguments it falls into. */
  lemma ServedIdsCollide() returns (a: Request, b: Request)
    ensures a.Served() && b.Served() && a != b && IdOf(a) == IdOf(b)
  {
    var x: Bytes, y: Bytes := [0x61], [0x62];
    a, b := Exec([x + [NUL] + y]), Exec([x, y]);
    OneArg(x + [NUL] + y);
    OneArg(y);
    assert [x, y][1..] == [y];
    assert EncodeArgs(b.argv) == x + [NUL] + (y + [NUL]);
    assert EncodeArgs(a.argv) == EncodeArgs(b.argv);
    assert |a.argv| != |b.argv|;
  }

  // ---------------------------------------------------------------------------------------
  // The hash loop

  const INVERSE: nat := 0xb46dd957aff6957b

  lemma {:induction false} ModularInverse(x: int, p: int, q: int, k: int, m: int)
    requires m > 0 && p * q == k * m + 1 && 0 <= x < m
    ensures x * p % m * q % m == x
  {
    var r, d := x * p % m, x * p / m;
    assert x * p == d * m + r;
    var t := x * k - d * q;
    calc {
      r * q;
      (x * p - d * m) * q;
      x * p * q - d * m * q;
      x * (p * q) - d * m * q;
      x * (k * m + 1) - d * m * q;
      x * k * m + x - d * q * m;
      (x * k - d * q) * m + x;
      t * m + x;
    }
    QuotientUnique(r * q, t, x, m);
  }

  lemma MultipleIsFar(d: int, m: int)
    requires m > 0
    ensures d >= 1 ==> d * m >= m
    ensures d <= -1 ==> d * m <= -m
  {
  }

  lemma QuotientUnique(n: int, t: int, x: int, m: int)
    requires m > 0 && n == t * m + x && 0 <= x < m
    ensures n % m == x
  {
    var q, r := n / m, n % m;
    assert n == q * m + r;
    assert (q - t) * m == x - r;
    MultipleIsFar(q - t, m);
  }

  lemma ScrambleInjective(a: Word, b: Word)
    requires Scramble(a) == Scramble(b)
    ensures a == b
  {
    assert MULTIPLIER * INVERSE == MULTIPLIER * INVERSE / MODULUS * MODULUS + 1;
    ModularInverse(a, MULTIPLIER, INVERSE, MULTIPLIER * INVERSE / MODULUS, MODULUS);
    ModularInverse(b, MULTIPLIER, INVERSE, MULTIPLIER * INVERSE / MODULUS, MODULUS);
  }

  lemma SameParity(x: nat, y: nat, z: nat, p: nat, q: nat)
    requires (x + y) % 2 + 2 * p == (x + z) % 2 + 2 * q
    ensures p == q && y % 2 == z % 2
  {
  }

  lemma {:induction false} XorCancels(x: nat, y: nat, z: nat, bits: nat)
    requires y < Pow2(bits) && z < Pow2(bits) && Xor(x, y, bits) == Xor(x, z, bits)
    ensures y == z
  {
    if bits > 0 {
      SameParity(x, y, z, Xor(x / 2, y / 2, bits - 1), Xor(x / 2, z / 2, bits - 1));
      XorCancels(x / 2, y / 2, z / 2, bits - 1);
    }
  }

  lemma {:induction false} XorCommutes(x: nat, y: nat, bits: nat)
    ensures Xor(x, y, bits) == Xor(y, x, bits)
  {
    if bits > 0 {
      XorCommutes(x / 2, y / 2, bits - 1);
    }
  }

  lemma XorByteParts(hash: Word, b: Byte)
    ensures XorByte(hash, b) / 256 == hash / 256
    ensures XorByte(hash, b) % 256 == Xor(hash % 256, b, 8)
  {
    XorBound(hash % 256, b, 8);
  }

  /** Bit `k` of a number, the lowest being bit 0. */
  function Bit(n: nat, k: nat): nat {
    if k == 0 then n % 2 else Bit(n / 2, k - 1)
  }

  /** Exclusive or, bit by bit. */
  lemma {:induction false} XorIsBitwise(a: nat, b: nat, bits: nat, k: nat)
    requires k < bits
    ensures Bit(Xor(a, b, bits), k) == if Bit(a, k) == Bit(b, k) then 0 else 1
  {
    XorHalves(a, b, bits);
    if k > 0 {
      XorIsBitwise(a / 2, b / 2, bits - 1, k - 1);
      BitAbove(Xor(a, b, bits), k);
      BitAbove(a, k);
      BitAbove(b, k);
    }
  }

  lemma BitAbove(n: nat, k: nat)
    requires k > 0
    ensures Bit(n, k) == Bit(n / 2, k - 1)
  {
  }

  /** The lowest bit of the exclusive or, and the others. */
  lemma XorHalves(a: nat, b: nat, bits: nat)
    requires bits > 0
    ensures Xor(a, b, bits) % 2 == (if a % 2 == b % 2 then 0 else 1)
    ensures Xor(a, b, bits) / 2 == Xor(a / 2, b / 2, bits - 1)
  {
    LowestBit((a + b) % 2, Xor(a / 2, b / 2, bits - 1));
  }

  lemma LowestBit(low: nat, high: nat)
    requires low < 2
    ensures (low + 2 * high) % 2 == low && (low + 2 * high) / 2 == high
  {
  }

  /** A byte goes into the low eight bits of the hash, bit by bit, and leaves the others alone. */
  lemma ByteGoesInLow(hash: Word, b: Byte, k: nat)
    requires k < 8
    ensures XorByte(hash, b) / 256 == hash / 256
    ensures Bit(XorByte(hash, b) % 256, k) == if Bit(hash % 256, k) == Bit(b, k) then 0 else 1
  {
    XorByteParts(hash, b);
    XorIsBitwise(hash % 256, b, 8, k);
  }

  /** Two hashes fed the same byte stay different; one hash fed different bytes splits. */
  lemma StepInjective(h: Word, k: Word, b: Byte, c: Byte)
    requires (h != k && b == c) || (h == k && b != c)
    ensures Scramble(XorByte(h, b)) != Scramble(XorByte(k, c))
  {
    if Scramble(XorByte(h, b)) == Scramble(XorByte(k, c)) {
      ScrambleInjective(XorByte(h, b), XorByte(k, c));
      XorByteParts(h, b);
      XorByteParts(k, c);
      XorBound(0, 0, 8);
      if h == k {
        XorCancels(h % 256, b, c, 8);
      } else {
        XorCommutes(h % 256, b, 8);
        XorCommutes(k % 256, b, 8);
        XorCancels(b, h % 256, k % 256, 8);
      }
    }
  }

  lemma {:induction false} SuffixKeepsDifference(h: Word, k: Word, suffix: Bytes)
    requires h != k
    ensures Fed(h, suffix) != Fed(k, suffix)
  {
    if suffix != [] {
      SuffixKeepsDifference(h, k, suffix[..|suffix| - 1]);
      var b := suffix[|suffix| - 1];
      StepInjective(Fed(h, suffix[..|suffix| - 1]), Fed(k, suffix[..|suffix| - 1]), b, b);
    }
  }

  /** Equal-length encodings that differ in exactly one byte never hash alike. */
  lemma OneByteDifferenceIsSeen(a: Bytes, b: Bytes, i: nat)
    requires |a| == |b| && i < |a| && a[i] != b[i]
    requires forall j :: 0 <= j < |a| && j != i ==> a[j] == b[j]
    ensures Fed(OFFSET_BASIS, a) != Fed(OFFSET_BASIS, b)
  {
    assert a == a[..i + 1] + a[i + 1..] && b == b[..i + 1] + b[i + 1..];
    assert a[i + 1..] == b[i + 1..] && a[..i + 1][..i] == a[..i] == b[..i] == b[..i + 1][..i];
    StepInjective(Fed(OFFSET_BASIS, a[..i]), Fed(OFFSET_BASIS, b[..i]), a[i], b[i]);
    SuffixKeepsDifference(Fed(OFFSET_BASIS, a[..i + 1]), Fed(OFFSET_BASIS, b[..i + 1]), a[i + 1..]);
    FedConcat(OFFSET_BASIS, a[..i + 1], a[i + 1..]);
    FedConcat(OFFSET_BASIS, b[..i + 1], b[i + 1..]);
  }

  // ---------------------------------------------------------------------------------------
  // The printed id

  const HEX: string := "0123456789abcdef"

  /** The low `digits` hex digits of a number, zero-padded. */
  function Hex(n: nat, digits: nat): (s: string)
    ensures |s| == digits && forall c :: c in s ==> c in HEX
  {
    if digits == 0 then "" else Hex(n / 16, digits - 1) + [HEX[n % 16]]
  }

  function Unhex(s: string): nat {
    if s == "" then 0 else Unhex(s[..|s| - 1]) * 16 + DigitValue(s[|s| - 1])
  }

  function DigitValue(c: char): nat {
    if '0' <= c <= '9' then c as int - '0' as int
    else if 'a' <= c <= 'f' then c as int - 'a' as int + 10
    else 0
  }

  function Pow16(digits: nat): nat {
    if digits == 0 then 1 else 16 * Pow16(digits - 1)
  }

  lemma DigitOfHex(d: nat)
    requires d < 16
    ensures DigitValue(HEX[d]) == d
  {
  }

  lemma UnhexSnoc(s: string, c: char)
    ensures Unhex(s + [c]) == Unhex(s) * 16 + DigitValue(c)
  {
    assert (s + [c])[..|s|] == s;
  }

  lemma {:induction false} UnhexHex(n: nat, digits: nat)
    requires n < Pow16(digits)
    ensures Unhex(Hex(n, digits)) == n
  {
    if digits > 0 {
      assert n / 16 < Pow16(digits - 1);
      UnhexHex(n / 16, digits - 1);
      UnhexSnoc(Hex(n / 16, digits - 1), HEX[n % 16]);
      DigitOfHex(n % 16);
    }
  }

  /** An id is 16 lower-case hex digits, and they determine the hash. */
  lemma IdDeterminesHash(a: Request, b: Request)
    ensures |IdOf(a)| == 16 && (forall c :: c in IdOf(a) ==> c in HEX)
    ensures Unhex(IdOf(a)) == HashOf(a)
    ensures IdOf(a) == IdOf(b) <==> HashOf(a) == HashOf(b)
  {
    assert Pow16(16) == MODULUS by {
      assert Pow16(4) == 0x1_0000;
      assert Pow16(8) == 0x1_0000_0000;
      assert Pow16(12) == 0x1_0000_0000_0000;
    }
    UnhexHex(HashOf(a), 16);
    UnhexHex(HashOf(b), 16);
  }

  // ---------------------------------------------------------------------------------------
  // Responses

  datatype Response = Response(exitCode: int, body: string)

  /** Everything a batch returned, keyed by request id. */
  datatype Responses = Responses(byId: map<string, Response>)
  {
    function Get(request: Request): Option<Response> {
      if IdOf(request) in byId then Some(byId[IdOf(request)]) else None
    }

    /** What a parser gets to see: nothing, unless the request was answered with exit code 0. */
    function Text(request: Request): (text: Option<string>)
      ensures text.Some? <==> Get(request).Some? && Get(request).value.exitCode == 0
      ensures text.Some? ==> text.value == Get(request).value.body
    {
      match Get(request)
      case Some(response) => if response.exitCode == 0 then Some(response.body) else None
      case None => None
    }
  }
}
