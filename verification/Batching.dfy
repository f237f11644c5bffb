/** One merged batch stands for fetching each source's requests separately. */
module Batching {
  import opened Common
  import opened Request
  import opened Collector
  import Rate

  /** The host as a fixed function of what it is asked. */
  type Host = Request -> Response

  /** A batch: one response per id, the first request with it deciding; what the host cannot serve is skipped. */
  function Batch(requests: seq<Request>, host: Host): Responses {
    if requests == [] then Responses(map[])
    else
      var n := |requests| - 1;
      var before, id := Batch(requests[..n], host), IdOf(requests[n]);
      if !requests[n].Served() || id in before.byId then before
      else Responses(before.byId[id := host(requests[n])])
  }

  /** The answer a request deserves: the host's own, or none if the host cannot serve it. */
  function Deserved(request: Request, host: Host): Option<Response> {
    if request.Served() then Some(host(request)) else None
  }

  /** Two requests share an id, and the host serves at least one of them. */
  ghost predicate Collides(a: Request, b: Request) {
    a != b && IdOf(a) == IdOf(b) && (a.Served() || b.Served())
  }

  ghost predicate NoCollisions(requests: seq<Request>) {
    forall a, b :: a in requests && b in requests ==> !Collides(a, b)
  }

  /** Both answer maps say the same about everything this source declared. */
  ghost predicate AgreeOn(requests: seq<Request>, a: Responses, b: Responses) {
    forall r :: r in requests ==> a.Get(r) == b.Get(r)
  }

  /** A source that looks only at the answers to its own declared requests. */
  ghost predicate ReadsOnlyItsOwn(source: Source, ctx: Context) {
    forall a: Responses, b: Responses, atMs: I64 ::
      AgreeOn(source.requests(ctx), a, b) ==> source.parse(ctx, a, atMs) == source.parse(ctx, b, atMs)
  }

  /** The request a batch answers for an id. */
  function Answering(requests: seq<Request>, id: string): Option<Request> {
    if requests == [] then None
    else
      var n := |requests| - 1;
      var earlier := Answering(requests[..n], id);
      if earlier.Some? then earlier
      else if requests[n].Served() && IdOf(requests[n]) == id then Some(requests[n])
      else None
  }

  lemma {:induction false} BatchAnswers(requests: seq<Request>, host: Host, r: Request)
    ensures Batch(requests, host).Get(r)
         == match Answering(requests, IdOf(r)) { case Some(q) => Some(host(q)) case None => None }
  {
    if requests != [] {
      var n := |requests| - 1;
      BatchAnswers(requests[..n], host, r);
      BatchAnswers(requests[..n], host, requests[n]);
    }
  }

  lemma {:induction false} AnsweringIs(requests: seq<Request>, id: string)
    ensures match Answering(requests, id)
      case Some(q) => q in requests && q.Served() && IdOf(q) == id
      case None => forall q :: q in requests && IdOf(q) == id ==> !q.Served()
  {
    if requests != [] {
      var n := |requests| - 1;
      AnsweringIs(requests[..n], id);
      assert requests == requests[..n] + [requests[n]];
    }
  }

  /** A batch of some of the requests that has every served one answers as deserved. */
  lemma PartAnswers(requests: seq<Request>, part: seq<Request>, host: Host, r: Request)
    requires NoCollisions(requests) && r in requests && (r.Served() ==> r in part)
    requires forall q :: q in part ==> q in requests
    ensures Batch(part, host).Get(r) == Deserved(r, host)
  {
    BatchAnswers(part, host, r);
    AnsweringIs(part, IdOf(r));
    match Answering(part, IdOf(r))
    case Some(q) => assert !Collides(q, r);
    case None =>
  }

  lemma {:induction false} FirstSeenIsPart(requests: seq<Request>, r: Request)
    requires r in FirstSeen(requests)
    ensures r in requests
  {
    var n := |requests| - 1;
    if r in FirstSeen(requests[..n]) {
      FirstSeenIsPart(requests[..n], r);
    }
  }

  /** Without collisions, dropping later duplicates drops no request the host serves. */
  lemma MergedCoversServed(requests: seq<Request>, r: Request)
    requires NoCollisions(requests) && r in requests && r.Served()
    ensures r in FirstSeen(requests)
  {
    FirstOfEachKeepsFirsts(requests, IdOf);
    var kept := FirstSeen(requests);
    assert IdOf(r) in KeysOf(kept, IdOf);
    var q :| q in kept && IdOf(q) == IdOf(r);
    FirstSeenIsPart(requests, q);
    assert !Collides(q, r);
  }

  lemma MergedAnswers(requests: seq<Request>, host: Host, r: Request)
    requires NoCollisions(requests) && r in requests
    ensures Batch(FirstSeen(requests), host).Get(r) == Deserved(r, host)
  {
    forall q | q in FirstSeen(requests) ensures q in requests {
      FirstSeenIsPart(requests, q);
    }
    if r.Served() {
      MergedCoversServed(requests, r);
    }
    PartAnswers(requests, FirstSeen(requests), host, r);
  }

  /** The merged batch gives every declared request the answer it deserves. */
  ghost predicate Truthful(requests: seq<Request>, host: Host) {
    forall r :: r in requests ==> Batch(FirstSeen(requests), host).Get(r) == Deserved(r, host)
  }

  lemma SameIdSameAnswer(responses: Responses, a: Request, b: Request)
    requires IdOf(a) == IdOf(b)
    ensures responses.Get(a) == responses.Get(b)
  {
  }

  /** Some host's answer to one of two colliding requests is given to the other. */
  lemma CollisionLies(requests: seq<Request>, a: Request, b: Request) returns (host: Host)
    requires a in requests && b in requests && Collides(a, b)
    ensures !Truthful(requests, host)
  {
    host := r => Response(if r == a then 0 else 1, "");
    SameIdSameAnswer(Batch(FirstSeen(requests), host), a, b);
    DifferentDeserts(a, b, host);
  }

  lemma DifferentDeserts(a: Request, b: Request, host: Host)
    requires (a.Served() || b.Served()) && host(a).exitCode != host(b).exitCode
    ensures Deserved(a, host) != Deserved(b, host)
  {
  }

  /**
   For every host the merged batch answers the served requests as the host would, and the others not
   at all, exactly when no two declared requests share an id unless the host serves neither.
   */
  lemma TruthfulIffNoCollisions(requests: seq<Request>)
    ensures NoCollisions(requests) <==> forall host: Host :: Truthful(requests, host)
  {
    if NoCollisions(requests) {
      forall host: Host ensures Truthful(requests, host) {
        forall r | r in requests ensures Batch(FirstSeen(requests), host).Get(r) == Deserved(r, host) {
          MergedAnswers(requests, host, r);
        }
      }
    } else {
      var a, b :| a in requests && b in requests && Collides(a, b);
      var host := CollisionLies(requests, a, b);
    }
  }

  /** Of a declared request a parser sees exactly the body of a success: no failure, and nobody else's answer. */
  lemma ParsersSeeSuccesses(requests: seq<Request>, host: Host, r: Request)
    requires NoCollisions(requests) && r in requests
    ensures Batch(FirstSeen(requests), host).Text(r)
         == if (r.ReadFile? || r.ReadDir? || (r.Exec? && r.argv != [])) && host(r).exitCode == 0 then Some(host(r).body)
            else None
  {
    MergedAnswers(requests, host, r);
  }

  /** The condition is a real one: two commands share an id, and some host's answer to one is given to the other. */
  lemma CollisionsExist() returns (requests: seq<Request>, host: Host)
    ensures forall r :: r in requests ==> r.Served()
    ensures !Truthful(requests, host)
  {
    var a, b := ServedIdsCollide();
    requests := [a, b];
    assert a in requests && b in requests && Collides(a, b);
    host := CollisionLies(requests, a, b);
  }

  lemma {:induction false} WantedIncludes(sources: seq<Source>, ctx: Context, k: nat, r: Request)
    requires k < |sources| && r in sources[k].requests(ctx)
    ensures r in Wanted(sources, ctx)
  {
    if k < |sources| - 1 {
      WantedIncludes(sources[..|sources| - 1], ctx, k, r);
    }
  }

  /** From the merged batch each source gets the answers it would have fetched for itself. */
  lemma MergedAnswersAgree(sources: seq<Source>, ctx: Context, host: Host, k: nat)
    requires NoCollisions(Wanted(sources, ctx)) && k < |sources|
    ensures AgreeOn(sources[k].requests(ctx),
                    Batch(FirstSeen(Wanted(sources, ctx)), host),
                    Batch(sources[k].requests(ctx), host))
  {
    var wanted, own := Wanted(sources, ctx), sources[k].requests(ctx);
    forall r | r in own ensures r in wanted {
      WantedIncludes(sources, ctx, k, r);
    }
    forall r | r in own ensures Batch(FirstSeen(wanted), host).Get(r) == Batch(own, host).Get(r) {
      MergedAnswers(wanted, host, r);
      PartAnswers(wanted, own, host, r);
    }
  }

  lemma {:induction false} SameParsesSameSink(
      sources: seq<Source>, a: Source -> Responses, b: Source -> Responses, ctx: Context, atMs: I64)
    requires forall k :: 0 <= k < |sources| ==>
               sources[k].parse(ctx, a(sources[k]), atMs) == sources[k].parse(ctx, b(sources[k]), atMs)
    ensures Absorbed(sources, a, ctx, atMs) == Absorbed(sources, b, ctx, atMs)
    ensures Errors(sources, a, ctx, atMs) == Errors(sources, b, ctx, atMs)
  {
    if sources != [] {
      SameParsesSameSink(sources[..|sources| - 1], a, b, ctx, atMs);
    }
  }

  /**
   Batching preserves meaning: for any host and sources that read only what they declared, the tick
   assembled from the one merged batch is the tick assembled from each source's own fetch.
   */
  lemma BatchingPreservesTheTick(
      sources: seq<Source>, ctx: Context, host: Host, atMs: I64, previous: Rate.Baselines)
    requires forall k :: 0 <= k < |sources| ==> ReadsOnlyItsOwn(sources[k], ctx)
    requires NoCollisions(Wanted(sources, ctx))
    ensures var merged := Batch(FirstSeen(Wanted(sources, ctx)), host);
      Assembled(sources, Same(merged), ctx, atMs, previous)
      == Assembled(sources, (s: Source) => Batch(s.requests(ctx), host), ctx, atMs, previous)
  {
    var merged := Batch(FirstSeen(Wanted(sources, ctx)), host);
    var one := Same(merged);
    var each: Source -> Responses := (s: Source) => Batch(s.requests(ctx), host);
    forall k | 0 <= k < |sources|
      ensures sources[k].parse(ctx, one(sources[k]), atMs) == sources[k].parse(ctx, each(sources[k]), atMs)
    {
      MergedAnswersAgree(sources, ctx, host, k);
      assert AgreeOn(sources[k].requests(ctx), merged, Batch(sources[k].requests(ctx), host));
      assert ReadsOnlyItsOwn(sources[k], ctx);
    }
    SameParsesSameSink(sources, one, each, ctx, atMs);
  }

  /** The merged list covers every declared request's id, repeats no id and keeps first-seen order. */
  lemma MergedListIsMinimal(sources: seq<Source>, ctx: Context)
    ensures KeepsFirsts(Wanted(sources, ctx), IdOf, FirstSeen(Wanted(sources, ctx)))
    ensures var merged := FirstSeen(Wanted(sources, ctx));
      forall a, b :: 0 <= a < b < |merged| ==> IdOf(merged[a]) != IdOf(merged[b])
  {
    FirstOfEachKeepsFirsts(Wanted(sources, ctx), IdOf);
  }

  // ---------------------------------------------------------------------------------------
  // A parser that fails

  /** The sources whose parsers succeed. */
  function Working(sources: seq<Source>, answers: Source -> Responses, ctx: Context, atMs: I64): seq<Source> {
    if sources == [] then []
    else
      var n := |sources| - 1;
      var earlier := Working(sources[..n], answers, ctx, atMs);
      if sources[n].parse(ctx, answers(sources[n]), atMs).Ok? then earlier + [sources[n]] else earlier
  }

  lemma {:induction false} FailuresAddNothing(sources: seq<Source>, answers: Source -> Responses, ctx: Context, atMs: I64)
    ensures var working := Working(sources, answers, ctx, atMs);
      && Absorbed(sources, answers, ctx, atMs) == Absorbed(working, answers, ctx, atMs)
      && Errors(working, answers, ctx, atMs) == []
      && |Errors(sources, answers, ctx, atMs)| == |sources| - |working|
  {
    if sources != [] {
      var n := |sources| - 1;
      FailuresAddNothing(sources[..n], answers, ctx, atMs);
      var earlier := Working(sources[..n], answers, ctx, atMs);
      assert (earlier + [sources[n]])[..|earlier|] == earlier;
    }
  }

  /** A source whose parser broke costs its own metrics and one error: the rest of the tick is as if it were not there. */
  lemma FailureCostsOnlyItself(
      sources: seq<Source>, answers: Source -> Responses, ctx: Context, atMs: I64, previous: Rate.Baselines)
    ensures var tick := Assembled(sources, answers, ctx, atMs, previous);
      var working := Working(sources, answers, ctx, atMs);
      && tick.(errors := []) == Assembled(working, answers, ctx, atMs, previous)
      && |tick.errors| == |sources| - |working|
  {
    FailuresAddNothing(sources, answers, ctx, atMs);
  }
}
