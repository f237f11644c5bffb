/** One monitored host's runtime: connect, refresh, lose the session. */
module Runtime {
  import opened Common
  import opened Connection
  import opened Model
  import opened Request
  import opened Collector
  import opened Store
  import Rate

  /** An open session, with the batches it has carried. */
  datatype Session = Session(roundTrips: nat)

  const CLOSED: TransportError := TransportError("connection closed by the remote host", true)

  /** The host has a command for at least one of them. */
  predicate AnyServed(requests: seq<Request>) {
    exists r :: r in requests && r.Served()
  }

  /** `SshSession::batch`: one round trip, or none if the host has no command for any of the requests. */
  method SendBatch(session: Session, requests: seq<Request>, wire: seq<Request> -> Result<Responses, TransportError>)
    returns (after: Session, r: Result<Responses, TransportError>)
    ensures after.roundTrips == session.roundTrips
         + if exists r :: r in requests && (r.ReadFile? || r.ReadDir? || (r.Exec? && r.argv != [])) then 1 else 0
    ensures r == BatchResult(requests, wire)
  {
    if !AnyServed(requests) {
      return session, Ok(Responses(map[]));
    }
    return Session(session.roundTrips + 1), wire(requests);
  }

  /** What the store holds is what this tick reported, and nothing older. */
  ghost predicate Tidy(c: Contents, tick: Tick, host: EntityId) {
    var byId := ById(tick.descriptors);
    var present := EntityIds(tick.entities) + [host];
    && (forall id :: id in c.descriptors <==> id in byId && byId[id].entity in present)
    && (forall id :: id in c.descriptors ==> c.descriptors[id] == byId[id])
    && c.history.Keys <= c.descriptors.Keys
    && c.text.Keys <= c.descriptors.Keys
    && (forall id :: id in c.entities ==> id in present)
    && (forall e :: e in tick.entities ==> e.id in c.entities)
  }

  /** Everything a runtime remembers. */
  datatype Snapshot = Snapshot(
    session: Option<Session>,
    ctx: Option<Context>,
    state: ConnectionState,
    attempt: nat,
    baselines: Rate.Baselines,
    contents: Contents)

  /** The counter readings remembered after a tick. */
  ghost function Baselines(
      sources: seq<Source>, answers: Responses, ctx: Context, nowMs: I64, previous: Rate.Baselines): Rate.Baselines
  {
    var sink := Absorbed(sources, Same(answers), ctx, nowMs);
    Rate.Processed(previous, sink.descriptors, sink.samples).0
  }

  /** What a refresh asks for, given the sources that apply. */
  ghost function Planned(sources: seq<Source>, ctx: Context): seq<Request> {
    FirstSeen(Wanted(sources, ctx))
  }

  /** What a batch yields: the host's answers, or none at all when nothing the host serves is wanted. */
  function BatchResult(requests: seq<Request>, wire: seq<Request> -> Result<Responses, TransportError>)
    : Result<Responses, TransportError>
  {
    if AnyServed(requests) then wire(requests) else Ok(Responses(map[]))
  }

  /** A failed batch costs the session and the baselines, but not what is on screen. */
  function AfterFailure(before: Snapshot, error: TransportError): Snapshot {
    before.(session := None, state := StateAfterLoss(before.attempt, error),
            attempt := before.attempt + (if error.transient then 1 else 0), baselines := map[])
  }

  /** A successful one costs a round trip, if anything the host serves was wanted. */
  function AfterAnswer(requests: seq<Request>, before: Snapshot): Snapshot
    requires before.session.Some?
  {
    before.(session := Some(Session(before.session.value.roundTrips + if AnyServed(requests) then 1 else 0)))
  }

  /** Parsing its answers moves the baselines and refreshes the store. */
  ghost function AfterParse(
      sources: seq<Source>, answers: Responses, tick: Tick, nowMs: I64, window: nat, before: Snapshot): Snapshot
    requires before.ctx.Some?
  {
    var ctx := before.ctx.value;
    before.(baselines := Baselines(sources, answers, ctx, nowMs, before.baselines),
            contents := Refreshed(before.contents, tick.entities, tick.descriptors, tick.samples, ctx.host.id, window))
  }

  /** What a refresh does: the tick is the assembled one, and the store is left with nothing else. */
  ghost predicate TickOutcome(
      sources: seq<Source>, wire: seq<Request> -> Result<Responses, TransportError>, nowMs: I64, window: nat,
      before: Snapshot, r: Result<Tick, TransportError>, after: Snapshot)
    requires before.session.Some? && before.ctx.Some?
  {
    var ctx := before.ctx.value;
    var planned := Planned(sources, ctx);
    match BatchResult(planned, wire)
    case Err(error) => r == Err(error) && after == AfterFailure(before, error)
    case Ok(answers) =>
      var tick := Assembled(sources, Same(answers), ctx, nowMs, before.baselines);
      && r == Ok(tick)
      && after == AfterParse(sources, answers, tick, nowMs, window, AfterAnswer(planned, before))
      && Tidy(after.contents, tick, ctx.host.id)
  }

  class TargetRuntime {
    var session: Option<Session>
    var ctx: Option<Context>
    const collector: Collector
    const store: LiveStore
    var state: ConnectionState
    var attempt: nat

    constructor (sources: seq<Source>, disabledByDefault: set<SourceId>)
      ensures session == None && ctx == None && state == Idle && attempt == 0
      ensures fresh(collector) && fresh(collector.rate) && fresh(store)
      ensures collector.sources == sources && collector.disabled == disabledByDefault
      ensures collector.rate.previous == map[] && store.View() == EMPTY && store.window == DEFAULT_WINDOW
    {
      collector := new Collector(sources, disabledByDefault);
      store := new LiveStore(DEFAULT_WINDOW);
      session, ctx, state, attempt := None, None, Idle, 0;
    }

    /**
     `dialled` is the outcome of opening the session, `probed` that of the capability batch.
     A successful connect forgets every baseline and every point of the previous session.
     */
    method Connect(dialled: Result<(), TransportError>, probed: Result<Context, TransportError>)
      returns (r: Result<(), TransportError>)
      modifies this, store, collector.rate
      ensures r.Ok? <==> dialled.Ok? && probed.Ok?
      ensures r.Ok? ==>
                && state == Online && attempt == 0
                && session == Some(Session(1)) && ctx == Some(probed.value)
                && collector.rate.previous == map[] && store.View() == EMPTY
      ensures dialled.Err? ==>
                && r == dialled && state == Failed(dialled.error.message, dialled.error.transient)
                && attempt == old(attempt) && session == old(session)
                && store.View() == old(store.View()) && collector.rate.previous == old(collector.rate.previous)
      ensures dialled.Ok? && probed.Err? ==>
                && r == Err(probed.error) && session == None
                && state == StateAfterLoss(old(attempt), probed.error)
                && store.View() == old(store.View()) && collector.rate.previous == map[]
    {
      state := Connecting;
      if dialled.Err? {
        state := Failed(dialled.error.message, dialled.error.transient);
        return dialled;
      }
      if probed.Err? {
        OnDisconnect(probed.error);
        return Err(probed.error);
      }
      ctx := Some(probed.value);
      collector.ResetRates();
      store.Clear();
      session := Some(Session(1));
      state := Online;
      attempt := 0;
      return Ok(());
    }

    /** The sources one refresh is about. */
    ghost function Asked(): seq<Source>
      reads this, collector
      requires ctx.Some?
    {
      Applicable(collector.sources, collector.disabled, ctx.value.caps)
    }

    function View(): Snapshot
      reads this, collector.rate, store
    {
      Snapshot(session, ctx, state, attempt, collector.rate.previous, store.View())
    }

    /** One refresh over `wire`, the batch operation of the session; without a session nothing happens. */
    method Tick(wire: seq<Request> -> Result<Responses, TransportError>, nowMs: I64)
      returns (r: Result<Tick, TransportError>)
      modifies this, store, collector.rate
      ensures old(session) == None || old(ctx) == None ==> r == Err(CLOSED) && View() == old(View())
      ensures old(session).Some? && old(ctx).Some? ==>
                TickOutcome(old(Asked()), wire, nowMs, store.window, old(View()), r, View())
    {
      if session == None || ctx == None {
        return Err(CLOSED);
      }
      var requests := collector.Requests(ctx.value);
      r := Refresh(Asked(), requests, wire, nowMs);
    }

    /** The part of a refresh that follows its planning. */
    method Refresh(
        ghost sources: seq<Source>, requests: seq<Request>,
        wire: seq<Request> -> Result<Responses, TransportError>, nowMs: I64)
      returns (r: Result<Tick, TransportError>)
      requires session.Some? && ctx.Some? && sources == Asked() && requests == Planned(sources, ctx.value)
      modifies this, store, collector.rate
      ensures TickOutcome(sources, wire, nowMs, store.window, old(View()), r, View())
    {
      var answer := Fetch(requests, wire);
      if answer.Err? {
        return Err(answer.error);
      }
      var tick := Take(sources, answer.value, nowMs);
      return Ok(tick);
    }

    /** Parse the answers and take the tick into the store. */
    method Take(ghost sources: seq<Source>, answers: Responses, nowMs: I64) returns (tick: Tick)
      requires ctx.Some? && sources == Asked()
      modifies store, collector.rate
      ensures tick == Assembled(sources, Same(answers), ctx.value, nowMs, old(collector.rate.previous))
      ensures View() == AfterParse(sources, answers, tick, nowMs, store.window, old(View()))
      ensures Tidy(store.View(), tick, ctx.value.host.id)
    {
      tick := collector.Collect(ctx.value, answers, nowMs);
      Record(tick, ctx.value.host.id);
    }

    /** One batch on the open session; a transport failure costs the session. */
    method Fetch(requests: seq<Request>, wire: seq<Request> -> Result<Responses, TransportError>)
      returns (r: Result<Responses, TransportError>)
      requires session.Some?
      modifies `session, `state, `attempt, collector.rate
      ensures r == BatchResult(requests, wire)
      ensures r.Ok? ==> View() == AfterAnswer(requests, old(View()))
      ensures r.Err? ==> View() == AfterFailure(old(View()), r.error)
    {
      if requests == [] {
        return Ok(Responses(map[]));
      }
      var after;
      after, r := SendBatch(session.value, requests, wire);
      if r.Err? {
        OnDisconnect(r.error);
        return;
      }
      session := Some(after);
    }

    /** Take a complete tick into the store, and drop whatever it no longer reports. */
    method Record(tick: Tick, host: EntityId)
      modifies store
      ensures store.View()
           == Refreshed(old(store.View()), tick.entities, tick.descriptors, tick.samples, host, store.window)
      ensures Tidy(store.View(), tick, host)
    {
      store.Ingest(tick.entities, tick.descriptors, tick.samples);
      store.RetainSeries(tick.descriptors);
      var present := EntityIds(tick.entities) + [host];
      store.RetainEntities(present);
      NoLeftovers(old(store.View()), tick.entities, tick.descriptors, tick.samples, host, store.window);
    }

    /** Switch a collector on or off; from the next refresh on it is asked accordingly. */
    method SetSourceEnabled(source: SourceId, enabled: bool)
      modifies collector
      ensures collector.disabled == if enabled then old(collector.disabled) - {source} else old(collector.disabled) + {source}
      ensures !enabled ==> forall caps, s ::
                s in Applicable(collector.sources, collector.disabled, caps) ==> s.id != source
    {
      collector.SetEnabled(source, enabled);
      forall caps, s | s in Applicable(collector.sources, collector.disabled, caps) ensures s.id !in collector.disabled {
        ApplicableIff(collector.sources, collector.disabled, caps, s);
      }
    }

    /** Run one command over `wire`; a transport failure costs the session. */
    method RunCommand(wire: () -> Result<Response, TransportError>) returns (r: Result<Response, TransportError>)
      modifies this, collector.rate
      ensures ctx == old(ctx)
      ensures old(session) == None ==>
                && r == Err(CLOSED) && session == None && state == old(state) && attempt == old(attempt)
                && collector.rate.previous == old(collector.rate.previous)
      ensures old(session).Some? ==> r == wire()
      ensures old(session).Some? && r.Ok? ==>
                && session == Some(Session(old(session).value.roundTrips + 1))
                && state == old(state) && attempt == old(attempt)
                && collector.rate.previous == old(collector.rate.previous)
      ensures old(session).Some? && r.Err? ==>
                session == None && collector.rate.previous == map[] && state == StateAfterLoss(old(attempt), r.error)
    {
      if session == None {
        return Err(CLOSED);
      }
      r := wire();
      if r.Err? {
        OnDisconnect(r.error);
        return;
      }
      session := Some(Session(session.value.roundTrips + 1));
    }

    method OnDisconnect(error: TransportError)
      modifies `session, `state, `attempt, collector.rate
      ensures session == None && collector.rate.previous == map[]
      ensures state == StateAfterLoss(old(attempt), error)
      ensures !error.transient ==> state == Failed(error.message, false)
      ensures error.transient ==> state == Reconnecting(attempt, BackoffFor(attempt))
      ensures attempt == if error.transient then old(attempt) + 1 else old(attempt)
      ensures state.Reconnecting? ==> state.attempt == attempt && state.retryInMs == BackoffFor(attempt)
    {
      session := None;
      collector.ResetRates();
      if error.transient {
        attempt := attempt + 1;
        state := Reconnecting(attempt, BackoffFor(attempt));
      } else {
        state := Failed(error.message, false);
      }
    }
  }
}
