/** internal/endpoint: five endpoints share one singleflight group. Callers of Do join the call in flight under their
    key, or lead a new one; the library's contract is given by the step rules, its source is not part of this model. */
module Singleflight {

  datatype Endpoint = GetUserByID | GetAllUsers | SearchUsers | ProcessUserCreated | ProcessUserDeleted

  datatype Request =
    | GetUserByIDRequest(id: string)
    | GetAllUsersRequest
    | SearchUsersRequest(query: string)
    | ProcessUserCreatedRequest(id: string)
    | ProcessUserDeletedRequest(id: string)
    | OtherRequest(tag: nat)

  /** The endpoint's own type assertion succeeds; GetAllUsers makes none. */
  predicate WellTyped(ep: Endpoint, req: Request) {
    match ep
    case GetUserByID => req.GetUserByIDRequest?
    case GetAllUsers => true
    case SearchUsers => req.SearchUsersRequest?
    case ProcessUserCreated => req.ProcessUserCreatedRequest?
    case ProcessUserDeleted => req.ProcessUserDeletedRequest?
  }

  /** The part of the request that the endpoint looks at. */
  function Subject(ep: Endpoint, req: Request): Request {
    if ep.GetAllUsers? then GetAllUsersRequest else req
  }

  function GetUserByIDKey(req: Request): string {
    if req.GetUserByIDRequest? then "get_user_by_id:" + req.id else "unknown"
  }

  function GetAllUsersKey(req: Request): string {
    "get_all_users"
  }

  function SearchUsersKey(req: Request): string {
    if req.SearchUsersRequest? then "search_users:" + req.query else "unknown"
  }

  function ProcessUserCreatedKey(req: Request): string {
    if req.ProcessUserCreatedRequest? then "process_user_created:" + req.id else "unknown"
  }

  function ProcessUserDeletedKey(req: Request): string {
    if req.ProcessUserDeletedRequest? then "process_user_deleted:" + req.id else "unknown"
  }

  function Key(ep: Endpoint, req: Request): string {
    match ep
    case GetUserByID => GetUserByIDKey(req)
    case GetAllUsers => GetAllUsersKey(req)
    case SearchUsers => SearchUsersKey(req)
    case ProcessUserCreated => ProcessUserCreatedKey(req)
    case ProcessUserDeleted => ProcessUserDeletedKey(req)
  }

  lemma PrefixCancels(prefix: string, a: string, b: string)
    requires prefix + a == prefix + b
    ensures a == b
  {
    assert a == (prefix + a)[|prefix|..];
    assert b == (prefix + b)[|prefix|..];
  }

  /** The characters on which the six kinds of key differ. */
  lemma KeyLetters(ep: Endpoint, req: Request)
    ensures var k := Key(ep, req);
            if !WellTyped(ep, req) then k == "unknown"
            else match ep {
              case GetUserByID => |k| >= 15 && k[0] == 'g' && k[4] == 'u'
              case GetAllUsers => |k| == 13 && k[0] == 'g' && k[4] == 'a'
              case SearchUsers => |k| >= 13 && k[0] == 's'
              case ProcessUserCreated => |k| >= 21 && k[0] == 'p' && k[13] == 'c'
              case ProcessUserDeleted => |k| >= 21 && k[0] == 'p' && k[13] == 'd'
            }
  {
  }

  /** For all strings: two well-typed requests share a key exactly when they are the same request to the same
      endpoint. */
  lemma KeysAreInjective(ep: Endpoint, req: Request, ep': Endpoint, req': Request)
    requires WellTyped(ep, req)
    ensures Key(ep, req) == Key(ep', req') <==>
        WellTyped(ep', req') && ep == ep' && Subject(ep, req) == Subject(ep', req')
  {
    KeyLetters(ep, req);
    KeyLetters(ep', req');
    if Key(ep, req) == Key(ep', req') && WellTyped(ep', req') {
      match ep {
        case GetUserByID => PrefixCancels("get_user_by_id:", req.id, req'.id);
        case GetAllUsers =>
        case SearchUsers => PrefixCancels("search_users:", req.query, req'.query);
        case ProcessUserCreated => PrefixCancels("process_user_created:", req.id, req'.id);
        case ProcessUserDeleted => PrefixCancels("process_user_deleted:", req.id, req'.id);
      }
    }
  }

  datatype Response = Response(endpoint: Endpoint, request: Request, value: nat) | InvalidRequestType(request: Request)

  /** One run of an endpoint; `value` stands for what the use case answers. */
  function Answer(ep: Endpoint, req: Request, value: nat): Response {
    if WellTyped(ep, req) then Response(ep, Subject(ep, req), value) else InvalidRequestType(req)
  }

  datatype Flight = Flight(endpoint: Endpoint, request: Request, began: nat)

  datatype Execution = Execution(flight: Flight, ended: nat, response: Response)

  datatype Caller =
    | Waiting(endpoint: Endpoint, request: Request, since: nat)
    | Returned(endpoint: Endpoint, request: Request, since: nat, run: nat, response: Response)

  /** `log` holds the executions that have finished; `now` counts steps. */
  datatype State = State(now: nat, flights: map<string, Flight>, callers: map<nat, Caller>, log: seq<Execution>)

  datatype Event = Enter(caller: nat, endpoint: Endpoint, request: Request) | Finish(key: string, value: nat)

  function EnterStep(s: State, c: nat, ep: Endpoint, req: Request): State {
    var k := Key(ep, req);
    if c in s.callers then s.(now := s.now + 1)
    else
      State(s.now + 1, if k in s.flights then s.flights else s.flights[k := Flight(ep, req, s.now)],
            s.callers[c := Waiting(ep, req, s.now)], s.log)
  }

  function Serve(caller: Caller, key: string, run: nat, response: Response): Caller {
    if caller.Waiting? && Key(caller.endpoint, caller.request) == key
    then Returned(caller.endpoint, caller.request, caller.since, run, response)
    else caller
  }

  function FinishStep(s: State, key: string, value: nat): State {
    if key !in s.flights then s.(now := s.now + 1)
    else
      var f := s.flights[key];
      var response := Answer(f.endpoint, f.request, value);
      State(s.now + 1, s.flights - {key},
            map c | c in s.callers :: Serve(s.callers[c], key, |s.log|, response),
            s.log + [Execution(f, s.now, response)])
  }

  function Next(s: State, e: Event): State {
    match e
    case Enter(c, ep, req) => EnterStep(s, c, ep, req)
    case Finish(key, value) => FinishStep(s, key, value)
  }

  function Exec(es: seq<Event>): State {
    if es == [] then State(0, map[], map[], []) else Next(Exec(es[..|es| - 1]), es[|es| - 1])
  }

  /** The package-level group, with its callers. */
  class Group {
    var now: nat
    var flights: map<string, Flight>
    var callers: map<nat, Caller>
    var log: seq<Execution>

    constructor ()
      ensures Snapshot() == Exec([])
    {
      now, flights, callers, log := 0, map[], map[], [];
    }

    function Snapshot(): State
      reads this
    {
      State(now, flights, callers, log)
    }

    /** A caller reaches Do: it joins, or leads and starts the endpoint. */
    method Enter(c: nat, ep: Endpoint, req: Request) returns (leads: bool)
      requires c !in callers
      modifies this
      ensures Snapshot() == Next(old(Snapshot()), Event.Enter(c, ep, req))
      ensures leads <==> Key(ep, req) !in old(flights)
    {
      var k := Key(ep, req);
      leads := k !in flights;
      if leads {
        flights := flights[k := Flight(ep, req, now)];
      }
      callers := callers[c := Waiting(ep, req, now)];
      now := now + 1;
    }

    /** The endpoint run for `key` returns: its caller and everyone who joined get the result. */
    method Finish(key: string, value: nat)
      requires key in flights
      modifies this
      ensures Snapshot() == Next(old(Snapshot()), Event.Finish(key, value))
    {
      var f := flights[key];
      var response := Answer(f.endpoint, f.request, value);
      callers := map c | c in callers :: Serve(callers[c], key, |log|, response);
      log := log + [Execution(f, now, response)];
      flights := flights - {key};
      now := now + 1;
    }
  }

  function FlightKey(f: Flight): string {
    Key(f.endpoint, f.request)
  }

  /** The caller got what its own endpoint returned on an equal request, in a run that was going on during its call. */
  ghost predicate FromOwnRun(log: seq<Execution>, caller: Caller)
    requires caller.Returned?
  {
    && caller.run < |log|
    && var run := log[caller.run];
       && caller.response == run.response
       && run.flight.began <= caller.since <= run.ended
       && Key(caller.endpoint, caller.request) == FlightKey(run.flight)
  }

  ghost predicate CallerOk(s: State, caller: Caller) {
    match caller
    case Waiting(ep, req, since) => Key(ep, req) in s.flights && s.flights[Key(ep, req)].began <= since <= s.now
    case Returned(_, _, _, _, _) => FromOwnRun(s.log, caller)
  }

  ghost predicate FlightOk(s: State, key: string, f: Flight) {
    && FlightKey(f) == key && f.began < s.now
    && forall r | r in s.log && FlightKey(r.flight) == key :: r.ended < f.began
  }

  ghost predicate RunOk(s: State, r: Execution) {
    r.flight.began < r.ended < s.now
  }

  /** Finished runs under one key follow one another. */
  ghost predicate OneAtATime(log: seq<Execution>) {
    forall i, j | 0 <= i < j < |log| && FlightKey(log[i].flight) == FlightKey(log[j].flight) ::
        log[i].ended < log[j].flight.began
  }

  ghost predicate Sound(s: State) {
    && (forall c | c in s.callers :: CallerOk(s, s.callers[c]))
    && (forall k | k in s.flights :: FlightOk(s, k, s.flights[k]))
    && (forall r | r in s.log :: RunOk(s, r))
    && OneAtATime(s.log)
  }

  lemma EnterKeepsSound(s: State, c: nat, ep: Endpoint, req: Request)
    requires Sound(s)
    ensures Sound(EnterStep(s, c, ep, req))
  {
    var t := EnterStep(s, c, ep, req);
    forall d | d in t.callers ensures CallerOk(t, t.callers[d]) {
      assert d in s.callers ==> CallerOk(s, s.callers[d]);
    }
    forall k | k in t.flights ensures FlightOk(t, k, t.flights[k]) {
      assert k in s.flights ==> FlightOk(s, k, s.flights[k]);
      forall r | r in t.log && FlightKey(r.flight) == k ensures r.ended < t.flights[k].began {
        assert RunOk(s, r);
      }
    }
    forall r | r in t.log ensures RunOk(t, r) {
      assert RunOk(s, r);
    }
  }

  lemma FinishKeepsSound(s: State, key: string, value: nat)
    requires Sound(s)
    ensures Sound(FinishStep(s, key, value))
  {
    var t := FinishStep(s, key, value);
    if key in s.flights {
      assert FlightOk(s, key, s.flights[key]);
      forall d | d in t.callers ensures CallerOk(t, t.callers[d]) {
        assert CallerOk(s, s.callers[d]);
      }
      forall k | k in t.flights ensures FlightOk(t, k, t.flights[k]) {
        assert FlightOk(s, k, s.flights[k]);
      }
      forall r | r in t.log ensures RunOk(t, r) {
        assert r in s.log ==> RunOk(s, r);
      }
    } else {
      forall d | d in t.callers ensures CallerOk(t, t.callers[d]) {
        assert CallerOk(s, s.callers[d]);
      }
      forall k | k in t.flights ensures FlightOk(t, k, t.flights[k]) {
        assert FlightOk(s, k, s.flights[k]);
      }
      forall r | r in t.log ensures RunOk(t, r) {
        assert RunOk(s, r);
      }
    }
  }

  lemma {:induction false} RunsAreSound(es: seq<Event>)
    ensures Sound(Exec(es))
  {
    if es != [] {
      var e := es[|es| - 1];
      RunsAreSound(es[..|es| - 1]);
      match e {
        case Enter(c, ep, req) => EnterKeepsSound(Exec(es[..|es| - 1]), c, ep, req);
        case Finish(key, value) => FinishKeepsSound(Exec(es[..|es| - 1]), key, value);
      }
    }
  }

  ghost predicate Enters(es: seq<Event>, n: nat, ep: Endpoint, req: Request) {
    n < |es| && es[n].Enter? && es[n].endpoint == ep && es[n].request == req
  }

  /** Times are positions in the run: a caller entered at `since`, a flight is as its leader entered it, and an
      execution answers what its Finish was given. */
  ghost predicate Recorded(es: seq<Event>, s: State) {
    && s.now == |es|
    && (forall k | k in s.flights ::
        Enters(es, s.flights[k].began, s.flights[k].endpoint, s.flights[k].request))
    && (forall r | r in s.log ::
        && Enters(es, r.flight.began, r.flight.endpoint, r.flight.request)
        && r.ended < |es| && es[r.ended].Finish?
        && r.response == Answer(r.flight.endpoint, r.flight.request, es[r.ended].value))
    && (forall c | c in s.callers ::
        Enters(es, s.callers[c].since, s.callers[c].endpoint, s.callers[c].request) &&
            es[s.callers[c].since].caller == c)
  }

  lemma StepKeepsRecorded(es: seq<Event>, s: State, e: Event)
    requires Recorded(es, s)
    ensures Recorded(es + [e], Next(s, e))
  {
    var t := Next(s, e);
    if e.Finish? && e.key in s.flights {
      var f := s.flights[e.key];
      forall r | r in t.log ensures r in s.log || r == Execution(f, s.now, Answer(f.endpoint, f.request, e.value)) {
      }
    }
  }

  lemma {:induction false} RunsAreRecorded(es: seq<Event>)
    ensures Recorded(es, Exec(es))
  {
    if es != [] {
      RunsAreRecorded(es[..|es| - 1]);
      StepKeepsRecorded(es[..|es| - 1], Exec(es[..|es| - 1]), es[|es| - 1]);
      assert es == es[..|es| - 1] + [es[|es| - 1]];
    }
  }

  /** Provenance: in every run, a well-typed caller that has returned holds what its own endpoint answered to an equal
      request, in an execution that had begun by the time it entered, and had not ended: it leads one, or joins. */
  lemma CallersGetTheirOwn(es: seq<Event>, c: nat)
    requires var callers := Exec(es).callers;
             c in callers && callers[c].Returned? && WellTyped(callers[c].endpoint, callers[c].request)
    ensures var s := Exec(es); var caller := s.callers[c];
            && caller.since < |es| && es[caller.since] == Enter(c, caller.endpoint, caller.request)
            && caller.run < |s.log|
            && var run := s.log[caller.run];
               && run.flight.began <= caller.since <= run.ended < |es|
               && run.flight.endpoint == caller.endpoint
               && Subject(caller.endpoint, run.flight.request) == Subject(caller.endpoint, caller.request)
               && es[run.ended].Finish?
               && caller.response == run.response ==
                    Response(caller.endpoint, Subject(caller.endpoint, caller.request), es[run.ended].value)
  {
    RunsAreSound(es);
    RunsAreRecorded(es);
    var s := Exec(es);
    var caller := s.callers[c];
    assert CallerOk(s, caller);
    var run := s.log[caller.run];
    assert run in s.log && RunOk(s, run);
    KeysAreInjective(caller.endpoint, caller.request, run.flight.endpoint, run.flight.request);
  }

  /** A caller with a request of the wrong type is told so, about such a request, and never given an answer. */
  lemma IllTypedAreRefused(es: seq<Event>, c: nat)
    requires var callers := Exec(es).callers;
             c in callers && callers[c].Returned? && !WellTyped(callers[c].endpoint, callers[c].request)
    ensures Exec(es).callers[c].response.InvalidRequestType?
  {
    RunsAreSound(es);
    RunsAreRecorded(es);
    var s := Exec(es);
    var caller := s.callers[c];
    assert CallerOk(s, caller);
    var run := s.log[caller.run];
    assert run in s.log && RunOk(s, run);
    KeyLetters(caller.endpoint, caller.request);
    KeyLetters(run.flight.endpoint, run.flight.request);
  }

  /** At most one execution per key at any time, and no caller is left waiting without one. */
  lemma OneExecutionPerKey(es: seq<Event>)
    ensures var s := Exec(es);
            && OneAtATime(s.log)
            && (forall k, r | k in s.flights && r in s.log && FlightKey(r.flight) == k :: r.ended < s.flights[k].began)
            && (forall c | c in s.callers && s.callers[c].Waiting? ::
                Key(s.callers[c].endpoint, s.callers[c].request) in s.flights)
  {
    RunsAreSound(es);
    var s := Exec(es);
    forall k, r | k in s.flights && r in s.log && FlightKey(r.flight) == k ensures r.ended < s.flights[k].began {
      assert FlightOk(s, k, s.flights[k]);
    }
    forall c | c in s.callers && s.callers[c].Waiting?
        ensures Key(s.callers[c].endpoint, s.callers[c].request) in s.flights {
      assert CallerOk(s, s.callers[c]);
    }
  }
}
