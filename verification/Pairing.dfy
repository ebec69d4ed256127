/**
 Which streams the node joins. A stream that is not a command stream sends one
 request first, and the path of that request decides what it is. A listener's ListenIn request is forwarded to the
 target's client with the listen stream's id put into its header; the client
 dials a target stream and returns the header in TransferGo; the node joins the
 target stream to the stream named there.
 */
module Pairing {
  import opened Prelude

  type Header = map<string, string>

  const LISTEN_INVOKER_ID := "ListenInvokerId"
  const LISTEN_CLIENT_ID := "ListenClientId"
  const HTTP_TRANS_KEY := "HttpTransKey"

  /** Go's map lookup: a missing key reads as the empty string. */
  function Get(h: Header, key: string): string {
    if key in h then h[key] else ""
  }

  datatype Request = Request(id: string, header: Header)

  /** A listen stream, the ListenIn request read from it, and whether it is still in the route. */
  datatype Listener = Listener(client: string, request: Option<Request>, open: bool)

  /**
   A target stream and the TransferGo request its client has written on it: the
   one that came over the command stream, or one of the client's own making.
   */
  datatype Target = Target(request: Request, own: bool, handled: bool, open: bool)

  datatype Relay = Relay(target: string, listener: string)

  /**
   Streams are named by invoker ids, requests by request ids; both are fresh
   UUIDs. inFlight holds the TargetOut requests on their way to a client.
   */
  datatype State = State(
    listeners: map<string, Listener>,
    requestIds: set<string>,
    inFlight: map<string, Request>,
    targets: map<string, Target>,
    relays: seq<Relay>)

  function Init(): State {
    State(map[], {}, map[], map[], [])
  }

  datatype Action =
    | OpenListener(l: string, client: string)
    | ListenIn(l: string, request: Request, online: bool)   // online: the target's command invoker was found and written to
    | HttpOut(request: Request, key: string)                // getTransport asks for a target stream of its own
    | DialOut(requestId: string, t: string)                 // onInvoker_DialOut, up to the TransferGo frame
    | OwnGo(t: string, request: Request)                    // any stream that starts with a TransferGo of its own
    | LoseRequest(requestId: string)                        // the command stream or the dial failed
    | TransferGo(t: string)
    | CloseListener(l: string)
    | CloseTarget(t: string)

  ghost predicate Enabled(s: State, a: Action) {
    match a
    case OpenListener(l, _) => l !in s.listeners && l !in s.targets && l != ""
    case ListenIn(l, r, _) => l in s.listeners && s.listeners[l].request.None? && r.id !in s.requestIds
    case HttpOut(r, key) => key != "" && r.id !in s.requestIds
    case DialOut(r, t) => r in s.inFlight && t !in s.targets && t !in s.listeners
    case OwnGo(t, _) => t !in s.targets && t !in s.listeners
    case LoseRequest(r) => r in s.inFlight
    case TransferGo(t) => t in s.targets && !s.targets[t].handled
    case CloseListener(l) => l in s.listeners
    case CloseTarget(t) => t in s.targets
  }

  /** The header under which onInvokerListenIn forwards a request. */
  function Forwarded(h: Header, l: string, client: string): Header {
    h[LISTEN_INVOKER_ID := l][LISTEN_CLIENT_ID := client]
  }

  predicate InRoute(s: State, id: string) {
    (id in s.listeners && s.listeners[id].open) || (id in s.targets && s.targets[id].open)
  }

  /** onInvokerTransferGo: the stream to join, if any. */
  function JoinTo(s: State, h: Header): Option<string> {
    if Get(h, HTTP_TRANS_KEY) != "" then None
    else
      var l := Get(h, LISTEN_INVOKER_ID);
      if InRoute(s, l) then Some(l) else None
  }

  /** onInvokerListenIn on listen stream l; it asks nothing of the request. */
  function ListenInStep(s: State, l: string, r: Request, online: bool): State
    requires l in s.listeners
  {
    var s' := s.(listeners := s.listeners[l := s.listeners[l].(request := Some(r))],
                 requestIds := s.requestIds + {r.id});
    if online
    then s'.(inFlight := s.inFlight[r.id := r.(header := Forwarded(r.header, l, s.listeners[l].client))])
    else s'
  }

  function Apply(s: State, a: Action): State
    requires Enabled(s, a)
  {
    match a
    case OpenListener(l, client) => s.(listeners := s.listeners[l := Listener(client, None, true)])
    case ListenIn(l, r, online) => ListenInStep(s, l, r, online)
    case HttpOut(r, key) =>
      s.(requestIds := s.requestIds + {r.id},
         inFlight := s.inFlight[r.id := r.(header := map[HTTP_TRANS_KEY := key])])
    case DialOut(r, t) =>
      s.(inFlight := s.inFlight - {r}, targets := s.targets[t := Target(s.inFlight[r], false, false, true)])
    case OwnGo(t, r) => s.(targets := s.targets[t := Target(r, true, false, true)])
    case LoseRequest(r) => s.(inFlight := s.inFlight - {r})
    case TransferGo(t) =>
      var s' := s.(targets := s.targets[t := s.targets[t].(handled := true)]);
      (match JoinTo(s, s.targets[t].request.header)
       case Some(l) => s'.(relays := s.relays + [Relay(t, l)])
       case None => s')
    case CloseListener(l) => s.(listeners := s.listeners[l := s.listeners[l].(open := false)])
    case CloseTarget(t) => s.(targets := s.targets[t := s.targets[t].(open := false)])
  }

  ghost predicate Run(s: State, acts: seq<Action>, t: State)
    decreases |acts|
  {
    if acts == [] then s == t else Enabled(s, acts[0]) && Run(Apply(s, acts[0]), acts[1..], t)
  }

  // ---------- invariant ----------

  /** A request carries either an HTTP key or the name of the listen stream that caused it. */
  ghost predicate Traced(s: State, r: Request) {
    && r.id in s.requestIds
    && (Get(r.header, HTTP_TRANS_KEY) != "" || CausedBy(s, r, Get(r.header, LISTEN_INVOKER_ID)))
  }

  /** Listen stream l's own ListenIn request is behind r. */
  ghost predicate CausedBy(s: State, r: Request, l: string) {
    && l in s.listeners && s.listeners[l].request.Some? && s.listeners[l].request.value.id == r.id
    && r.header == Forwarded(s.listeners[l].request.value.header, l, s.listeners[l].client)
  }

  ghost predicate FlightOk(s: State, r: string) {
    r in s.inFlight && s.inFlight[r].id == r && Traced(s, s.inFlight[r])
  }

  ghost predicate TargetOk(s: State, t: string) {
    t in s.targets && (!s.targets[t].own ==>
      Traced(s, s.targets[t].request) && s.targets[t].request.id !in s.inFlight)
  }

  ghost predicate SameRequest(s: State, t: string, u: string) {
    && t in s.targets && u in s.targets && !s.targets[t].own && !s.targets[u].own
    && s.targets[t].request.id == s.targets[u].request.id
  }

  ghost predicate RelayOk(s: State, r: Relay) {
    && r.target in s.targets && s.targets[r.target].handled
    && (!s.targets[r.target].own ==> CausedBy(s, s.targets[r.target].request, r.listener))
  }

  /** Two listen streams never share a request id. */
  ghost predicate SameListenIn(s: State, k: string, l: string) {
    && k in s.listeners && l in s.listeners
    && s.listeners[k].request.Some? && s.listeners[l].request.Some?
    && s.listeners[k].request.value.id == s.listeners[l].request.value.id
  }

  ghost predicate ListenerOk(s: State, l: string) {
    && l in s.listeners && l !in s.targets
    && (s.listeners[l].request.Some? ==> s.listeners[l].request.value.id in s.requestIds)
  }

  ghost predicate Inv(s: State) {
    && (forall r {:trigger FlightOk(s, r)} :: r in s.inFlight ==> FlightOk(s, r))
    && (forall t {:trigger TargetOk(s, t)} :: t in s.targets ==> TargetOk(s, t))
    && (forall t, u {:trigger SameRequest(s, t, u)} :: SameRequest(s, t, u) ==> t == u)
    && (forall l {:trigger ListenerOk(s, l)} :: l in s.listeners ==> ListenerOk(s, l))
    && (forall k, l {:trigger SameListenIn(s, k, l)} :: SameListenIn(s, k, l) ==> k == l)
    && (forall n :: 0 <= n < |s.relays| ==> RelayOk(s, s.relays[n]))
    && (forall m, n :: 0 <= m < n < |s.relays| ==> s.relays[m].target != s.relays[n].target)
  }

  /** Requests stay traced as long as the listeners keep theirs. */
  lemma TracedStays(s: State, t: State, r: Request)
    requires s.requestIds <= t.requestIds
    requires forall l :: l in s.listeners && s.listeners[l].request.Some? ==>
      l in t.listeners && t.listeners[l].request == s.listeners[l].request && t.listeners[l].client == s.listeners[l].client
    ensures Traced(s, r) ==> Traced(t, r)
    ensures forall l :: CausedBy(s, r, l) ==> CausedBy(t, r, l)
  {
  }

  /** Steps that leave requests, targets and relays alone. */
  lemma ListenersKeep(s: State, t: State)
    requires Inv(s) && s.requestIds <= t.requestIds && t.inFlight == s.inFlight
    requires t.targets == s.targets && t.relays == s.relays
    requires forall l :: l in s.listeners && s.listeners[l].request.Some? ==>
      l in t.listeners && t.listeners[l].request == s.listeners[l].request && t.listeners[l].client == s.listeners[l].client
    requires forall l :: l in t.listeners ==> ListenerOk(t, l)
    requires forall k, l :: SameListenIn(t, k, l) ==> k == l
    ensures Inv(t)
  {
    forall r | r in t.inFlight ensures FlightOk(t, r) {
      assert FlightOk(s, r);
      TracedStays(s, t, s.inFlight[r]);
    }
    forall g | g in t.targets ensures TargetOk(t, g) {
      assert TargetOk(s, g);
      TracedStays(s, t, s.targets[g].request);
    }
    forall g, h | SameRequest(t, g, h) ensures g == h {
      assert SameRequest(s, g, h);
    }
    forall n | 0 <= n < |t.relays| ensures RelayOk(t, t.relays[n]) {
      var g := s.relays[n].target;
      assert RelayOk(s, s.relays[n]) && TargetOk(s, g);
      TracedStays(s, t, s.targets[g].request);
    }
  }

  /** A fresh request goes on its way. */
  lemma SendKeeps(s: State, r: Request)
    requires Inv(s) && Traced(s, r) && r.id !in s.inFlight
    requires forall t :: t in s.targets && !s.targets[t].own ==> s.targets[t].request.id != r.id
    ensures Inv(s.(inFlight := s.inFlight[r.id := r]))
  {
    var t := s.(inFlight := s.inFlight[r.id := r]);
    forall q | q in t.inFlight ensures FlightOk(t, q) {
      assert q == r.id || FlightOk(s, q);
    }
    forall g | g in t.targets ensures TargetOk(t, g) {
      assert TargetOk(s, g);
    }
    forall g, h | SameRequest(t, g, h) ensures g == h {
      assert SameRequest(s, g, h);
    }
    forall l | l in t.listeners ensures ListenerOk(t, l) {
      assert ListenerOk(s, l);
    }
    forall k, l | SameListenIn(t, k, l) ensures k == l {
      assert SameListenIn(s, k, l);
    }
    forall n | 0 <= n < |t.relays| ensures RelayOk(t, t.relays[n]) {
      assert RelayOk(s, s.relays[n]);
    }
  }

  /** A request id that has not been used is nowhere in flight or on a target stream. */
  lemma UnusedId(s: State, id: string)
    requires Inv(s) && id !in s.requestIds
    ensures id !in s.inFlight && forall t :: t in s.targets && !s.targets[t].own ==> s.targets[t].request.id != id
  {
    assert id in s.inFlight ==> FlightOk(s, id);
    forall t | t in s.targets && !s.targets[t].own ensures s.targets[t].request.id != id {
      assert TargetOk(s, t);
    }
  }

  lemma ListenInKeeps(s: State, l: string, r: Request, online: bool)
    requires Inv(s) && Enabled(s, ListenIn(l, r, online))
    ensures Inv(Apply(s, ListenIn(l, r, online)))
  {
    var t := s.(listeners := s.listeners[l := s.listeners[l].(request := Some(r))], requestIds := s.requestIds + {r.id});
    UnusedId(s, r.id);
    forall k | k in t.listeners ensures ListenerOk(t, k) {
      assert ListenerOk(s, k);
    }
    forall k, m | SameListenIn(t, k, m) ensures k == m {
      assert ListenerOk(s, k) && ListenerOk(s, m);
      assert k != l && m != l ==> SameListenIn(s, k, m);
    }
    ListenersKeep(s, t);
    if online {
      SendKeeps(t, r.(header := Forwarded(r.header, l, s.listeners[l].client)));
    }
  }

  lemma HttpOutKeeps(s: State, r: Request, key: string)
    requires Inv(s) && Enabled(s, HttpOut(r, key))
    ensures Inv(Apply(s, HttpOut(r, key)))
  {
    var t := s.(requestIds := s.requestIds + {r.id});
    UnusedId(s, r.id);
    forall k | k in t.listeners ensures ListenerOk(t, k) {
      assert ListenerOk(s, k);
    }
    forall k, m | SameListenIn(t, k, m) ensures k == m {
      assert SameListenIn(s, k, m);
    }
    ListenersKeep(s, t);
    SendKeeps(t, r.(header := map[HTTP_TRANS_KEY := key]));
  }

  lemma OpenCloseKeeps(s: State, a: Action)
    requires Inv(s) && Enabled(s, a) && (a.OpenListener? || a.CloseListener?)
    ensures Inv(Apply(s, a))
  {
    var t := Apply(s, a);
    forall k | k in t.listeners ensures ListenerOk(t, k) {
      assert k in s.listeners ==> ListenerOk(s, k);
    }
    forall k, m | SameListenIn(t, k, m) ensures k == m {
      assert SameListenIn(s, k, m);
    }
    ListenersKeep(s, t);
  }

  /** A request leaves the command stream, for a target stream or for nowhere. */
  lemma ArriveKeeps(s: State, r: string, t: State)
    requires Inv(s) && r in s.inFlight
    requires t == s.(inFlight := s.inFlight - {r}, targets := t.targets)
    requires t.targets == s.targets
      || exists g ::
        g !in s.targets && g !in s.listeners && t.targets == s.targets[g := Target(s.inFlight[r], false, false, true)]
    ensures Inv(t)
  {
    assert FlightOk(s, r);
    forall q | q in t.inFlight ensures FlightOk(t, q) {
      assert FlightOk(s, q);
    }
    forall g | g in t.targets ensures TargetOk(t, g) {
      assert g in s.targets ==> TargetOk(s, g);
    }
    forall g, h | SameRequest(t, g, h) ensures g == h {
      assert (g in s.targets ==> TargetOk(s, g)) && (h in s.targets ==> TargetOk(s, h));
      assert g in s.targets && h in s.targets ==> SameRequest(s, g, h);
    }
    forall l | l in t.listeners ensures ListenerOk(t, l) {
      assert ListenerOk(s, l);
    }
    forall k, l | SameListenIn(t, k, l) ensures k == l {
      assert SameListenIn(s, k, l);
    }
    forall n | 0 <= n < |t.relays| ensures RelayOk(t, t.relays[n]) {
      assert RelayOk(s, s.relays[n]);
    }
  }

  lemma TransferGoKeeps(s: State, g: string)
    requires Inv(s) && Enabled(s, TransferGo(g))
    ensures Inv(Apply(s, TransferGo(g)))
  {
    var t := Apply(s, TransferGo(g));
    assert TargetOk(s, g);
    forall q | q in t.inFlight ensures FlightOk(t, q) {
      assert FlightOk(s, q);
    }
    forall h | h in t.targets ensures TargetOk(t, h) {
      assert TargetOk(s, h);
    }
    forall h, u | SameRequest(t, h, u) ensures h == u {
      assert SameRequest(s, h, u);
    }
    forall l | l in t.listeners ensures ListenerOk(t, l) {
      assert ListenerOk(s, l);
    }
    forall k, l | SameListenIn(t, k, l) ensures k == l {
      assert SameListenIn(s, k, l);
    }
    forall n | 0 <= n < |t.relays| ensures RelayOk(t, t.relays[n]) {
      assert n < |s.relays| ==> RelayOk(s, s.relays[n]);
    }
    forall n | 0 <= n < |s.relays| ensures s.relays[n].target != g {
      assert RelayOk(s, s.relays[n]);
    }
  }

  /** A stream with a request of its own, or one that closes: no request and no relay is concerned. */
  lemma TargetsKeep(s: State, g: string, x: Target)
    requires Inv(s) && g !in s.listeners
    requires if g in s.targets then x == s.targets[g].(open := x.open) else x.own && !x.handled
    ensures Inv(s.(targets := s.targets[g := x]))
  {
    var t := s.(targets := s.targets[g := x]);
    forall q | q in t.inFlight ensures FlightOk(t, q) {
      assert FlightOk(s, q);
    }
    forall h | h in t.targets ensures TargetOk(t, h) {
      assert h in s.targets ==> TargetOk(s, h);
    }
    forall h, u | SameRequest(t, h, u) ensures h == u {
      assert SameRequest(s, h, u);
    }
    forall l | l in t.listeners ensures ListenerOk(t, l) {
      assert ListenerOk(s, l);
    }
    forall k, l | SameListenIn(t, k, l) ensures k == l {
      assert SameListenIn(s, k, l);
    }
    forall n | 0 <= n < |t.relays| ensures RelayOk(t, t.relays[n]) {
      assert RelayOk(s, s.relays[n]);
    }
  }

  lemma ActionKeeps(s: State, a: Action)
    requires Inv(s) && Enabled(s, a)
    ensures Inv(Apply(s, a))
  {
    match a
    case ListenIn(l, r, online) => ListenInKeeps(s, l, r, online);
    case HttpOut(r, key) => HttpOutKeeps(s, r, key);
    case TransferGo(t) => TransferGoKeeps(s, t);
    case DialOut(r, _) => ArriveKeeps(s, r, Apply(s, a));
    case LoseRequest(r) => ArriveKeeps(s, r, Apply(s, a));
    case OpenListener(_, _) => OpenCloseKeeps(s, a);
    case CloseListener(_) => OpenCloseKeeps(s, a);
    case OwnGo(t, r) => TargetsKeep(s, t, Target(r, true, false, true));
    case CloseTarget(t) =>
      assert t in s.listeners ==> ListenerOk(s, t);
      TargetsKeep(s, t, s.targets[t].(open := false));
  }

  lemma {:induction false} RunKeepsInv(s: State, acts: seq<Action>, t: State)
    requires Inv(s) && Run(s, acts, t)
    ensures Inv(t)
    decreases |acts|
  {
    if acts != [] {
      ActionKeeps(s, acts[0]);
      RunKeepsInv(Apply(s, acts[0]), acts[1..], t);
    }
  }

  // ---------- main results ----------

  /** The target stream of relay n carries the request that came over the command stream. */
  ghost predicate Returned(t: State, n: nat) {
    n < |t.relays| && t.relays[n].target in t.targets && !t.targets[t.relays[n].target].own
  }

  /**
   Every relay of a target stream that returns the request it was sent joins it to
   the listen stream whose own ListenIn request that was, whatever header the
   listener sent; no target stream is in two relays, and no listen stream is in
   two such relays.
   */
  lemma RelaysArePaired(acts: seq<Action>, t: State)
    requires Run(Init(), acts, t)
    ensures forall n: nat :: Returned(t, n) ==> CausedBy(t, t.targets[t.relays[n].target].request, t.relays[n].listener)
    ensures forall m, n :: 0 <= m < n < |t.relays| ==> t.relays[m].target != t.relays[n].target
    ensures forall m: nat, n: nat :: Returned(t, m) && Returned(t, n) && m != n ==>
      t.relays[m].listener != t.relays[n].listener
  {
    RunKeepsInv(Init(), acts, t);
    forall n: nat | Returned(t, n) ensures CausedBy(t, t.targets[t.relays[n].target].request, t.relays[n].listener) {
      assert RelayOk(t, t.relays[n]);
    }
    forall m: nat, n: nat | Returned(t, m) && Returned(t, n) && m != n
      ensures t.relays[m].listener != t.relays[n].listener
    {
      assert RelayOk(t, t.relays[m]) && RelayOk(t, t.relays[n]);
      assert !SameRequest(t, t.relays[m].target, t.relays[n].target);
    }
  }

  /**
   When the target stream of a listener's request is handled, the two are joined
   if and only if the listener has not put an HTTP key of its own into the header
   and is still in the route.
   */
  lemma JoinedExactly(acts: seq<Action>, s: State, t: string, l: string)
    requires Run(Init(), acts, s) && Enabled(s, TransferGo(t))
    requires !s.targets[t].own && CausedBy(s, s.targets[t].request, l)
    ensures Apply(s, TransferGo(t)).relays == s.relays + [Relay(t, l)] <==>
      Get(s.listeners[l].request.value.header, HTTP_TRANS_KEY) == "" && s.listeners[l].open
    ensures Apply(s, TransferGo(t)).relays in {s.relays, s.relays + [Relay(t, l)]}
  {
    RunKeepsInv(Init(), acts, s);
    assert ListenerOk(s, l);
  }

  // ---------- a listener is served ----------

  /** f is r as it goes on to the target: named after the listen stream and its client, and the same otherwise. */
  ghost predicate IsForward(f: Request, r: Request, l: string, client: string) {
    && f.id == r.id && f.header.Keys == r.header.Keys + {"ListenInvokerId", "ListenClientId"}
    && f.header["ListenInvokerId"] == l && f.header["ListenClientId"] == client
    && forall k :: k in r.header && k != "ListenInvokerId" && k != "ListenClientId" ==> f.header[k] == r.header[k]
  }

  lemma ForwardedIs(r: Request, l: string, client: string)
    ensures IsForward(r.(header := Forwarded(r.header, l, client)), r, l, client)
  {
  }

  /** A header determines what a request is forwarded as. */
  lemma ForwardIsUnique(f: Request, r: Request, l: string, client: string)
    requires IsForward(f, r, l, client)
    ensures f == r.(header := Forwarded(r.header, l, client))
  {
    var h := Forwarded(r.header, l, client);
    assert f.header.Keys == h.Keys;
    assert forall k :: k in h ==> f.header[k] == h[k];
  }

  /**
   onInvokerListenIn: with the target online the request goes on its way under both
   names; with the target offline no request does. Nobody else's request changes.
   */
  lemma ListenInForwards(s: State, l: string, r: Request, online: bool)
    requires l in s.listeners
    ensures var t := ListenInStep(s, l, r, online);
      && t.inFlight.Keys == s.inFlight.Keys + (if online then {r.id} else {})
      && (online ==> IsForward(t.inFlight[r.id], r, l, s.listeners[l].client))
      && (forall q :: q in s.inFlight && (q == r.id ==> !online) ==> t.inFlight[q] == s.inFlight[q])
      && t.listeners == s.listeners[l := Listener(s.listeners[l].client, Some(r), s.listeners[l].open)]
      && t.targets == s.targets && t.relays == s.relays && t.requestIds == s.requestIds + {r.id}
  {
    ForwardedIs(r, l, s.listeners[l].client);
  }

  /** The forwarded request f is with the command stream, has been lost there, or is the one target stream g carries. */
  ghost predicate Whereabouts(f: Request, acts: seq<Action>, t: State) {
    || (f.id in t.inFlight && t.inFlight[f.id] == f)
    || LoseRequest(f.id) in acts
    || exists g :: DialOut(f.id, g) in acts && Carries(t, g, f)
  }

  ghost predicate Carries(t: State, g: string, f: Request) {
    g in t.targets && !t.targets[g].own && t.targets[g].request == f
  }

  /** A target stream keeps its request. */
  lemma {:induction false} TargetsStay(s: State, acts: seq<Action>, t: State, g: string, f: Request)
    requires Run(s, acts, t) && Carries(s, g, f)
    ensures Carries(t, g, f)
    decreases |acts|
  {
    if acts != [] {
      TargetsStay(Apply(s, acts[0]), acts[1..], t, g, f);
    }
  }

  lemma {:induction false} RequestGoesOn(s: State, acts: seq<Action>, t: State, f: Request)
    requires Run(s, acts, t) && f.id in s.inFlight && s.inFlight[f.id] == f && f.id in s.requestIds
    ensures Whereabouts(f, acts, t)
    decreases |acts|
  {
    if acts != [] {
      var s1 := Apply(s, acts[0]);
      if acts[0] == LoseRequest(f.id) {
      } else if acts[0].DialOut? && acts[0].requestId == f.id {
        assert Carries(s1, acts[0].t, f);
        TargetsStay(s1, acts[1..], t, acts[0].t, f);
      } else {
        RequestGoesOn(s1, acts[1..], t, f);
      }
    }
  }

  /** While the listen stream is in the route, its target stream is joined to it as soon as it is handled. */
  ghost predicate JoinedIfHandled(t: State, g: string, l: string) {
    g in t.targets && (t.targets[g].handled ==> Relay(g, l) in t.relays)
  }

  ghost predicate Joinable(s: State, g: string, l: string) {
    && g in s.targets && Get(s.targets[g].request.header, "HttpTransKey") == ""
    && Get(s.targets[g].request.header, "ListenInvokerId") == l && l in s.listeners && s.listeners[l].open
  }

  lemma JoinStep(s: State, a: Action, g: string, l: string)
    requires Enabled(s, a) && Joinable(s, g, l) && JoinedIfHandled(s, g, l) && a != CloseListener(l)
    ensures Joinable(Apply(s, a), g, l) && JoinedIfHandled(Apply(s, a), g, l)
  {
    var t := Apply(s, a);
    if a == TransferGo(g) {
      assert t.relays == s.relays + [Relay(g, l)];
    } else {
      assert s.relays <= t.relays;
    }
  }

  lemma {:induction false} JoinedInRun(s: State, acts: seq<Action>, t: State, g: string, l: string)
    requires Run(s, acts, t) && Joinable(s, g, l) && JoinedIfHandled(s, g, l) && CloseListener(l) !in acts
    ensures JoinedIfHandled(t, g, l)
    decreases |acts|
  {
    if acts != [] {
      JoinStep(s, acts[0], g, l);
      JoinedInRun(Apply(s, acts[0]), acts[1..], t, g, l);
    }
  }

  /**
   A listener is served. Whatever else happens after a ListenIn whose target is
   online, its request is under both names on its way to the target's client, or
   was lost there, or is carried by a target stream that this client has dialed.
   */
  lemma ListenerIsServed(s: State, l: string, r: Request, acts: seq<Action>, t: State, f: Request)
    requires Enabled(s, ListenIn(l, r, true)) && Run(Apply(s, ListenIn(l, r, true)), acts, t)
    requires IsForward(f, r, l, s.listeners[l].client)
    ensures Whereabouts(f, acts, t)
  {
    ForwardIsUnique(f, r, l, s.listeners[l].client);
    RequestGoesOn(Apply(s, ListenIn(l, r, true)), acts, t, f);
  }

  /** Once dialed, the target stream is joined to the listen stream when it is handled, if that stays open till then. */
  lemma DialedIsJoined(s: State, r: string, g: string, l: string, acts: seq<Action>, t: State)
    requires Enabled(s, DialOut(r, g)) && Run(Apply(s, DialOut(r, g)), acts, t) && CloseListener(l) !in acts
    requires Get(s.inFlight[r].header, "HttpTransKey") == "" && Get(s.inFlight[r].header, "ListenInvokerId") == l
    requires l in s.listeners && s.listeners[l].open
    ensures g in t.targets && (t.targets[g].handled ==> Relay(g, l) in t.relays)
  {
    JoinedInRun(Apply(s, DialOut(r, g)), acts, t, g, l);
  }

  lemma {:induction false} RunPush(s: State, acts: seq<Action>, t: State, a: Action)
    requires Run(s, acts, t) && Enabled(t, a)
    ensures Run(s, acts + [a], Apply(t, a))
    decreases |acts|
  {
    if acts == [] {
      assert [a][1..] == [];
    } else {
      RunPush(Apply(s, acts[0]), acts[1..], t, a);
      assert (acts + [a])[1..] == acts[1..] + [a];
    }
  }

  /** The run goes one step further, to state u. */
  lemma Push(s: State, acts: seq<Action>, t: State, a: Action, u: State) returns (more: seq<Action>)
    requires Run(s, acts, t) && Enabled(t, a) && Apply(t, a) == u
    ensures more == acts + [a] && Run(s, more, u)
  {
    RunPush(s, acts, t, a);
    more := acts + [a];
  }

  /** After the run below: the listener's request is on target stream t, and the two are joined. */
  function Joined(l: string, client: string, r: Request, t: string): State {
    State(map[l := Listener(client, Some(r), true)], {r.id}, map[],
          map[t := Target(r.(header := Forwarded(r.header, l, client)), false, true, true)], [Relay(t, l)])
  }

  /** A listener opens and asks, its target is dialed, the request comes back: the two streams are joined. */
  lemma JoinedRun(l: string, client: string, r: Request, t: string) returns (acts: seq<Action>)
    requires l != "" && t != l && Get(r.header, "HttpTransKey") == ""
    ensures acts == [OpenListener(l, client), ListenIn(l, r, true), DialOut(r.id, t), TransferGo(t)]
    ensures Run(Init(), acts, Joined(l, client, r, t))
  {
    var f := r.(header := Forwarded(r.header, l, client));
    var waiting := State(map[l := Listener(client, None, true)], {}, map[], map[], []);
    var asked := State(map[l := Listener(client, Some(r), true)], {r.id}, map[r.id := f], map[], []);
    var dialed := asked.(inFlight := map[], targets := map[t := Target(f, false, false, true)]);
    acts := Push(Init(), [], Init(), OpenListener(l, client), waiting);
    acts := Push(Init(), acts, waiting, ListenIn(l, r, true), asked);
    acts := Push(Init(), acts, asked, DialOut(r.id, t), dialed);
    acts := Push(Init(), acts, dialed, TransferGo(t), Joined(l, client, r, t));
  }

  /** The request of an HTTP transport is dialed too, but its stream is joined to nothing. */
  lemma HttpRun(s: State, q: Request, key: string, u: string) returns (acts: seq<Action>)
    requires key != "" && q.id !in s.requestIds && q.id !in s.inFlight && u !in s.listeners && u !in s.targets
    ensures acts == [HttpOut(q, key), DialOut(q.id, u), TransferGo(u)]
    ensures Run(s, acts,
                s.(requestIds := s.requestIds + {q.id},
                   targets := s.targets[u := Target(Request(q.id, map["HttpTransKey" := key]), false, true, true)]))
  {
    var g := Request(q.id, map["HttpTransKey" := key]);
    var sent := s.(requestIds := s.requestIds + {q.id}, inFlight := s.inFlight[q.id := g]);
    var dialed := sent.(inFlight := s.inFlight, targets := s.targets[u := Target(g, false, false, true)]);
    var handled := dialed.(targets := s.targets[u := Target(g, false, true, true)]);
    acts := Push(s, [], s, HttpOut(q, key), sent);
    assert sent.inFlight - {q.id} == s.inFlight;
    acts := Push(s, acts, sent, DialOut(q.id, u), dialed);
    assert dialed.targets[u := dialed.targets[u].(handled := true)] == handled.targets;
    acts := Push(s, acts, dialed, TransferGo(u), handled);
  }

  /** A request is lost on its way, and nothing else changes. */
  lemma LostRun(s: State, q: Request, key: string) returns (acts: seq<Action>)
    requires key != "" && q.id !in s.requestIds && q.id !in s.inFlight
    ensures acts == [HttpOut(q, key), LoseRequest(q.id)]
    ensures Run(s, acts, s.(requestIds := s.requestIds + {q.id}))
  {
    var sent := s.(requestIds := s.requestIds + {q.id},
                   inFlight := s.inFlight[q.id := Request(q.id, map["HttpTransKey" := key])]);
    acts := Push(s, [], s, HttpOut(q, key), sent);
    assert sent.inFlight - {q.id} == s.inFlight;
    acts := Push(s, acts, sent, LoseRequest(q.id), s.(requestIds := s.requestIds + {q.id}));
  }

  /** A stream with a request of its own is joined to the stream it names; then it closes. */
  lemma OwnRun(s: State, l: string, v: string, own: Request) returns (acts: seq<Action>)
    requires l in s.listeners && s.listeners[l].open && own.header == map["ListenInvokerId" := l]
    requires v !in s.listeners && v !in s.targets
    ensures acts == [OwnGo(v, own), TransferGo(v), CloseTarget(v)]
    ensures Run(s, acts, s.(targets := s.targets[v := Target(own, true, true, false)], relays := s.relays + [Relay(v, l)]))
  {
    var begun := s.(targets := s.targets[v := Target(own, true, false, true)]);
    var joined := s.(targets := s.targets[v := Target(own, true, true, true)], relays := s.relays + [Relay(v, l)]);
    var gone := joined.(targets := s.targets[v := Target(own, true, true, false)]);
    acts := Push(s, [], s, OwnGo(v, own), begun);
    assert begun.targets[v := begun.targets[v].(handled := true)] == joined.targets;
    acts := Push(s, acts, begun, TransferGo(v), joined);
    assert joined.targets[v := joined.targets[v].(open := false)] == gone.targets;
    acts := Push(s, acts, joined, CloseTarget(v), gone);
  }

  /** If the stream it names closes first, it is joined to nothing. */
  lemma ClosedRun(s: State, l: string, v: string, own: Request) returns (acts: seq<Action>)
    requires l in s.listeners && l !in s.targets && own.header == map["ListenInvokerId" := l]
    requires v !in s.listeners && v !in s.targets
    ensures acts == [CloseListener(l), OwnGo(v, own), TransferGo(v)]
    ensures Run(s, acts, s.(listeners := s.listeners[l := s.listeners[l].(open := false)],
                            targets := s.targets[v := Target(own, true, true, true)]))
  {
    var closed := s.(listeners := s.listeners[l := s.listeners[l].(open := false)]);
    var begun := closed.(targets := s.targets[v := Target(own, true, false, true)]);
    var handled := closed.(targets := s.targets[v := Target(own, true, true, true)]);
    acts := Push(s, [], s, CloseListener(l), closed);
    acts := Push(s, acts, closed, OwnGo(v, own), begun);
    assert begun.targets[v := begun.targets[v].(handled := true)] == handled.targets;
    acts := Push(s, acts, begun, TransferGo(v), handled);
  }

  /**
   onInvokerTransferGo, for any stream and any request: it is joined to the stream
   it names, a listener's or another one, if that is in the route and no HTTP key
   is set. Nothing else changes.
   */
  lemma TransferGoJoins(s: State, t: string)
    requires Enabled(s, TransferGo(t))
    ensures var h, t' := s.targets[t].request.header, Apply(s, TransferGo(t));
      var l := if "ListenInvokerId" in h then h["ListenInvokerId"] else "";
      && t'.relays == s.relays +
        (if ("HttpTransKey" in h && h["HttpTransKey"] != "")
            || !((l in s.listeners && s.listeners[l].open) || (l in s.targets && s.targets[l].open))
         then []
         else [Relay(t, l)])
      && t'.targets == s.targets[t := s.targets[t].(handled := true)]
      && t'.listeners == s.listeners && t'.inFlight == s.inFlight && t'.requestIds == s.requestIds
  {
  }

  // ---------- the handlers of the node ----------

  class Relays {
    var listeners: map<string, Listener>
    var requestIds: set<string>
    var inFlight: map<string, Request>
    var targets: map<string, Target>
    var relays: seq<Relay>

    ghost function Model(): State
      reads this
    {
      State(listeners, requestIds, inFlight, targets, relays)
    }

    constructor ()
      ensures Model() == Init()
    {
      listeners, requestIds, inFlight, targets, relays := map[], {}, map[], map[], [];
    }

    /** ConnectionIn on a listen stream, then onInvokerListenIn. */
    method OnInvokerListenIn(invoker: string, request: Request, targetOnline: bool)
      requires invoker in listeners
      modifies this
      ensures Model() == ListenInStep(old(Model()), invoker, request, targetOnline)
      ensures inFlight.Keys == old(inFlight.Keys) + (if targetOnline then {request.id} else {})
      ensures targetOnline ==> IsForward(inFlight[request.id], request, invoker, listeners[invoker].client)
      ensures forall q :: q in old(inFlight) && (q == request.id ==> !targetOnline) ==> inFlight[q] == old(inFlight)[q]
    {
      listeners := listeners[invoker := listeners[invoker].(request := Some(request))];
      requestIds := requestIds + {request.id};
      if targetOnline {
        var header := request.header;
        header := header[LISTEN_INVOKER_ID := invoker];
        header := header[LISTEN_CLIENT_ID := listeners[invoker].client];
        inFlight := inFlight[request.id := request.(header := header)];
      }
      ListenInForwards(old(Model()), invoker, request, targetOnline);
    }

    /** ConnectionIn on a target stream, then onInvokerTransferGo. */
    method OnInvokerTransferGo(invoker: string)
      requires Enabled(Model(), TransferGo(invoker))
      modifies this
      ensures Model() == Apply(old(Model()), TransferGo(invoker))
      ensures var h := old(targets)[invoker].request.header;
        relays == old(relays) +
          if Get(h, "HttpTransKey") == "" && old(InRoute(Model(), Get(h, "ListenInvokerId")))
          then [Relay(invoker, Get(h, "ListenInvokerId"))]
          else []
    {
      var header := targets[invoker].request.header;
      targets := targets[invoker := targets[invoker].(handled := true)];
      var listenInvokerId := Get(header, LISTEN_INVOKER_ID);
      var httpTransKey := Get(header, HTTP_TRANS_KEY);
      if httpTransKey != "" {
        return;
      }
      if (listenInvokerId in listeners && listeners[listenInvokerId].open)
        || (listenInvokerId in targets && targets[listenInvokerId].open)
      {
        relays := relays + [Relay(invoker, listenInvokerId)];
      }
    }
  }
}
