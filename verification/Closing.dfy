/**
 How invokers close. Close only cancels the context; a goroutine then runs the
 callback once and marks the invoker closed. At the node the callback takes the
 invoker out of the route and, for an HTTP target stream, closes the invoker of
 its transport and deletes the transport, whose delete handler closes it again.
 */
module Closing {
  import opened Prelude

  /** hasOnClose: SetOnClose has been called; transKey: the HttpTransKey attachment. */
  datatype Conn = Conn(cancelled: bool, closed: bool, hasOnClose: bool, transKey: Option<string>)

  /** ran lists the invokers whose callback has run, I is the type of invoker identities. */
  datatype State<I(==)> = State(
    conns: map<I, Conn>, route: set<I>, transports: map<string, Option<I>>, ran: seq<I>)

  datatype Action<I> =
    | Accept(i: I)                     // AddAcceptInvoker: in the route, no callback yet
    | SetOnClose(i: I)
    | AddTransport(key: string)
    | Attach(i: I, key: string)        // onInvokerTransferGo, HTTP branch
    | Close(i: I)
    | DeleteTransport(key: string)     // by expiry or after a failed round trip
    | RemoveInvoker(i: I)              // from the route: a lease that ended, the dispatch loop or a failed answer
    | RunOnClose(i: I)

  /** The context is done and the closing goroutine has not run yet. */
  predicate Pending<I>(s: State<I>, i: I) {
    i in s.conns && s.conns[i].cancelled && !s.conns[i].closed
  }

  ghost predicate Enabled<I>(s: State<I>, a: Action<I>) {
    match a
    case Accept(i) => i !in s.conns
    case SetOnClose(i) => i in s.conns
    case AddTransport(_) => true
    case Attach(i, key) => i in s.conns && key in s.transports
    case Close(i) => i in s.conns
    case DeleteTransport(_) => true
    case RemoveInvoker(i) => i in s.conns
    case RunOnClose(i) => Pending(s, i)
  }

  function Cancel<I>(s: State<I>, i: I): State<I> {
    if i in s.conns then s.(conns := s.conns[i := s.conns[i].(cancelled := true)]) else s
  }

  /** The invoker attached to a transport, if there is one. */
  function Owner<I>(s: State<I>, key: string): Option<I> {
    if key in s.transports then s.transports[key] else None
  }

  /** transports.Delete: the handler closes the attached invoker, then the entry goes. */
  function DropTransport<I>(s: State<I>, key: string): State<I> {
    var s' := match Owner(s, key) case Some(j) => Cancel(s, j) case None => s;
    s'.(transports := s.transports - {key})
  }

  function RunStep<I>(s: State<I>, i: I): State<I>
    requires Pending(s, i)
  {
    var c := s.conns[i];
    var s' :=
      if !c.hasOnClose then s
      else
        var s1 := s.(route := s.route - {i}, ran := s.ran + [i]);
        if c.transKey.Some? then DropTransport(s1, c.transKey.value) else s1;
    if i in s'.conns then s'.(conns := s'.conns[i := s'.conns[i].(closed := true)]) else s'
  }

  function Apply<I>(s: State<I>, a: Action<I>): State<I>
    requires Enabled(s, a)
  {
    match a
    case Accept(i) => s.(conns := s.conns[i := Conn(false, false, false, None)], route := s.route + {i})
    case SetOnClose(i) => s.(conns := s.conns[i := s.conns[i].(hasOnClose := true)])
    case AddTransport(key) => s.(transports := s.transports[key := None])
    case Attach(i, key) =>
      s.(conns := s.conns[i := s.conns[i].(transKey := Some(key))], transports := s.transports[key := Some(i)])
    case Close(i) => Cancel(s, i)
    case DeleteTransport(key) => DropTransport(s, key)
    case RemoveInvoker(i) => s.(route := s.route - {i})
    case RunOnClose(i) => RunStep(s, i)
  }

  ghost predicate Run<I>(s: State<I>, acts: seq<Action<I>>, t: State<I>)
    decreases |acts|
  {
    if acts == [] then s == t else Enabled(s, acts[0]) && Run(Apply(s, acts[0]), acts[1..], t)
  }

  function Init<I>(): State<I> {
    State(map[], {}, map[], [])
  }

  // ---------- every run ----------

  ghost predicate Inv<I>(s: State<I>) {
    && (forall m, n :: 0 <= m < n < |s.ran| ==> s.ran[m] != s.ran[n])
    && (forall i :: i in s.ran ==> i in s.conns && s.conns[i].closed && i !in s.route)
    && (forall i :: i in s.route ==> i in s.conns)
  }

  lemma ActionKeeps<I>(s: State<I>, a: Action<I>)
    requires Inv(s) && Enabled(s, a)
    ensures Inv(Apply(s, a))
  {
  }

  lemma {:induction false} RunKeepsInv<I>(s: State<I>, acts: seq<Action<I>>, t: State<I>)
    requires Inv(s) && Run(s, acts, t)
    ensures Inv(t)
    decreases |acts|
  {
    if acts != [] {
      ActionKeeps(s, acts[0]);
      RunKeepsInv(Apply(s, acts[0]), acts[1..], t);
    }
  }

  /** In any run each callback runs at most once; an invoker whose callback has run is closed and out of the route. */
  lemma CallbackAtMostOnce<I>(acts: seq<Action<I>>, t: State<I>)
    requires Run(Init(), acts, t)
    ensures forall m, n :: 0 <= m < n < |t.ran| ==> t.ran[m] != t.ran[n]
    ensures forall i :: i in t.ran ==> i in t.conns && t.conns[i].closed && i !in t.route
  {
    RunKeepsInv(Init(), acts, t);
  }

  /** Some closing goroutine of the run served invoker i before a callback was installed. */
  ghost predicate FoundNoCallback<I>(s: State<I>, acts: seq<Action<I>>, t: State<I>, i: I)
    requires Run(s, acts, t)
    decreases |acts|
  {
    acts != [] &&
    ((acts[0] == RunOnClose(i) && !s.conns[i].hasOnClose) || FoundNoCallback(Apply(s, acts[0]), acts[1..], t, i))
  }

  /** From any state: who is taken out of the route, and by what. */
  lemma {:induction false} RouteHistory<I>(s: State<I>, acts: seq<Action<I>>, t: State<I>, i: I)
    requires Run(s, acts, t) && Inv(s) && i in s.conns
    ensures i in t.conns && Inv(t)
    ensures i in t.route <==> i in s.route && RemoveInvoker(i) !in acts && (i in t.ran ==> i in s.ran)
    ensures t.conns[i].closed && !s.conns[i].closed ==> (FoundNoCallback(s, acts, t, i) <==> i !in t.ran)
    ensures s.conns[i].closed ==> t.conns[i].closed && !FoundNoCallback(s, acts, t, i) && (i in t.ran <==> i in s.ran)
    ensures i in s.ran ==> i in t.ran
    decreases |acts|
  {
    if acts != [] {
      ActionKeeps(s, acts[0]);
      RouteHistory(Apply(s, acts[0]), acts[1..], t, i);
    }
  }

  lemma {:induction false} AcceptedOnce<I>(s: State<I>, acts: seq<Action<I>>, t: State<I>, i: I)
    requires Run(s, acts, t) && Inv(s) && i in t.conns && i !in s.conns
    ensures t.conns[i].closed ==>
      (i in t.route <==> FoundNoCallback(s, acts, t, i) && RemoveInvoker(i) !in acts)
    decreases |acts|
  {
    if acts != [] {
      ActionKeeps(s, acts[0]);
      if acts[0] == Accept(i) {
        RouteHistory(Apply(s, acts[0]), acts[1..], t, i);
      } else {
        AcceptedOnce(Apply(s, acts[0]), acts[1..], t, i);
      }
    }
  }

  /**
   In any run a closed invoker is still in the route if and only if its closing
   goroutine found no callback installed and nothing else took it out.
   */
  lemma LeftInRouteExactly<I>(acts: seq<Action<I>>, t: State<I>, i: I)
    requires Run(Init(), acts, t) && i in t.conns && t.conns[i].closed
    ensures i in t.route <==> FoundNoCallback(Init(), acts, t, i) && RemoveInvoker(i) !in acts
  {
    AcceptedOnce(Init(), acts, t, i);
  }

  /** Such a run: the id frame cannot be written, so the invoker is closed before its callback is installed. */
  lemma EarlyCloseStaysInRoute<I>(i: I) returns (acts: seq<Action<I>>, t: State<I>)
    ensures Run(Init(), acts, t) && i in t.route && i in t.conns && t.conns[i].closed
    ensures forall j :: j in t.conns ==> !Pending(t, j)
  {
    var s1: State<I> := Apply(Init(), Accept(i));
    var s2 := Apply(s1, Close(i));
    t := Apply(s2, RunOnClose(i));
    acts := [Accept(i), Close(i), RunOnClose(i)];
    assert acts[1..] == [Close(i), RunOnClose(i)];
    assert acts[1..][1..] == [RunOnClose(i)];
    assert Run(s2, [RunOnClose(i)], t);
    assert Run(s1, [Close(i), RunOnClose(i)], t);
  }

  // ---------- one cascade ----------

  /** Running i's callback closes j: j is attached to i's transport. */
  ghost predicate Pulls<I>(s: State<I>, i: I, j: I) {
    && i in s.conns && !s.conns[i].closed && s.conns[i].hasOnClose && s.conns[i].transKey.Some?
    && Owner(s, s.conns[i].transKey.value) == Some(j) && j in s.conns
  }

  ghost predicate ClosedUnder<I>(s: State<I>, d: set<I>) {
    && (forall i :: i in s.conns && s.conns[i].cancelled ==> i in d)
    && (forall i, j :: i in d && j in s.conns && Pulls(s, i, j) ==> j in d)
  }

  /** How far a cascade that started in s0 has come in s. */
  ghost predicate Progress<I>(s0: State<I>, s: State<I>) {
    ConnsProgress(s0, s) && TransportsProgress(s0, s) && PullsProgress(s0, s) && RouteProgress(s0, s)
  }

  ghost predicate SameButClosing(c: Conn, d: Conn) {
    && d.hasOnClose == c.hasOnClose && d.transKey == c.transKey
    && (c.cancelled ==> d.cancelled) && (c.closed ==> d.closed)
    && (d.closed && !c.closed ==> d.cancelled)
  }

  ghost predicate ConnsProgress<I>(s0: State<I>, s: State<I>) {
    s.conns.Keys == s0.conns.Keys && forall i :: i in s0.conns ==> SameButClosing(s0.conns[i], s.conns[i])
  }

  /** A transport that has gone has taken its invoker with it. */
  ghost predicate Gone<I>(s0: State<I>, s: State<I>, k: string) {
    k in s0.transports && (s0.transports[k].Some? && s0.transports[k].value in s.conns ==>
      s.conns[s0.transports[k].value].cancelled)
  }

  ghost predicate TransportsProgress<I>(s0: State<I>, s: State<I>) {
    && (forall k :: k in s.transports ==> k in s0.transports && s.transports[k] == s0.transports[k])
    && (forall k {:trigger Gone(s0, s, k)} :: k in s0.transports && k !in s.transports ==> Gone(s0, s, k))
  }

  /** Whoever has closed has closed what it pulls. */
  ghost predicate PullsProgress<I>(s0: State<I>, s: State<I>) {
    forall i, j {:trigger Pulls(s0, i, j)} :: i in s.conns && j in s.conns && Pulls(s0, i, j) && s.conns[i].closed ==>
      s.conns[j].cancelled
  }

  /** The callback of i has run since s0. */
  ghost predicate RanSince<I>(s0: State<I>, s: State<I>, i: I) {
    i in s.conns && i in s0.conns && s.conns[i].closed && !s0.conns[i].closed && s0.conns[i].hasOnClose
  }

  ghost predicate RouteProgress<I>(s0: State<I>, s: State<I>) {
    && s.route <= s0.route
    && forall i {:trigger RanSince(s0, s, i)} :: i in s0.route ==> (i in s.route <==> !RanSince(s0, s, i))
  }

  /** Only what the rules force is cancelled. */
  ghost predicate Forced<I>(s0: State<I>, s: State<I>, d: set<I>) {
    forall i :: i in s.conns && s.conns[i].cancelled ==> i in d
  }

  lemma StepTransports<I>(s0: State<I>, s: State<I>, i: I)
    requires Progress(s0, s) && Pending(s, i)
    ensures TransportsProgress(s0, RunStep(s, i))
  {
    var t := RunStep(s, i);
    forall k | k in s0.transports && k !in t.transports ensures Gone(s0, t, k) {
      assert k !in s.transports ==> Gone(s0, s, k);
    }
  }

  lemma StepPulls<I>(s0: State<I>, s: State<I>, i: I)
    requires Progress(s0, s) && Pending(s, i)
    ensures PullsProgress(s0, RunStep(s, i))
  {
    var t := RunStep(s, i);
    assert SameButClosing(s0.conns[i], s.conns[i]);
    forall a, b | a in t.conns && b in t.conns && Pulls(s0, a, b) && t.conns[a].closed ensures t.conns[b].cancelled {
      if a == i {
        var k := s0.conns[i].transKey.value;
        assert k !in s.transports ==> Gone(s0, s, k);
      }
    }
  }

  lemma StepRoute<I>(s0: State<I>, s: State<I>, i: I)
    requires Progress(s0, s) && Pending(s, i)
    ensures RouteProgress(s0, RunStep(s, i)) && ConnsProgress(s0, RunStep(s, i))
  {
    var t := RunStep(s, i);
    assert SameButClosing(s0.conns[i], s.conns[i]);
    forall j | j in s0.route ensures j in t.route <==> !RanSince(s0, t, j) {
      assert j in s.route <==> !RanSince(s0, s, j);
    }
  }

  lemma StepProgress<I>(s0: State<I>, s: State<I>, i: I)
    requires Progress(s0, s) && Pending(s, i)
    ensures Progress(s0, RunStep(s, i))
  {
    StepTransports(s0, s, i);
    StepPulls(s0, s, i);
    StepRoute(s0, s, i);
  }

  lemma StepForced<I>(s0: State<I>, s: State<I>, i: I, d: set<I>)
    requires Progress(s0, s) && Pending(s, i) && ClosedUnder(s0, d) && Forced(s0, s, d)
    ensures Forced(s0, RunStep(s, i), d)
  {
    var t := RunStep(s, i);
    assert SameButClosing(s0.conns[i], s.conns[i]);
    forall j | j in t.conns && t.conns[j].cancelled ensures j in d {
      if !s.conns[j].cancelled {
        assert Pulls(s0, i, j);
      }
    }
  }

  /** Invokers that are not closed yet: the measure of the cascade. */
  function Unclosed<I>(s: State<I>): set<I> {
    set i | i in s.conns && !s.conns[i].closed
  }

  lemma StepShrinks<I>(s: State<I>, i: I)
    requires Pending(s, i)
    ensures Unclosed(RunStep(s, i)) == Unclosed(s) - {i} && i in Unclosed(s)
  {
  }

  /** Every cascade ends, after at most as many callbacks as there are unclosed invokers. */
  lemma {:induction false} CascadeLength<I>(s: State<I>, acts: seq<Action<I>>, t: State<I>)
    requires Run(s, acts, t) && forall n :: 0 <= n < |acts| ==> acts[n].RunOnClose?
    ensures |acts| + |Unclosed(t)| == |Unclosed(s)|
    decreases |acts|
  {
    if acts != [] {
      StepShrinks(s, acts[0].i);
      CascadeLength(Apply(s, acts[0]), acts[1..], t);
    }
  }

  /** The set of cancelled invokers. */
  ghost function Cancelled<I>(s: State<I>): set<I> {
    set i | i in s.conns && s.conns[i].cancelled
  }

  /** Where a cascade from s0 has to end, in whatever order the goroutines run. */
  ghost predicate Settled<I>(s0: State<I>, t: State<I>) {
    && (forall i :: i in t.conns ==> !Pending(t, i))
    && Progress(s0, t)
    && ClosedUnder(s0, Cancelled(t))
    && (forall d: set<I> | d <= s0.conns.Keys :: ClosedUnder(s0, d) ==> Cancelled(t) <= d)
  }

  /** The same for every set that contains what had to be cancelled from the start. */
  lemma {:induction false} CascadeKeeps<I>(s0: State<I>, s: State<I>, acts: seq<Action<I>>, t: State<I>)
    requires Progress(s0, s) && Run(s, acts, t) && forall n :: 0 <= n < |acts| ==> acts[n].RunOnClose?
    ensures Progress(s0, t)
    ensures forall d: set<I> | d <= s0.conns.Keys && ClosedUnder(s0, d) && Forced(s0, s, d) :: Forced(s0, t, d)
    decreases |acts|
  {
    if acts != [] {
      var i := acts[0].i;
      StepProgress(s0, s, i);
      forall d: set<I> | d <= s0.conns.Keys && ClosedUnder(s0, d) && Forced(s0, s, d)
        ensures Forced(s0, RunStep(s, i), d)
      {
        StepForced(s0, s, i, d);
      }
      CascadeKeeps(s0, RunStep(s, i), acts[1..], t);
    }
  }

  /**
   Whatever the order of the goroutines, once none of them is left to run the
   cancelled invokers are the least set that contains those cancelled at the
   start and is closed under pulling.
   */
  lemma CascadeSettles<I>(s0: State<I>, acts: seq<Action<I>>, t: State<I>)
    requires Run(s0, acts, t) && forall n :: 0 <= n < |acts| ==> acts[n].RunOnClose?
    requires forall i :: i in t.conns ==> !Pending(t, i)
    ensures Settled(s0, t)
  {
    CascadeKeeps(s0, s0, acts, t);
    SettledWhenQuiet(s0, t);
  }

  lemma SettledWhenQuiet<I>(s0: State<I>, t: State<I>)
    requires Progress(s0, t) && forall i :: i in t.conns ==> !Pending(t, i)
    requires forall d: set<I> | d <= s0.conns.Keys && ClosedUnder(s0, d) :: Forced(s0, t, d)
    ensures Settled(s0, t)
  {
    var all := Cancelled(t);
    assert ClosedUnder(s0, all) by {
      forall i | i in s0.conns && s0.conns[i].cancelled ensures i in all {
        assert SameButClosing(s0.conns[i], t.conns[i]);
      }
      forall i, j | i in all && j in s0.conns && Pulls(s0, i, j) ensures j in all {
        assert !Pending(t, i);
      }
    }
    forall d: set<I> | d <= s0.conns.Keys && ClosedUnder(s0, d) ensures all <= d {
      assert Forced(s0, t, d);
    }
  }

  /** So two cascades from the same state end alike. */
  lemma OutcomeIsUnique<I>(s0: State<I>, t: State<I>, u: State<I>)
    requires Settled(s0, t) && Settled(s0, u)
    ensures Cancelled(t) == Cancelled(u) && t.route == u.route
  {
    assert Cancelled(t) <= s0.conns.Keys && Cancelled(u) <= s0.conns.Keys;
    assert Cancelled(t) <= Cancelled(u) && Cancelled(u) <= Cancelled(t);
    forall i | i in s0.route ensures i in t.route <==> i in u.route {
      assert (i in t.route <==> !RanSince(s0, t, i)) && (i in u.route <==> !RanSince(s0, u, i));
      if i in s0.conns {
        assert SameButClosing(s0.conns[i], t.conns[i]) && SameButClosing(s0.conns[i], u.conns[i]);
        assert i in Cancelled(t) <==> i in Cancelled(u);
        assert !Pending(t, i) && !Pending(u, i);
      }
    }
  }

  /** Every closing goroutine of the run found its callback installed. */
  ghost predicate CallbacksInstalled<I>(s: State<I>, acts: seq<Action<I>>, t: State<I>)
    requires Run(s, acts, t)
    decreases |acts|
  {
    acts == [] ||
    ((acts[0].RunOnClose? ==> s.conns[acts[0].i].hasOnClose) && CallbacksInstalled(Apply(s, acts[0]), acts[1..], t))
  }

  lemma {:induction false} ClosedHaveRun<I>(s: State<I>, acts: seq<Action<I>>, t: State<I>)
    requires Run(s, acts, t) && CallbacksInstalled(s, acts, t)
    requires forall i :: i in s.conns && s.conns[i].closed ==> i in s.ran
    ensures forall i :: i in t.conns && t.conns[i].closed ==> i in t.ran
    decreases |acts|
  {
    if acts != [] {
      ClosedHaveRun(Apply(s, acts[0]), acts[1..], t);
    }
  }

  /** Then at rest no closed or cancelled invoker is left in the route. */
  lemma RouteHoldsOpenInvokers<I>(acts: seq<Action<I>>, t: State<I>)
    requires Run(Init(), acts, t) && CallbacksInstalled(Init(), acts, t)
    requires forall i :: i in t.conns ==> !Pending(t, i)
    ensures forall i :: i in t.route ==> i in t.conns && !t.conns[i].closed && !t.conns[i].cancelled
  {
    RunKeepsInv(Init(), acts, t);
    ClosedHaveRun(Init(), acts, t);
    forall i | i in t.route ensures i in t.conns && !t.conns[i].closed && !t.conns[i].cancelled {
      assert !Pending(t, i);
    }
  }

  // ---------- what the callback does ----------

  /** The transport of this key has gone, and with it the invoker that was attached to it; nothing else has changed. */
  ghost predicate TransportGone<I>(s: State<I>, t: State<I>, key: string) {
    && key !in t.transports
    && (forall k :: k in s.transports && k != key ==> k in t.transports && t.transports[k] == s.transports[k])
    && (forall k :: k in t.transports ==> k in s.transports)
    && t.conns.Keys == s.conns.Keys && t.route == s.route && t.ran == s.ran
    && (forall j :: j in s.conns ==>
      t.conns[j] == if key in s.transports && s.transports[key] == Some(j) then s.conns[j].(cancelled := true) else s.conns[j])
  }

  lemma DropIsGone<I>(s: State<I>, key: string)
    ensures TransportGone(s, DropTransport(s, key), key)
  {
  }

  /**
   A closing goroutine marks its invoker as closed. If a callback is installed, it
   runs before that: the invoker leaves the route, and the transport it serves goes.
   */
  lemma CallbackEffects<I>(s: State<I>, i: I)
    requires Pending(s, i)
    ensures var c, t := s.conns[i], RunStep(s, i);
      && t.conns.Keys == s.conns.Keys && t.conns[i] == c.(closed := true)
      && t.route == (if c.hasOnClose then s.route - {i} else s.route)
      && t.ran == (if c.hasOnClose then s.ran + [i] else s.ran)
      && (c.hasOnClose && c.transKey.Some? ==> forall j :: j in s.conns && j != i ==>
        t.conns[j] == s.conns[j].(cancelled := s.conns[j].cancelled || Owner(s, c.transKey.value) == Some(j)))
      && (c.hasOnClose && c.transKey.Some? ==> t.transports == s.transports - {c.transKey.value})
      && (!c.hasOnClose || c.transKey.None? ==>
        t.transports == s.transports && forall j :: j in s.conns && j != i ==> t.conns[j] == s.conns[j])
  {
  }

  /** Once the callback of an HTTP stream has run, its transport is gone until a new one is added under the key. */
  lemma {:induction false} TransportStaysGone<I>(s: State<I>, acts: seq<Action<I>>, t: State<I>, key: string)
    requires Run(s, acts, t) && key !in s.transports && AddTransport(key) !in acts
    ensures key !in t.transports
    decreases |acts|
  {
    if acts != [] {
      TransportStaysGone(Apply(s, acts[0]), acts[1..], t, key);
    }
  }

  /** An invoker that has been closed stays so. */
  lemma {:induction false} CancelledStays<I>(s: State<I>, acts: seq<Action<I>>, t: State<I>, i: I)
    requires Run(s, acts, t) && i in s.conns && s.conns[i].cancelled
    ensures i in t.conns && t.conns[i].cancelled
    decreases |acts|
  {
    if acts != [] {
      CancelledStays(Apply(s, acts[0]), acts[1..], t, i);
    }
  }

  /**
   After the callback of an HTTP stream, whatever follows: the invoker attached to
   its transport is closed, and the transport has gone unless somebody adds it anew.
   */
  lemma CallbackClosesTransport<I>(s: State<I>, i: I, key: string, acts: seq<Action<I>>, t: State<I>)
    requires Pending(s, i) && s.conns[i].hasOnClose && s.conns[i].transKey == Some(key)
    requires Run(s, [RunOnClose(i)] + acts, t)
    ensures AddTransport(key) !in acts ==> key !in t.transports
    ensures forall j :: j in s.conns && Owner(s, key) == Some(j) ==> j in t.conns && t.conns[j].cancelled
  {
    assert ([RunOnClose(i)] + acts)[1..] == acts;
    var s1 := RunStep(s, i);
    CallbackEffects(s, i);
    if AddTransport(key) !in acts {
      TransportStaysGone(s1, acts, t, key);
    }
    forall j | j in s.conns && Owner(s, key) == Some(j) ensures j in t.conns && t.conns[j].cancelled {
      assert i == j ==> s.conns[i].cancelled;
      CancelledStays(s1, acts, t, j);
    }
  }

  /**
   The same after a delete of the transport for any other reason; and a transport
   that is added is attached to nobody, whatever was under its key before.
   */
  lemma DeleteClosesTransport<I>(s: State<I>, key: string, acts: seq<Action<I>>, t: State<I>)
    requires Run(s, [DeleteTransport(key)] + acts, t)
    ensures AddTransport(key) !in acts ==> key !in t.transports
    ensures forall j :: j in s.conns && Owner(s, key) == Some(j) ==> j in t.conns && t.conns[j].cancelled
    ensures Apply(s, AddTransport(key)).transports == s.transports[key := None]
  {
    assert ([DeleteTransport(key)] + acts)[1..] == acts;
    var s1 := DropTransport(s, key);
    DropIsGone(s, key);
    if AddTransport(key) !in acts {
      TransportStaysGone(s1, acts, t, key);
    }
    forall j | j in s.conns && Owner(s, key) == Some(j) ensures j in t.conns && t.conns[j].cancelled {
      CancelledStays(s1, acts, t, j);
    }
  }

  lemma {:induction false} RunPush<I>(s: State<I>, acts: seq<Action<I>>, t: State<I>, a: Action<I>)
    requires Run(s, acts, t) && Enabled(t, a)
    ensures Run(s, acts + [a], Apply(t, a))
    decreases |acts|
  {
    if acts == [] {
      assert [a][1..] == [];
    } else {
      RunPush(Apply(s, acts[0]), acts[1..], t, a);
      assert (acts + [a])[1..] == acts[1..] + [a];
    }
  }

  lemma Push<I>(s: State<I>, acts: seq<Action<I>>, t: State<I>, a: Action<I>, u: State<I>) returns (more: seq<Action<I>>)
    requires Run(s, acts, t) && Enabled(t, a) && Apply(t, a) == u
    ensures more == acts + [a] && Run(s, more, u)
  {
    RunPush(s, acts, t, a);
    more := acts + [a];
  }

  /** Two HTTP streams that have served the same transport, the second being the one attached to it. */
  function TwoStreams<I>(i: I, j: I, key: string, c: bool, d: bool): State<I> {
    State(map[i := Conn(c, false, true, Some(key)), j := Conn(d, false, true, Some(key))], {i, j}, map[key := Some(j)], [])
  }

  lemma ServeRun<I>(i: I, j: I, key: string) returns (acts: seq<Action<I>>)
    requires i != j
    ensures acts == [Accept(i), Accept(j), SetOnClose(i), SetOnClose(j), AddTransport(key), Attach(i, key), Attach(j, key)]
    ensures Run(Init(), acts, TwoStreams(i, j, key, false, false))
  {
    var bare, open := Conn(false, false, false, None), Conn(false, false, true, None);
    var served := Conn(false, false, true, Some(key));
    var s1 := State(map[i := bare], {i}, map[], []);
    var s2 := State(map[i := bare, j := bare], {i, j}, map[], []);
    var s3 := State(map[i := open, j := bare], {i, j}, map[], []);
    var s4 := State(map[i := open, j := open], {i, j}, map[], []);
    var s5 := s4.(transports := map[key := None]);
    var s6 := s4.(conns := map[i := served, j := open], transports := map[key := Some(i)]);
    acts := Push(Init(), [], Init(), Accept(i), s1);
    acts := Push(Init(), acts, s1, Accept(j), s2);
    acts := Push(Init(), acts, s2, SetOnClose(i), s3);
    acts := Push(Init(), acts, s3, SetOnClose(j), s4);
    acts := Push(Init(), acts, s4, AddTransport(key), s5);
    acts := Push(Init(), acts, s5, Attach(i, key), s6);
    acts := Push(Init(), acts, s6, Attach(j, key), TwoStreams(i, j, key, false, false));
  }

  /** Closing the first of them takes the transport and the second one along. */
  lemma CascadeRun<I>(i: I, j: I, key: string) returns (acts: seq<Action<I>>)
    requires i != j
    ensures acts == [Close(i), RunOnClose(i), RunOnClose(j)]
    ensures Run(TwoStreams(i, j, key, false, false), acts,
                State(map[i := Conn(true, true, true, Some(key)), j := Conn(true, true, true, Some(key))], {}, map[], [i, j]))
  {
    var s, s1 := TwoStreams(i, j, key, false, false), TwoStreams(i, j, key, true, false);
    var gone, pulled := Conn(true, true, true, Some(key)), Conn(true, false, true, Some(key));
    var s2 := State(map[i := gone, j := pulled], {j}, map[], [i]);
    acts := Push(s, [], s, Close(i), s1);
    CallbackEffects(s1, i);
    assert RunStep(s1, i).transports == s2.transports && RunStep(s1, i).conns == s2.conns;
    acts := Push(s, acts, s1, RunOnClose(i), s2);
    CallbackEffects(s2, j);
    assert RunStep(s2, j).conns == map[i := gone, j := gone];
    acts := Push(s, acts, s2, RunOnClose(j), State(map[i := gone, j := gone], {}, map[], [i, j]));
  }

  // ---------- the objects ----------

  /** An invoker with its Closer. */
  class Invoker {
    var done: bool           // the context is cancelled
    var closed: bool
    var hasOnClose: bool
    var transKey: Option<string>
    /** The callback has closed the stream and its session. */
    var streamClosed: bool

    constructor ()
      ensures Image() == Conn(false, false, false, None) && !streamClosed
    {
      done, closed, hasOnClose, transKey, streamClosed := false, false, false, None, false;
    }

    ghost function Image(): Conn
      reads this`done, this`closed, this`hasOnClose, this`transKey
    {
      Conn(done, closed, hasOnClose, transKey)
    }
  }

  class Node {
    var route: set<Invoker>
    var transports: map<string, Option<Invoker>>
    /** Every invoker ever accepted: each has a closing goroutine. */
    var invokers: set<Invoker>
    ghost var ran: seq<Invoker>

    ghost function Model(): State<Invoker>
      reads this, invokers`done, invokers`closed, invokers`hasOnClose, invokers`transKey
    {
      State(map i | i in invokers :: i.Image(), route, transports, ran)
    }

    constructor ()
      ensures Model() == Init() && fresh(invokers)
    {
      route, transports, invokers, ran := {}, map[], {}, [];
    }

    method AddAcceptInvoker() returns (invoker: Invoker)
      modifies this`route, this`invokers
      ensures fresh(invoker) && invokers == old(invokers) + {invoker}
      ensures Model() == Apply(old(Model()), Accept(invoker))
    {
      invoker := new Invoker();
      invokers := invokers + {invoker};
      route := route + {invoker};
    }

    /** Closer.Close and CtxCancel. */
    method CloseInvoker(i: Invoker)
      requires i in invokers
      modifies i`done
      ensures Model() == Cancel(old(Model()), i)
    {
      i.done := true;
    }

    method TransportsDelete(key: string)
      requires key in transports && transports[key].Some? ==> transports[key].value in invokers
      modifies this`transports, (if key in transports && transports[key].Some? then {transports[key].value} else {})`done
      ensures Model() == DropTransport(old(Model()), key)
      ensures forall k :: k in transports ==> k in old(transports) && transports[k] == old(transports)[k]
    {
      if key in transports && transports[key].Some? {
        CloseInvoker(transports[key].value);
      }
      transports := map k | k in transports && k != key :: transports[k];
    }

    /** The goroutine of SetCtx once the context is done. */
    method RunClosing(i: Invoker)
      requires i in invokers && i.done && !i.closed
      requires forall k :: k in transports && transports[k].Some? ==> transports[k].value in invokers
      modifies this`route, this`transports, this`ran, invokers`done, i`closed, i`streamClosed
      ensures Model() == RunStep(old(Model()), i)
      ensures i.streamClosed == (i.hasOnClose || old(i.streamClosed))
      ensures forall k :: k in transports ==> k in old(transports) && transports[k] == old(transports)[k]
    {
      if i.hasOnClose {
        OnClose(i);
      }
      MarkClosed(i);
    }

    /** The callback installed by upgradeWebTransport, with OnCloseClient's part for HTTP streams. */
    method OnClose(i: Invoker)
      requires i in invokers
      requires forall k :: k in transports && transports[k].Some? ==> transports[k].value in invokers
      modifies this`route, this`transports, this`ran, invokers`done, i`streamClosed
      ensures i.streamClosed
      ensures var s1 := old(Model()).(route := old(route) - {i}, ran := old(ran) + [i]);
        Model() == if i.transKey.Some? then DropTransport(s1, i.transKey.value) else s1
      ensures forall k :: k in transports ==> k in old(transports) && transports[k] == old(transports)[k]
    {
      LeaveRoute(i);
      if i.transKey.Some? {
        TransportsDelete(i.transKey.value);
      }
    }

    method LeaveRoute(i: Invoker)
      requires i in invokers
      modifies this`route, this`ran, i`streamClosed
      ensures i.streamClosed
      ensures Model() == old(Model()).(route := old(route) - {i}, ran := old(ran) + [i])
    {
      i.streamClosed := true;
      route := route - {i};
      ran := ran + [i];
    }

    method MarkClosed(i: Invoker)
      requires i in invokers
      modifies i`closed
      ensures Model() == old(Model()).(conns := old(Model()).conns[i := old(Model()).conns[i].(closed := true)])
    {
      i.closed := true;
    }

    /** All closing goroutines, in any order, until none is left. */
    method Drain()
      requires forall k :: k in transports && transports[k].Some? ==> transports[k].value in invokers
      modifies this`route, this`transports, this`ran, invokers
      ensures Settled(old(Model()), Model())
    {
      ghost var s0 := Model();
      while exists i :: i in invokers && i.done && !i.closed
        invariant invokers == old(invokers)
        invariant forall k :: k in transports && transports[k].Some? ==> transports[k].value in invokers
        invariant Progress(s0, Model())
        invariant forall d: set<Invoker> | d <= s0.conns.Keys && ClosedUnder(s0, d) :: Forced(s0, Model(), d)
        decreases Unclosed(Model())
      {
        ghost var s := Model();
        var i :| i in invokers && i.done && !i.closed;
        RunClosing(i);
        StepProgress(s0, s, i);
        StepShrinks(s, i);
        forall d: set<Invoker> | d <= s0.conns.Keys && ClosedUnder(s0, d) ensures Forced(s0, Model(), d) {
          StepForced(s0, s, i, d);
        }
      }
      SettledWhenQuiet(s0, Model());
    }
  }
}
