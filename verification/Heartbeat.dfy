/**
 The lease of a command invoker in the node's route. OnInvokerHeartbeat renews
 the expiry of the invoker's cache entry; an expired timer first checks the
 version, then closes the invoker and leaves the delete to another goroutine.
 Invoker ids are fresh and put into the route once.
 */
module Heartbeat {
  import opened CacheModel
  import opened CacheRuns

  /** Thirty seconds, in nanoseconds. */
  const LEASE: int := 30_000_000_000

  /**
   made names the one item of each invoker id. beats lists the times at which a
   heartbeat found its invoker in the route. doomed holds the ids whose delete
   is still to come, expired the time at which an id's timer passed the check
   and the invoker was closed.
   */
  datatype Route = Route(
    now: int, cache: State<nat, bool>, made: map<string, nat>,
    beats: map<string, seq<int>>, doomed: set<string>, expired: map<string, int>)

  datatype Action =
    | Accept(id: string, item: nat)
    | Beat(id: string)
    | Wait(d: nat)
    | CheckTimer(t: Timer<nat>)
    | DeleteDoomed(id: string)
    | Close(id: string)        // any other reason for leaving the route

  ghost predicate CanDo(r: Route, a: Action) {
    match a
    case Accept(id, item) => id !in r.made && item !in r.cache.heap
    case Beat(id) => id in r.cache.index && id in r.beats
    case CheckTimer(t) => t in r.cache.timers && t.due <= r.now
    case DeleteDoomed(id) => id in r.doomed
    case _ => true
  }

  /** Every item belongs to one invoker id and every id has one item. */
  ghost predicate OneItemEach(r: Route) {
    && r.made.Keys == r.beats.Keys
    && (forall id :: id in r.made ==> r.made[id] in r.cache.heap && r.cache.heap[r.made[id]].key == id)
    && (forall i :: i in r.cache.heap ==> r.cache.heap[i].key in r.made && r.made[r.cache.heap[i].key] == i)
  }

  ghost predicate BeatsInv(r: Route) {
    forall id :: id in r.beats ==> BeatsOk(r.beats[id], r.now)
  }

  ghost predicate TimersInv(r: Route) {
    forall t {:trigger LeaseTimer(r, t)} :: t in r.cache.timers && Live(r.cache, t) ==> LeaseTimer(r, t)
  }

  ghost predicate GuardInv(r: Route) {
    forall id {:trigger Guarded(r, id)} :: id in r.cache.index && id in r.beats ==> Guarded(r, id)
  }

  ghost predicate ExpiredInv(r: Route) {
    forall id :: id in r.expired ==> id in r.beats && ExpiredAfterSilence(r.beats[id], r.expired[id], r.now)
  }

  ghost predicate Inv(r: Route) {
    WellFormed(r.cache) && OneItemEach(r) && BeatsInv(r) && TimersInv(r) && GuardInv(r) && ExpiredInv(r)
  }

  ghost predicate BeatsOk(b: seq<int>, now: int) {
    forall j :: 0 <= j < |b| ==> b[j] <= now
  }

  /** A timer that would pass the check was started by the last heartbeat. */
  ghost predicate LeaseTimer(r: Route, t: Timer<nat>)
    requires t.item in r.cache.heap
  {
    var id := r.cache.heap[t.item].key;
    id in r.beats && r.beats[id] != [] && t.due == r.beats[id][|r.beats[id]| - 1] + LEASE
  }

  /** An invoker in the route that has sent a heartbeat has a live timer, or is about to be deleted. */
  ghost predicate Guarded(r: Route, id: string)
    requires id in r.cache.index && id in r.beats
  {
    r.beats[id] != [] ==>
      id in r.doomed || exists t :: t in r.cache.timers && t.item == r.cache.index[id] && Live(r.cache, t)
  }

  /** At time e the last heartbeat was a full lease ago, and the next one, if any, came later. */
  ghost predicate ExpiredAfterSilence(b: seq<int>, e: int, now: int) {
    e <= now && exists j :: SilentAfter(b, j, e)
  }

  ghost predicate SilentAfter(b: seq<int>, j: int, e: int) {
    0 <= j < |b| && b[j] + LEASE <= e && (j + 1 < |b| ==> e <= b[j + 1])
  }

  function Do(r: Route, a: Action): Route
    requires WellFormed(r.cache) && CanDo(r, a)
  {
    match a
    case Accept(id, item) =>
      r.(cache := Apply(r.cache, Step(r.now, Set(id, true, item))),
         made := r.made[id := item], beats := r.beats[id := []])
    case Beat(id) =>
      r.(cache := Apply(r.cache, Step(r.now, SetExpire(id, LEASE))),
         beats := r.beats[id := r.beats[id] + [r.now]])
    case Wait(d) => r.(now := r.now + d)
    case CheckTimer(t) =>
      var r' := r.(cache := Check(r.cache, t));
      if Live(r.cache, t) then
        var id := r.cache.heap[t.item].key;
        r'.(doomed := r.doomed + {id}, expired := r.expired[id := r.now])
      else r'
    case DeleteDoomed(id) => r.(cache := Remove(r.cache, id), doomed := r.doomed - {id})
    case Close(id) => r.(cache := Remove(r.cache, id))
  }

  ghost predicate Runs(r: Route, acts: seq<Action>, t: Route)
    decreases |acts|
  {
    if acts == [] then r == t
    else WellFormed(r.cache) && CanDo(r, acts[0]) && Runs(Do(r, acts[0]), acts[1..], t)
  }

  function Init(now: int): Route {
    Route(now, Empty(), map[], map[], {}, map[])
  }

  lemma AcceptKeeps(r: Route, id: string, item: nat)
    requires Inv(r) && CanDo(r, Accept(id, item))
    ensures Inv(Do(r, Accept(id, item)))
  {
    var r' := Do(r, Accept(id, item));
    assert id !in r.cache.index;
    assert r'.cache == Insert(r.cache, id, true, item);
    AcceptItems(r, id, item, r');
    forall t | t in r'.cache.timers && Live(r'.cache, t) ensures LeaseTimer(r', t) {
      assert Live(r.cache, t) && LeaseTimer(r, t);
    }
    forall k | k in r'.cache.index && k in r'.beats ensures Guarded(r', k) {
      if k != id {
        GuardStays(r, r', k);
      }
    }
  }

  lemma AcceptItems(r: Route, id: string, item: nat, r': Route)
    requires Inv(r) && CanDo(r, Accept(id, item)) && id !in r.cache.index
    requires r' == r.(cache := Insert(r.cache, id, true, item), made := r.made[id := item], beats := r.beats[id := []])
    ensures WellFormed(r'.cache) && OneItemEach(r') && ExpiredInv(r')
  {
    forall k | k in r'.expired ensures k in r'.beats && ExpiredAfterSilence(r'.beats[k], r'.expired[k], r'.now) {
      assert ExpiredAfterSilence(r.beats[k], r.expired[k], r.now);
    }
  }

  /** A live timer that is still there goes on guarding. */
  lemma GuardStays(r: Route, r': Route, k: string)
    requires Inv(r) && k in r.cache.index && k in r.beats && k in r'.cache.index && k in r'.beats
    requires r'.cache.index[k] == r.cache.index[k] && r'.beats[k] == r.beats[k]
    requires k in r.doomed ==> k in r'.doomed
    requires forall t :: t in r.cache.timers && t.item == r.cache.index[k] && Live(r.cache, t) && k !in r'.doomed ==>
      t in r'.cache.timers && Live(r'.cache, t)
    ensures Guarded(r', k)
  {
    assert Guarded(r, k);
    if r.beats[k] != [] && k !in r'.doomed {
      var t :| t in r.cache.timers && t.item == r.cache.index[k] && Live(r.cache, t);
      assert Live(r'.cache, t);
    }
  }

  lemma BeatTimers(r: Route, id: string)
    requires Inv(r) && CanDo(r, Beat(id))
    ensures TimersInv(Do(r, Beat(id)))
  {
    var r' := Do(r, Beat(id));
    var i := r.cache.index[id];
    assert r'.cache == Renew(r.cache, i, r.now + LEASE);
    forall t | t in r'.cache.timers && Live(r'.cache, t) ensures LeaseTimer(r', t) {
      if t.item != i {
        assert Live(r.cache, t) && LeaseTimer(r, t);
      }
    }
  }

  lemma BeatGuards(r: Route, id: string)
    requires Inv(r) && CanDo(r, Beat(id))
    ensures GuardInv(Do(r, Beat(id)))
  {
    var r' := Do(r, Beat(id));
    var i := r.cache.index[id];
    assert r'.cache == Renew(r.cache, i, r.now + LEASE);
    var t0 := Timer(i, r.cache.heap[i].version + 1, r.now + LEASE);
    assert t0 in r'.cache.timers && Live(r'.cache, t0);
    forall k | k in r'.cache.index && k in r'.beats ensures Guarded(r', k) {
      if k != id {
        GuardStays(r, r', k);
      }
    }
  }

  lemma BeatExpired(r: Route, id: string)
    requires Inv(r) && CanDo(r, Beat(id))
    ensures ExpiredInv(Do(r, Beat(id)))
  {
    var r' := Do(r, Beat(id));
    forall k | k in r'.expired ensures k in r'.beats && ExpiredAfterSilence(r'.beats[k], r'.expired[k], r'.now) {
      assert ExpiredAfterSilence(r.beats[k], r.expired[k], r.now);
      LaterBeat(r.beats[k], r.expired[k], r.now);
    }
  }

  lemma LaterBeat(b: seq<int>, e: int, now: int)
    requires ExpiredAfterSilence(b, e, now)
    ensures ExpiredAfterSilence(b + [now], e, now)
  {
    var j :| SilentAfter(b, j, e);
    assert SilentAfter(b + [now], j, e);
  }

  lemma BeatKeeps(r: Route, id: string)
    requires Inv(r) && CanDo(r, Beat(id))
    ensures Inv(Do(r, Beat(id)))
  {
    ApplyWellFormed(r.cache, Step(r.now, SetExpire(id, LEASE)));
    var r' := Do(r, Beat(id));
    assert r'.cache == Renew(r.cache, r.cache.index[id], r.now + LEASE);
    assert OneItemEach(r');
    assert BeatsInv(r') by {
      assert BeatsOk(r.beats[id], r.now);
    }
    BeatTimers(r, id);
    BeatGuards(r, id);
    BeatExpired(r, id);
  }

  lemma CheckKeeps(r: Route, t: Timer<nat>)
    requires Inv(r) && CanDo(r, CheckTimer(t))
    ensures Inv(Do(r, CheckTimer(t)))
  {
    var r' := Do(r, CheckTimer(t));
    forall u | u in r'.cache.timers && Live(r'.cache, u) ensures LeaseTimer(r', u) {
      assert LeaseTimer(r, u);
    }
    forall k | k in r'.cache.index && k in r'.beats ensures Guarded(r', k) {
      GuardStays(r, r', k);
    }
    if Live(r.cache, t) {
      var id := r.cache.heap[t.item].key;
      assert LeaseTimer(r, t);
      assert SilentAfter(r.beats[id], |r.beats[id]| - 1, r.now);
    }
  }

  lemma RemoveKeeps(r: Route, id: string, doomed: set<string>)
    requires Inv(r) && (doomed == r.doomed || doomed == r.doomed - {id})
    ensures Inv(r.(cache := Remove(r.cache, id), doomed := doomed))
  {
    var r' := r.(cache := Remove(r.cache, id), doomed := doomed);
    forall u | u in r'.cache.timers && Live(r'.cache, u) ensures LeaseTimer(r', u) {
      assert LeaseTimer(r, u);
    }
    forall k | k in r'.cache.index && k in r'.beats ensures Guarded(r', k) {
      GuardStays(r, r', k);
    }
  }

  lemma WaitKeeps(r: Route, d: nat)
    requires Inv(r)
    ensures Inv(r.(now := r.now + d))
  {
    var r' := r.(now := r.now + d);
    forall u | u in r'.cache.timers && Live(r'.cache, u) ensures LeaseTimer(r', u) {
      assert LeaseTimer(r, u);
    }
    forall k | k in r'.cache.index && k in r'.beats ensures Guarded(r', k) {
      GuardStays(r, r', k);
    }
  }

  lemma ActionKeeps(r: Route, a: Action)
    requires Inv(r) && CanDo(r, a)
    ensures Inv(Do(r, a))
  {
    match a
    case Accept(id, item) => AcceptKeeps(r, id, item);
    case Beat(id) => BeatKeeps(r, id);
    case CheckTimer(t) => CheckKeeps(r, t);
    case DeleteDoomed(id) => RemoveKeeps(r, id, r.doomed - {id});
    case Close(id) => RemoveKeeps(r, id, r.doomed);
    case Wait(d) => WaitKeeps(r, d);
  }

  lemma {:induction false} RunKeepsInv(r: Route, acts: seq<Action>, t: Route)
    requires Inv(r) && Runs(r, acts, t)
    ensures Inv(t)
    decreases |acts|
  {
    if acts != [] {
      ActionKeeps(r, acts[0]);
      RunKeepsInv(Do(r, acts[0]), acts[1..], t);
    }
  }

  // ---------- main results ----------

  /** Consecutive heartbeats less than a lease apart, and the last less than a lease ago. */
  ghost predicate Punctual(b: seq<int>, now: int) {
    && (forall j :: 0 <= j < |b| - 1 ==> b[j + 1] < b[j] + LEASE)
    && (b != [] ==> now < b[|b| - 1] + LEASE)
  }

  lemma SilenceIsNotPunctual(b: seq<int>, e: int, now: int)
    requires ExpiredAfterSilence(b, e, now)
    ensures !Punctual(b, now)
  {
    var j :| SilentAfter(b, j, e);
    if j + 1 < |b| {
      assert !(b[j + 1] < b[j] + LEASE);
    }
  }

  /** A punctual invoker has never been expired, in any interleaving of checks and deletes. */
  lemma PunctualIsNeverExpired(now: int, acts: seq<Action>, r: Route, id: string)
    requires Runs(Init(now), acts, r) && id in r.beats && Punctual(r.beats[id], r.now)
    ensures id !in r.expired && id !in r.doomed
  {
    RunKeepsInv(Init(now), acts, r);
    RunKeepsDoomed(Init(now), acts, r);
    if id in r.expired {
      SilenceIsNotPunctual(r.beats[id], r.expired[id], r.now);
    }
  }

  /** Deletes are only left behind by timers that passed their check. */
  lemma {:induction false} RunKeepsDoomed(r: Route, acts: seq<Action>, t: Route)
    requires Runs(r, acts, t) && forall id :: id in r.doomed ==> id in r.expired
    ensures forall id :: id in t.doomed ==> id in t.expired
    decreases |acts|
  {
    if acts != [] {
      RunKeepsDoomed(Do(r, acts[0]), acts[1..], t);
    }
  }

  /** The check of timer t passes now: the invoker is closed and its delete is left to do. */
  ghost predicate CheckExpires(r: Route, t: Timer<nat>, id: string) {
    && WellFormed(r.cache) && CanDo(r, CheckTimer(t))
    && id in Do(r, CheckTimer(t)).doomed && Do(r, CheckTimer(t)).expired == r.expired[id := r.now]
  }

  /**
   After at least one heartbeat and a lease of silence an invoker that is still
   in the route is on its way out: its delete is pending, or a timer is ready
   whose check closes it.
   */
  lemma SilenceExpires(now: int, acts: seq<Action>, r: Route, id: string)
    requires Runs(Init(now), acts, r) && id in r.cache.index && id in r.beats && r.beats[id] != []
    requires r.beats[id][|r.beats[id]| - 1] + LEASE <= r.now
    ensures id in r.doomed || exists t :: CheckExpires(r, t, id)
  {
    RunKeepsInv(Init(now), acts, r);
    assert Guarded(r, id);
    if id !in r.doomed {
      var t :| t in r.cache.timers && t.item == r.cache.index[id] && Live(r.cache, t);
      assert LeaseTimer(r, t);
      assert CheckExpires(r, t, id);
    }
  }

  /** Conversely a check that passes now closes an invoker whose last heartbeat is a full lease ago. */
  lemma CheckOnlyAfterSilence(now: int, acts: seq<Action>, r: Route, t: Timer<nat>, id: string)
    requires Runs(Init(now), acts, r) && t in r.cache.timers && Live(r.cache, t) && t.due <= r.now
    requires r.cache.heap[t.item].key == id
    ensures id in r.beats && r.beats[id] != [] && r.beats[id][|r.beats[id]| - 1] + LEASE <= r.now
  {
    RunKeepsInv(Init(now), acts, r);
    assert LeaseTimer(r, t);
  }

  // ---------- the heartbeats of a run ----------

  /** When a run that starts at this time comes to its heartbeats of this invoker. */
  function Times(now: int, acts: seq<Action>, id: string): seq<int>
    decreases |acts|
  {
    if acts == [] then []
    else match acts[0]
      case Wait(d) => Times(now + d, acts[1..], id)
      case Beat(k) => (if k == id then [now] else []) + Times(now, acts[1..], id)
      case _ => Times(now, acts[1..], id)
  }

  function BeatsOf(r: Route, id: string): seq<int> {
    if id in r.beats then r.beats[id] else []
  }

  lemma {:induction false} BeatsGrow(r: Route, acts: seq<Action>, t: Route, id: string)
    requires Runs(r, acts, t) && r.made.Keys == r.beats.Keys
    ensures BeatsOf(t, id) == BeatsOf(r, id) + Times(r.now, acts, id) && r.now <= t.now
    decreases |acts|
  {
    if acts != [] {
      BeatsGrow(Do(r, acts[0]), acts[1..], t, id);
    }
  }

  /** The recorded heartbeats are those of the run, all of them and at their times. */
  lemma BeatsAreTheRun(now: int, acts: seq<Action>, r: Route, id: string)
    requires Runs(Init(now), acts, r)
    ensures BeatsOf(r, id) == Times(now, acts, id)
  {
    BeatsGrow(Init(now), acts, r, id);
  }

  lemma {:induction false} RunPush(r: Route, acts: seq<Action>, t: Route, a: Action)
    requires Runs(r, acts, t) && WellFormed(t.cache) && CanDo(t, a)
    ensures Runs(r, acts + [a], Do(t, a))
    decreases |acts|
  {
    if acts == [] {
      assert [a][1..] == [];
    } else {
      RunPush(Do(r, acts[0]), acts[1..], t, a);
      assert (acts + [a])[1..] == acts[1..] + [a];
    }
  }

  lemma Push(r: Route, acts: seq<Action>, t: Route, a: Action, u: Route) returns (more: seq<Action>)
    requires Runs(r, acts, t) && WellFormed(t.cache) && CanDo(t, a) && Do(t, a) == u
    ensures more == acts + [a] && Runs(r, more, u)
  {
    RunPush(r, acts, t, a);
    more := acts + [a];
  }

  /** One invoker in the route of a node: the version of its item, its timers, its heartbeats. */
  function One(now: int, id: string, item: nat, version: int, timers: set<Timer<nat>>, beats: seq<int>): Route {
    Route(now, State(map[item := Item(id, true, version)], map[id := item], timers), map[id := item], map[id := beats], {},
          map[])
  }

  /** The invoker has gone after its timer passed the check at the given time. */
  function Expired(now: int, id: string, item: nat, beats: seq<int>): Route {
    Route(now, State(map[item := Item(id, true, 2)], map[], {}), map[id := item], map[id := beats], {}, map[id := now])
  }

  /** A heartbeat bumps the version and starts a timer of thirty seconds; the older timers go on. */
  lemma BeatOfOne(now: int, id: string, item: nat, version: int, timers: set<Timer<nat>>, beats: seq<int>)
    requires WellFormed(One(now, id, item, version, timers, beats).cache)
    ensures var s := One(now, id, item, version, timers, beats);
      CanDo(s, Beat(id)) && Do(s, Beat(id)) ==
        One(now, id, item, version + 1, timers + {Timer(item, version + 1, now + 30_000_000_000)}, beats + [now])
  {
    var s := One(now, id, item, version, timers, beats);
    assert s.beats[id := s.beats[id] + [now]] == map[id := beats + [now]];
    assert s.cache.heap[item := s.cache.heap[item].(version := version + 1)] == map[item := Item(id, true, version + 1)];
  }

  /** An invoker is accepted; its first two heartbeats are just less than thirty seconds apart. */
  lemma BeatsRun(id: string, item: nat) returns (acts: seq<Action>)
    ensures acts == [Accept(id, item), Beat(id), Wait(29_999_999_999), Beat(id)]
    ensures Runs(Init(0), acts,
                 One(29_999_999_999, id, item, 2, {Timer(item, 1, 30_000_000_000), Timer(item, 2, 59_999_999_999)},
                     [0, 29_999_999_999]))
  {
    var t1, t2 := Timer(item, 1, 30_000_000_000), Timer(item, 2, 59_999_999_999);
    var s1 := One(0, id, item, 0, {}, []);
    var s2 := One(0, id, item, 1, {t1}, [0]);
    var s3 := One(29_999_999_999, id, item, 1, {t1}, [0]);
    var s4 := One(29_999_999_999, id, item, 2, {t1, t2}, [0, 29_999_999_999]);
    acts := Push(Init(0), [], Init(0), Accept(id, item), s1);
    BeatOfOne(0, id, item, 0, {}, []);
    assert [] + [0] == [0] && {} + {t1} == {t1};
    acts := Push(Init(0), acts, s1, Beat(id), s2);
    acts := Push(Init(0), acts, s2, Wait(29_999_999_999), s3);
    BeatOfOne(29_999_999_999, id, item, 1, {t1}, [0]);
    assert [0] + [29_999_999_999] == [0, 29_999_999_999] && {t1} + {t2} == {t1, t2};
    acts := Push(Init(0), acts, s3, Beat(id), s4);
  }

  /** The timer of the first heartbeat then does nothing. */
  lemma RenewedRun(id: string, item: nat) returns (acts: seq<Action>)
    ensures acts == [Wait(1), CheckTimer(Timer(item, 1, 30_000_000_000))]
    ensures Runs(One(29_999_999_999, id, item, 2, {Timer(item, 1, 30_000_000_000), Timer(item, 2, 59_999_999_999)},
                     [0, 29_999_999_999]), acts,
                 One(30_000_000_000, id, item, 2, {Timer(item, 2, 59_999_999_999)}, [0, 29_999_999_999]))
  {
    var t1, t2 := Timer(item, 1, 30_000_000_000), Timer(item, 2, 59_999_999_999);
    var s4 := One(29_999_999_999, id, item, 2, {t1, t2}, [0, 29_999_999_999]);
    var s5 := One(30_000_000_000, id, item, 2, {t1, t2}, [0, 29_999_999_999]);
    acts := Push(s4, [], s4, Wait(1), s5);
    assert {t1, t2} - {t1} == {t2};
    acts := Push(s4, acts, s5, CheckTimer(t1), One(30_000_000_000, id, item, 2, {t2}, [0, 29_999_999_999]));
  }

  /** With no third heartbeat the invoker goes thirty seconds after the second. */
  lemma ExpiredRun(id: string, item: nat) returns (acts: seq<Action>)
    ensures acts == [Wait(29_999_999_999), CheckTimer(Timer(item, 2, 59_999_999_999)), DeleteDoomed(id)]
    ensures Runs(One(30_000_000_000, id, item, 2, {Timer(item, 2, 59_999_999_999)}, [0, 29_999_999_999]), acts,
                 Expired(59_999_999_999, id, item, [0, 29_999_999_999]))
  {
    var t2 := Timer(item, 2, 59_999_999_999);
    var s := One(30_000_000_000, id, item, 2, {t2}, [0, 29_999_999_999]);
    var s1 := One(59_999_999_999, id, item, 2, {t2}, [0, 29_999_999_999]);
    var s2 := s1.(cache := s1.cache.(timers := {}), doomed := {id}, expired := map[id := 59_999_999_999]);
    acts := Push(s, [], s, Wait(29_999_999_999), s1);
    acts := Push(s, acts, s1, CheckTimer(t2), s2);
    acts := Push(s, acts, s2, DeleteDoomed(id), Expired(59_999_999_999, id, item, [0, 29_999_999_999]));
  }

  /** Leaving the route for another reason takes the entry out at once; its timers stay. */
  lemma ClosedRun(now: int, id: string, item: nat, version: nat, timers: set<Timer<nat>>, beats: seq<int>)
    returns (acts: seq<Action>)
    requires WellFormed(One(now, id, item, version, timers, beats).cache)
    ensures acts == [Close(id)]
    ensures var s := One(now, id, item, version, timers, beats);
      Runs(s, acts, s.(cache := s.cache.(index := map[])))
  {
    var s := One(now, id, item, version, timers, beats);
    acts := Push(s, [], s, Close(id), s.(cache := s.cache.(index := map[])));
  }
}
