/**
 The cache as its goroutines run it: a timer's version check and the delete that
 it leaves to another goroutine are steps of their own, any number of such
 deletes may be pending, and anything may happen in between. When is that the
 cache in which every timer checks and deletes at once?
 */
module CacheSplit {
  import opened Prelude
  import opened CacheModel
  import opened CacheRuns

  /** doomed has a key as often as a delete of it is left to do. */
  datatype Split<I(==), T> = Split(cache: State<I, T>, doomed: multiset<string>)

  datatype Act<I, T> =
    | Caller(st: Step<I, T>)                    // what the users of the cache do
    | CheckTimer(now: int, timer: Timer<I>)
    | DeleteDoomed(now: int, key: string)

  function Time<I, T>(act: Act<I, T>): int {
    match act
    case Caller(st) => st.now
    case CheckTimer(now, _) => now
    case DeleteDoomed(now, _) => now
  }

  predicate Creates<I, T>(op: Op<I, T>) {
    op.Set? || op.SetValue?
  }

  /** Callers do not fire timers, and the identities of new items are drawn afresh. */
  ghost predicate Enabled<I, T>(a: Split<I, T>, act: Act<I, T>) {
    match act
    case Caller(st) =>
      !st.op.Fire? && CacheModel.Enabled(a.cache, st) && (Creates(st.op) ==> st.op.item !in a.cache.heap)
    case CheckTimer(now, t) => t in a.cache.timers && t.due <= now
    case DeleteDoomed(_, k) => k in a.doomed
  }

  function Next<I, T>(a: Split<I, T>, act: Act<I, T>): Split<I, T>
    requires WellFormed(a.cache) && Enabled(a, act)
  {
    match act
    case Caller(st) => a.(cache := Apply(a.cache, st))
    case CheckTimer(_, t) =>
      Split(Check(a.cache, t), if Live(a.cache, t) then a.doomed + multiset{a.cache.heap[t.item].key} else a.doomed)
    case DeleteDoomed(_, k) => Split(Remove(a.cache, k), a.doomed - multiset{k})
  }

  ghost predicate Run<I, T>(a: Split<I, T>, now: int, acts: seq<Act<I, T>>, t: Split<I, T>)
    decreases |acts|
  {
    if acts == [] then a == t
    else
      && now <= Time(acts[0]) && WellFormed(a.cache) && Enabled(a, acts[0])
      && Run(Next(a, acts[0]), Time(acts[0]), acts[1..], t)
  }

  function New<I, T>(): Split<I, T> {
    Split(Empty(), multiset{})
  }

  lemma NextWellFormed<I, T>(a: Split<I, T>, act: Act<I, T>)
    requires WellFormed(a.cache) && Enabled(a, act)
    ensures WellFormed(Next(a, act).cache)
  {
    if act.Caller? {
      ApplyWellFormed(a.cache, act.st);
    }
  }

  // ---------- the cache that deletes at once ----------

  /** The same act there: a check is followed by its delete without a gap, so none is left to do. */
  function AtOnce<I, T>(act: Act<I, T>): seq<Step<I, T>> {
    match act
    case Caller(st) => [st]
    case CheckTimer(now, t) => [Step(now, Fire(t))]
    case DeleteDoomed(_, _) => []
  }

  function AllAtOnce<I, T>(acts: seq<Act<I, T>>): seq<Step<I, T>> {
    if acts == [] then [] else AtOnce(acts[0]) + AllAtOnce(acts[1..])
  }

  ghost predicate CanAtOnce<I, T>(b: State<I, T>, act: Act<I, T>) {
    forall n :: 0 <= n < |AtOnce(act)| ==> CacheModel.Enabled(b, AtOnce(act)[n])
  }

  function NextAtOnce<I, T>(b: State<I, T>, act: Act<I, T>): State<I, T>
    requires WellFormed(b) && CanAtOnce(b, act)
  {
    if AtOnce(act) == [] then b else Apply(b, AtOnce(act)[0])
  }

  /** The cache without the entries whose delete is still to come. */
  function Less<I, T>(a: Split<I, T>): State<I, T> {
    a.cache.(index := a.cache.index - (set k | k in a.doomed))
  }

  /** A caller sets a key while a delete of it is pending, or renews the entry that is about to be deleted. */
  predicate Meets<I, T>(a: Split<I, T>, act: Act<I, T>) {
    act.Caller? && !act.st.op.Fire? && act.st.op.key in a.doomed &&
    (Creates(act.st.op) || (act.st.op.SetExpire? && act.st.op.key in a.cache.index))
  }

  lemma LessWellFormed<I, T>(a: Split<I, T>)
    requires WellFormed(a.cache)
    ensures WellFormed(Less(a))
  {
  }

  lemma LessCanDo<I, T>(a: Split<I, T>, act: Act<I, T>)
    requires WellFormed(a.cache) && Enabled(a, act)
    ensures WellFormed(Less(a)) && CanAtOnce(Less(a), act)
  {
  }

  /** Outside the gaps of its key an operation does the same in both caches. */
  lemma CallerAlike<I, T>(a: Split<I, T>, st: Step<I, T>)
    requires WellFormed(a.cache) && Enabled(a, Caller(st)) && !Meets(a, Caller(st))
    requires WellFormed(Less(a)) && CacheModel.Enabled(Less(a), st)
    ensures Apply(Less(a), st) == Less(a.(cache := Apply(a.cache, st)))
  {
    var k := st.op.key;
    var gone := set j | j in a.doomed;
    assert k in Less(a).index <==> k in a.cache.index && k !in gone;
    if st.op.Delete? {
      assert a.cache.index - {k} - gone == a.cache.index - gone - {k};
    } else if k !in gone && Creates(st.op) && k !in a.cache.index {
      assert a.cache.index[k := st.op.item] - gone == (a.cache.index - gone)[k := st.op.item];
    }
  }

  /** A check with its delete at once, against the check alone. */
  lemma CheckAlike<I, T>(a: Split<I, T>, now: int, t: Timer<I>)
    requires WellFormed(a.cache) && Enabled(a, CheckTimer(now, t))
    requires WellFormed(Less(a)) && CacheModel.Enabled(Less(a), Step(now, Fire(t)))
    ensures Apply(Less(a), Step(now, Fire(t))) == Less(Next(a, CheckTimer(now, t)))
  {
    var gone := set j | j in a.doomed;
    if Live(a.cache, t) {
      var k := a.cache.heap[t.item].key;
      assert (set j | j in Next(a, CheckTimer(now, t)).doomed) == gone + {k};
      assert a.cache.index - (gone + {k}) == a.cache.index - gone - {k};
    }
  }

  lemma DeleteAlike<I, T>(a: Split<I, T>, now: int, k: string)
    requires WellFormed(a.cache) && Enabled(a, DeleteDoomed(now, k))
    ensures Less(a) == Less(Next(a, DeleteDoomed(now, k)))
  {
    var gone := set j | j in a.doomed;
    var left := set j | j in a.doomed - multiset{k};
    assert gone == left + {k};
    assert a.cache.index - gone == a.cache.index - {k} - left;
  }

  /** One step: the two caches stay alike exactly if it does not meet a pending delete. */
  lemma StepAlike<I, T>(a: Split<I, T>, act: Act<I, T>)
    requires WellFormed(a.cache) && Enabled(a, act)
    ensures WellFormed(Less(a)) && CanAtOnce(Less(a), act)
    ensures NextAtOnce(Less(a), act) == Less(Next(a, act)) <==> !Meets(a, act)
  {
    LessCanDo(a, act);
    match act
    case CheckTimer(now, t) => CheckAlike(a, now, t);
    case DeleteDoomed(now, k) => DeleteAlike(a, now, k);
    case Caller(st) =>
      if Meets(a, act) {
        MeetingDiffers(a, st);
      } else {
        CallerAlike(a, st);
      }
  }

  lemma MeetingDiffers<I, T>(a: Split<I, T>, st: Step<I, T>)
    requires WellFormed(a.cache) && Enabled(a, Caller(st)) && Meets(a, Caller(st))
    requires WellFormed(Less(a)) && CacheModel.Enabled(Less(a), st)
    ensures Apply(Less(a), st) != Less(a.(cache := Apply(a.cache, st)))
  {
    var k := st.op.key;
    assert k !in Less(a).index;
    if Creates(st.op) {
      assert k in Apply(Less(a), st).index && k !in Less(a.(cache := Apply(a.cache, st))).index;
    } else {
      var i := a.cache.index[k];
      assert Apply(Less(a), st).heap[i].version != Apply(a.cache, st).heap[i].version;
    }
  }

  // ---------- whole runs ----------

  /** At every moment of the run the one cache is the other one less the entries about to be deleted. */
  ghost predicate AlikeThroughout<I, T>(a: Split<I, T>, b: State<I, T>, now: int, acts: seq<Act<I, T>>, t: Split<I, T>)
    requires Run(a, now, acts, t)
    decreases |acts|
  {
    && b == Less(a)
    && (acts == [] ||
        (&& WellFormed(b) && CanAtOnce(b, acts[0])
         && AlikeThroughout(Next(a, acts[0]), NextAtOnce(b, acts[0]), Time(acts[0]), acts[1..], t)))
  }

  /** No caller of the run meets a pending delete. */
  ghost predicate NeverMet<I, T>(a: Split<I, T>, now: int, acts: seq<Act<I, T>>, t: Split<I, T>)
    requires Run(a, now, acts, t)
    decreases |acts|
  {
    acts == [] || (!Meets(a, acts[0]) && NeverMet(Next(a, acts[0]), Time(acts[0]), acts[1..], t))
  }

  /**
   The cache with split timers is at every moment the one that deletes at once,
   less what it is about to delete, if and only if no caller ever sets a key, or
   renews its entry, while a delete of that key is pending.
   */
  lemma {:induction false} AlikeExactly<I, T>(a: Split<I, T>, now: int, acts: seq<Act<I, T>>, t: Split<I, T>)
    requires WellFormed(a.cache) && Run(a, now, acts, t)
    ensures AlikeThroughout(a, Less(a), now, acts, t) <==> NeverMet(a, now, acts, t)
    decreases |acts|
  {
    if acts != [] {
      var a1 := Next(a, acts[0]);
      StepAlike(a, acts[0]);
      NextWellFormed(a, acts[0]);
      AlikeExactly(a1, Time(acts[0]), acts[1..], t);
      if Meets(a, acts[0]) {
        NotAlikeNow(a1, NextAtOnce(Less(a), acts[0]), Time(acts[0]), acts[1..], t);
      }
    }
  }

  lemma NotAlikeNow<I, T>(a: Split<I, T>, b: State<I, T>, now: int, acts: seq<Act<I, T>>, t: Split<I, T>)
    requires Run(a, now, acts, t) && b != Less(a)
    ensures !AlikeThroughout(a, b, now, acts, t)
  {
  }

  /** Then it is, step by step, a run of the cache with atomic firing, and once no delete is pending the very same state. */
  lemma {:induction false} SplitIsAtomic<I, T>(a: Split<I, T>, now: int, acts: seq<Act<I, T>>, t: Split<I, T>)
    requires WellFormed(a.cache) && Run(a, now, acts, t) && NeverMet(a, now, acts, t)
    ensures CacheRuns.Run(Less(a), now, AllAtOnce(acts), Less(t))
    ensures t.doomed == multiset{} ==> Less(t) == t.cache
    decreases |acts|
  {
    if acts == [] {
      if t.doomed == multiset{} {
        assert t.cache.index - (set k | k in t.doomed) == t.cache.index;
      }
    } else {
      StepAlike(a, acts[0]);
      NextWellFormed(a, acts[0]);
      SplitIsAtomic(Next(a, acts[0]), Time(acts[0]), acts[1..], t);
      LaterStart(Less(Next(a, acts[0])), now, Time(acts[0]), AllAtOnce(acts[1..]), Less(t));
      if AtOnce(acts[0]) == [] {
        assert AllAtOnce(acts) == AllAtOnce(acts[1..]);
      } else {
        assert AllAtOnce(acts)[1..] == AllAtOnce(acts[1..]);
      }
    }
  }

  lemma LaterStart<I, T>(b: State<I, T>, now: int, later: int, steps: seq<Step<I, T>>, b': State<I, T>)
    requires now <= later && CacheRuns.Run(b, later, steps, b')
    ensures CacheRuns.Run(b, now, steps, b')
  {
  }

  // ---------- what a meeting leads to ----------

  lemma Prepend<I, T>(a: Split<I, T>, act: Act<I, T>, a1: Split<I, T>, now: int, rest: seq<Act<I, T>>, t: Split<I, T>)
    returns (acts: seq<Act<I, T>>)
    requires WellFormed(a.cache) && Enabled(a, act) && Next(a, act) == a1
    requires now <= Time(act) && Run(a1, Time(act), rest, t)
    ensures acts == [act] + rest && Run(a, now, acts, t) && AllAtOnce(acts) == AtOnce(act) + AllAtOnce(rest)
  {
    acts := [act] + rest;
    assert acts[1..] == rest;
  }

  /** All pending deletes of a key, one after the other, and then the given run. */
  lemma {:induction false} DeletesFirst<I, T>(a: Split<I, T>, now: int, k: string, rest: seq<Act<I, T>>, t: Split<I, T>)
    returns (acts: seq<Act<I, T>>)
    requires WellFormed(a.cache) && k in a.doomed && Run(Split(Remove(a.cache, k), a.doomed[k := 0]), now, rest, t)
    ensures Run(a, now, acts, t) && AllAtOnce(acts) == AllAtOnce(rest)
    decreases a.doomed[k]
  {
    var act := DeleteDoomed(now, k);
    var a1 := Next(a, act);
    var later := rest;
    assert a1.cache.index - {k} == a1.cache.index;
    if k in a1.doomed {
      assert a1.doomed[k := 0] == a.doomed[k := 0];
      later := DeletesFirst(a1, now, k, rest, t);
    } else {
      assert a1.doomed == a.doomed[k := 0];
    }
    acts := Prepend(a, act, a1, now, later, t);
    assert AtOnce(act) + AllAtOnce(later) == AllAtOnce(later);
  }

  /** These acts take the one cache to t, and the other one, which deletes at once, to b. */
  ghost predicate BothRun<I, T>(a: Split<I, T>, now: int, acts: seq<Act<I, T>>, t: Split<I, T>, b: State<I, T>) {
    Run(a, now, acts, t) && CacheRuns.Run(Less(a), now, AllAtOnce(acts), b)
  }

  /** A value that meets a pending delete is lost with it; the cache that deletes at once keeps it. */
  lemma MetValueIsLost<I, T>(a: Split<I, T>, st: Step<I, T>)
    returns (acts: seq<Act<I, T>>, t: Split<I, T>, b: State<I, T>)
    requires WellFormed(a.cache) && Enabled(a, Caller(st)) && Meets(a, Caller(st)) && Creates(st.op)
    ensures BothRun(a, st.now, acts, t, b) && st.op.key !in t.cache.index && st.op.key in b.index
  {
    var k := st.op.key;
    var a1 := Next(a, Caller(st));
    NextWellFormed(a, Caller(st));
    LessCanDo(a, Caller(st));
    t := Split(Remove(a1.cache, k), a1.doomed[k := 0]);
    var deletes := DeletesFirst(a1, st.now, k, [], t);
    acts := Prepend(a, Caller(st), a1, st.now, deletes, t);
    b := Apply(Less(a), st);
    assert AllAtOnce(acts) == [st] + [];
  }

  /** The timer of a renewal that met a pending delete. */
  function LeftTimer<I, T>(a: Split<I, T>, k: string, now: int, d: int): Timer<I>
    requires WellFormed(a.cache) && k in a.cache.index
  {
    var i := a.cache.index[k];
    Timer(i, a.cache.heap[i].version + 1, now + d)
  }

  /** The cache after a renewal of k, its pending deletes, and a value set for k. */
  function SetAgain<I, T>(a: Split<I, T>, k: string, now: int, d: int, v: T, j: I): Split<I, T>
    requires WellFormed(a.cache) && k in a.cache.index
  {
    Split(Insert(Remove(Renew(a.cache, a.cache.index[k], now + d), k), k, v, j), a.doomed[k := 0])
  }

  /** This timer can take key k away at this moment, though its entry, item j, has no deadline. */
  ghost predicate StruckBy<I, T>(s: State<I, T>, now: int, u: Timer<I>, k: string, j: I) {
    WellFormed(s) && Removes(s, now, u, k) && s.index[k] == j && DeadlineOf(s, j) == None
  }

  lemma LeftTimerStrikes<I, T>(a: Split<I, T>, k: string, now: int, d: nat, v: T, j: I)
    requires WellFormed(a.cache) && k in a.cache.index && j !in a.cache.heap
    ensures StruckBy(SetAgain(a, k, now, d, v, j).cache, now + d, LeftTimer(a, k, now, d), k, j)
  {
    NoDeadline(SetAgain(a, k, now, d, v, j).cache, j);
  }

  /**
   A renewal that meets a pending delete leaves its timer behind. When the key is
   set again, without any deadline and with no delete pending, that timer takes
   the new entry away; the cache that deletes at once has no such timer.
   */
  lemma MetRenewalStrikesLater<I, T>(a: Split<I, T>, k: string, now: int, d: nat, v: T, j: I)
    returns (acts: seq<Act<I, T>>, t: Split<I, T>, b: State<I, T>)
    requires WellFormed(a.cache) && k in a.doomed && k in a.cache.index && j !in a.cache.heap
    ensures BothRun(a, now, acts, t, b) && k !in t.doomed
    ensures StruckBy(t.cache, now + d, LeftTimer(a, k, now, d), k, j)
    ensures k in b.index && LeftTimer(a, k, now, d) !in b.timers
  {
    t, b := SetAgain(a, k, now, d, v, j), Insert(Less(a), k, v, j);
    LeftTimerStrikes(a, k, now, d, v, j);
    AtOnceRenewal(a, k, now, d, v, j);
    acts := RenewAndSet(a, k, now, d, v, j);
  }

  lemma RenewAndSet<I, T>(a: Split<I, T>, k: string, now: int, d: nat, v: T, j: I) returns (acts: seq<Act<I, T>>)
    requires WellFormed(a.cache) && k in a.doomed && k in a.cache.index && j !in a.cache.heap
    ensures Run(a, now, acts, SetAgain(a, k, now, d, v, j))
    ensures AllAtOnce(acts) == [Step(now, SetExpire(k, d)), Step(now, Set(k, v, j))]
  {
    var renew, again := Step(now, SetExpire(k, d)), Step(now, Set(k, v, j));
    var a1 := Next(a, Caller(renew));
    NextWellFormed(a, Caller(renew));
    var a2 := Split(Remove(a1.cache, k), a1.doomed[k := 0]);
    var t := SetAgain(a, k, now, d, v, j);
    acts := Prepend(a2, Caller(again), t, now, [], t);
    acts := DeletesFirst(a1, now, k, acts, t);
    acts := Prepend(a, Caller(renew), a1, now, acts, t);
    assert AllAtOnce(acts) == [renew] + [again];
  }

  lemma AtOnceRenewal<I, T>(a: Split<I, T>, k: string, now: int, d: nat, v: T, j: I)
    requires WellFormed(a.cache) && k in a.doomed && k in a.cache.index && j !in a.cache.heap
    ensures CacheRuns.Run(Less(a), now, [Step(now, SetExpire(k, d)), Step(now, Set(k, v, j))], Insert(Less(a), k, v, j))
    ensures LeftTimer(a, k, now, d) !in a.cache.timers
  {
    LessWellFormed(a);
    var steps := [Step(now, SetExpire(k, d)), Step(now, Set(k, v, j))];
    assert Apply(Less(a), steps[0]) == Less(a);
    assert steps[1..] == [steps[1]] && steps[1..][1..] == [];
    assert CacheRuns.Run(Less(a), now, steps[1..], Insert(Less(a), k, v, j));
  }

  /** The entry of key k, made at 0, has been checked at 30 and its delete is pending. */
  function Gap(k: string, i: nat): Split<nat, int> {
    Split(State(map[i := Item(k, 0, 1)], map[k := i], {}), multiset{k})
  }

  /** A new cache gets there by itself, and goes on from there. */
  lemma FromNew(k: string, i: nat, rest: seq<Act<nat, int>>, t: Split<nat, int>) returns (acts: seq<Act<nat, int>>)
    requires Run(Gap(k, i), 30, rest, t)
    ensures Run(New(), 0, acts, t)
    ensures AllAtOnce(acts) == [Step(0, SetValue(k, 0, 30, i)), Step(30, Fire(Timer(i, 1, 30)))] + AllAtOnce(rest)
  {
    FirstSteps(k, i);
    var made := Split(Ready(k, i), multiset{});
    var checked := Prepend(made, CheckTimer(30, Timer(i, 1, 30)), Gap(k, i), 0, rest, t);
    acts := Prepend(New(), Caller(Step(0, SetValue(k, 0, 30, i))), made, 0, checked, t);
  }

  lemma FirstSteps(k: string, i: nat)
    ensures var create, made := Caller(Step(0, SetValue(k, 0, 30, i))), Split(Ready(k, i), multiset{});
      && Enabled(New<nat, int>(), create) && Next(New<nat, int>(), create) == made && WellFormed(made.cache)
      && Enabled(made, CheckTimer(30, Timer(i, 1, 30))) && Next(made, CheckTimer(30, Timer(i, 1, 30))) == Gap(k, i)
  {
  }

  /** One entry, due at 30. */
  function Ready(k: string, i: nat): State<nat, int> {
    State(map[i := Item(k, 0, 1)], map[k := i], {Timer(i, 1, 30)})
  }

  /** The entry is gone, and so is its timer. */
  function Gone(k: string, i: nat): State<nat, int> {
    State(map[i := Item(k, 0, 1)], map[], {})
  }

  lemma FromEmpty(k: string, i: nat, rest: seq<Step<nat, int>>, b: State<nat, int>) returns (steps: seq<Step<nat, int>>)
    requires CacheRuns.Run(Gone(k, i), 30, rest, b)
    ensures steps == [Step(0, SetValue(k, 0, 30, i)), Step(30, Fire(Timer(i, 1, 30)))] + rest
    ensures CacheRuns.Run(Empty(), 0, steps, b)
  {
    var fired := RunStep(Ready(k, i), Step(30, Fire(Timer(i, 1, 30))), Gone(k, i), rest, b);
    LaterStart(Ready(k, i), 0, 30, fired, b);
    assert Apply(Empty(), Step(0, SetValue(k, 0, 30, i))) == Ready(k, i);
    steps := RunStep(Empty(), Step(0, SetValue(k, 0, 30, i)), Ready(k, i), fired, b);
  }

  /** After a renewal in the gap, the delete, and a value without a deadline. */
  function Struck(k: string, i: nat, j: nat, v: int): Split<nat, int> {
    Split(State(map[i := Item(k, 0, 2), j := Item(k, v, 0)], map[k := j], {Timer(i, 2, 60)}), multiset{})
  }

  function Kept(k: string, i: nat, j: nat, v: int): State<nat, int> {
    State(map[i := Item(k, 0, 1), j := Item(k, v, 0)], map[k := j], {})
  }

  lemma InTheGap(k: string, i: nat, j: nat, v: int) returns (acts: seq<Act<nat, int>>)
    requires i != j
    ensures Run(Gap(k, i), 30, acts, Struck(k, i, j, v))
    ensures AllAtOnce(acts) == [Step(30, SetExpire(k, 30)), Step(31, Set(k, v, j))]
  {
    var renewed := Split(State(map[i := Item(k, 0, 2)], map[k := i], {Timer(i, 2, 60)}), multiset{k});
    var deleted := Split(State(map[i := Item(k, 0, 2)], map[], {Timer(i, 2, 60)}), multiset{});
    acts := Prepend(deleted, Caller(Step(31, Set(k, v, j))), Struck(k, i, j, v), 30, [], Struck(k, i, j, v));
    acts := Prepend(renewed, DeleteDoomed(30, k), deleted, 30, acts, Struck(k, i, j, v));
    acts := Prepend(Gap(k, i), Caller(Step(30, SetExpire(k, 30))), renewed, 30, acts, Struck(k, i, j, v));
  }

  lemma AtOnceMeanwhile(k: string, i: nat, j: nat, v: int)
    requires i != j
    ensures CacheRuns.Run(Gone(k, i), 30, [Step(30, SetExpire(k, 30)), Step(31, Set(k, v, j))], Kept(k, i, j, v))
  {
    var steps := RunStep(Gone(k, i), Step(31, Set(k, v, j)), Kept(k, i, j, v), [], Kept(k, i, j, v));
    LaterStart(Gone(k, i), 30, 31, steps, Kept(k, i, j, v));
    steps := RunStep(Gone(k, i), Step(30, SetExpire(k, 30)), Gone(k, i), steps, Kept(k, i, j, v));
    assert steps == [Step(30, SetExpire(k, 30)), Step(31, Set(k, v, j))];
  }

  /**
   Such a run of a new cache: nobody sets the key in the gap, only a renewal meets
   the delete; later the key is set without a deadline, and 29 units after that the
   timer of the renewal can take it away. Deleting at once leaves no timer at all.
   */
  lemma RenewalStrikesLater(k: string, i: nat, j: nat, v: int) returns (acts: seq<Act<nat, int>>)
    requires i != j
    ensures Run(New(), 0, acts, Struck(k, i, j, v))
    ensures WellFormed(Struck(k, i, j, v).cache) && Removes(Struck(k, i, j, v).cache, 60, Timer(i, 2, 60), k)
    ensures CacheRuns.Run(Empty(), 0, AllAtOnce(acts), Kept(k, i, j, v))
  {
    var rest := InTheGap(k, i, j, v);
    acts := FromNew(k, i, rest, Struck(k, i, j, v));
    AtOnceMeanwhile(k, i, j, v);
    var steps := FromEmpty(k, i, AllAtOnce(rest), Kept(k, i, j, v));
  }
}
