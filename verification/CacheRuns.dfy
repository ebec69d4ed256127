/** Whole runs of the cache with atomic firing: when entries expire, and when it is a plain map with deadlines. */
module CacheRuns {
  import opened Prelude
  import opened CacheModel

  function Empty<I, T>(): State<I, T> {
    State(map[], map[], {})
  }

  /** Steps in the order in which they happen, from time now on. */
  ghost predicate Run<I, T>(s: State<I, T>, now: int, steps: seq<Step<I, T>>, t: State<I, T>)
    decreases |steps|
  {
    if steps == [] then s == t
    else
      && now <= steps[0].now && WellFormed(s) && Enabled(s, steps[0])
      && Run(Apply(s, steps[0]), steps[0].now, steps[1..], t)
  }

  // ---------- arbitrary runs: the map with deadlines and orphans ----------

  /** Entry i has this key and a deadline that has passed. */
  ghost predicate DueEntry<I, T>(m: DeadlineMap<I, T>, i: I, key: string, now: int) {
    || (i in m.orphans && m.orphans[i].key == key && m.orphans[i].deadline <= now)
    || (key in m.live && m.live[key].item == i && m.live[key].deadline.Some? && m.live[key].deadline.value <= now)
  }

  /** What the reference map may do in one step; a timer either does nothing or expires a due entry. */
  ghost predicate MapNext<I, T>(m: DeadlineMap<I, T>, st: Step<I, T>, m': DeadlineMap<I, T>) {
    if st.op.Fire?
    then m' == m || exists key :: DueEntry(m, st.op.timer.item, key, st.now) && m' == Expire(m, st.op.timer.item, key)
    else m' == MapStep(m, st, None)
  }

  ghost predicate MapRun<I, T>(ms: seq<DeadlineMap<I, T>>, steps: seq<Step<I, T>>) {
    |ms| == |steps| + 1 && forall n :: 0 <= n < |steps| ==> MapNext(ms[n], steps[n], ms[n + 1])
  }

  lemma LiveTimerIsDue<I, T>(s: State<I, T>, m: DeadlineMap<I, T>, t: Timer<I>, now: int)
    requires Represents(s, m) && Live(s, t) && t.due <= now
    ensures DueEntry(m, t.item, s.heap[t.item].key, now)
  {
    LiveTimerIsUnique(s, t);
    assert OrphanAt(s, m, t.item);
    assert LiveAt(s, m, s.heap[t.item].key);
  }

  lemma StepFollowsMap<I, T>(s: State<I, T>, m: DeadlineMap<I, T>, st: Step<I, T>) returns (m': DeadlineMap<I, T>)
    requires Represents(s, m) && Enabled(s, st)
    ensures Represents(Apply(s, st), m') && MapNext(m, st, m')
  {
    StepRefines(s, m, st);
    m' := MapStep(m, st, Fires(s, st.op));
    if Fires(s, st.op).Some? {
      LiveTimerIsDue(s, m, st.op.timer, st.now);
    }
  }

  /** Any run of the cache is, step by step, a run of the map with deadlines. */
  lemma {:induction false} RunFollowsMap<I, T>(s: State<I, T>, m: DeadlineMap<I, T>, now: int, steps: seq<Step<I, T>>,
                                               t: State<I, T>)
    returns (ms: seq<DeadlineMap<I, T>>)
    requires Represents(s, m) && Run(s, now, steps, t)
    ensures MapRun(ms, steps) && ms[0] == m && Represents(t, ms[|steps|])
    decreases |steps|
  {
    if steps == [] {
      ms := [m];
    } else {
      var m' := StepFollowsMap(s, m, steps[0]);
      var rest := RunFollowsMap(Apply(s, steps[0]), m', steps[0].now, steps[1..], t);
      ms := [m] + rest;
    }
  }

  lemma EmptyRepresents<I, T>()
    ensures Represents(Empty<I, T>(), DeadlineMap(map[], map[]))
  {
  }

  /** Firing timer t now takes key k out. */
  ghost predicate Removes<I, T>(s: State<I, T>, now: int, t: Timer<I>, k: string)
    requires WellFormed(s)
  {
    && Enabled(s, Step(now, Fire(t)))
    && k in s.index && k !in Apply(s, Step(now, Fire(t))).index
  }

  /** The current entry of k, or an earlier deleted one, has a deadline that has passed. */
  ghost predicate MayExpire<I, T>(m: DeadlineMap<I, T>, k: string, now: int) {
    && k in m.live
    && (DueEntry(m, m.live[k].item, k, now)
        || exists i :: i in m.orphans && m.orphans[i].key == k && m.orphans[i].deadline <= now)
  }

  /**
   For arbitrary runs: a timer can remove a key now exactly when the deadline of
   its current entry, or of an earlier entry that was deleted unexpired, has
   passed in the reference map.
   */
  lemma ExactExpiry<I, T>(s: State<I, T>, m: DeadlineMap<I, T>, now: int, k: string)
    requires Represents(s, m)
    ensures MayExpire(m, k, now) <==> exists t :: t in s.timers && Removes(s, now, t, k)
  {
    assert LiveAt(s, m, k);
    if MayExpire(m, k, now) {
      var i;
      if i' :| i' in m.orphans && m.orphans[i'].key == k && m.orphans[i'].deadline <= now {
        i := i';
        assert OrphanAt(s, m, i);
      } else {
        i := m.live[k].item;
        assert i in m.orphans ==> OrphanAt(s, m, i);
      }
      var t := DeadlineHasTimer(s, i);
      assert Removes(s, now, t, k);
    }
    if t :| t in s.timers && Removes(s, now, t, k) {
      LiveTimerIsDue(s, m, t, now);
      assert LiveAt(s, m, k) && OrphanAt(s, m, t.item);
    }
  }

  /** The same for every run of a new cache: the reference map is one that the run itself determines, step by step. */
  lemma ExpiryInRuns<I, T>(now: int, steps: seq<Step<I, T>>, t: State<I, T>, k: string, later: int)
    returns (ms: seq<DeadlineMap<I, T>>)
    requires Run(Empty(), now, steps, t)
    ensures MapRun(ms, steps) && ms[0] == DeadlineMap(map[], map[]) && Represents(t, ms[|steps|])
    ensures MayExpire(ms[|steps|], k, later) <==> exists u :: u in t.timers && Removes(t, later, u, k)
  {
    EmptyRepresents<I, T>();
    ms := RunFollowsMap(Empty(), DeadlineMap(map[], map[]), now, steps, t);
    ExactExpiry(t, ms[|steps|], later, k);
  }

  /** Key k created by item i at 0 for ten units, deleted at 1 and created again by item j at 2 for a hundred. */
  function First(k: string, i: nat): State<nat, int> {
    State(map[i := Item(k, 0, 1)], map[k := i], {Timer(i, 1, 10)})
  }

  function Again(k: string, i: nat, j: nat): State<nat, int> {
    State(map[i := Item(k, 0, 1), j := Item(k, 1, 1)], map[k := j], {Timer(i, 1, 10), Timer(j, 1, 102)})
  }

  lemma AgainIsReached(k: string, i: nat, j: nat) returns (steps: seq<Step<nat, int>>)
    requires i != j
    ensures Run(Empty(), 0, steps, Again(k, i, j))
  {
    var deleted := Remove(First(k, i), k);
    steps := RunStep(deleted, Step(2, SetValue(k, 1, 100, j)), Again(k, i, j), [], Again(k, i, j));
    steps := RunStep(First(k, i), Step(1, Delete(k)), deleted, steps, Again(k, i, j));
    assert Apply(Empty(), Step(0, SetValue(k, 0, 10, i))) == First(k, i);
    steps := RunStep(Empty(), Step(0, SetValue(k, 0, 10, i)), First(k, i), steps, Again(k, i, j));
  }

  /** An entry created again after a delete can go with the timer of its predecessor, long before its own deadline. */
  lemma RecreatedExpiresEarly(k: string, i: nat, j: nat) returns (steps: seq<Step<nat, int>>)
    requires i != j
    ensures Run(Empty(), 0, steps, Again(k, i, j))
    ensures WellFormed(Again(k, i, j)) && Removes(Again(k, i, j), 10, Timer(i, 1, 10), k)
    ensures DeadlineOf(Again(k, i, j), j) == Some(102) && Again(k, i, j).index[k] == j
  {
    steps := AgainIsReached(k, i, j);
    LiveTimerIsUnique(Again(k, i, j), Timer(j, 1, 102));
  }

  lemma RunStep<I, T>(s: State<I, T>, st: Step<I, T>, s1: State<I, T>, rest: seq<Step<I, T>>, t: State<I, T>)
    returns (steps: seq<Step<I, T>>)
    requires WellFormed(s) && Enabled(s, st) && Apply(s, st) == s1 && Run(s1, st.now, rest, t)
    ensures steps == [st] + rest && Run(s, st.now, steps, t)
  {
    steps := [st] + rest;
    assert steps[1..] == rest;
  }

  // ---------- runs without re-creation: the plain map ----------

  datatype PlainEntry<T> = PlainEntry(value: T, deadline: Option<int>)

  ghost function View<I, T>(m: DeadlineMap<I, T>): map<string, PlainEntry<T>> {
    map k | k in m.live :: PlainEntry(m.live[k].value, m.live[k].deadline)
  }

  /** The textbook map: SetExpire and SetValue replace the deadline, Set clears it, and a due entry may go. */
  ghost predicate PlainNext<I, T>(p: map<string, PlainEntry<T>>, st: Step<I, T>, p': map<string, PlainEntry<T>>) {
    match st.op
    case Set(k, v, _) => p' == p[k := PlainEntry(v, None)]
    case SetValue(k, v, d, _) => p' == p[k := PlainEntry(v, Some(st.now + d))]
    case SetExpire(k, d) => p' == if k in p then p[k := PlainEntry(p[k].value, Some(st.now + d))] else p
    case Delete(k) => p' == p - {k}
    case Fire(_) =>
      p' == p || exists k :: k in p && p[k].deadline.Some? && p[k].deadline.value <= st.now && p' == p - {k}
  }

  ghost predicate PlainRun<I, T>(ps: seq<map<string, PlainEntry<T>>>, steps: seq<Step<I, T>>) {
    |ps| == |steps| + 1 && forall n :: 0 <= n < |steps| ==> PlainNext(ps[n], steps[n], ps[n + 1])
  }

  /** Keys that have been deleted while they had a deadline. */
  ghost function TaintedBy<I, T>(s: State<I, T>, op: Op<I, T>): set<string> {
    if op.Delete? && op.key in s.index && DeadlineOf(s, s.index[op.key]).Some? then {op.key} else {}
  }

  predicate Creates<I, T>(s: State<I, T>, op: Op<I, T>) {
    (op.Set? || op.SetValue?) && op.key !in s.index
  }

  /** No key is deleted while it has a live timer and created again later. */
  ghost predicate NoReuse<I, T>(s: State<I, T>, now: int, steps: seq<Step<I, T>>, t: State<I, T>, tainted: set<string>)
    requires Run(s, now, steps, t)
    decreases |steps|
  {
    steps == [] ||
    (&& (Creates(s, steps[0].op) ==> steps[0].op.key !in tainted)
     && NoReuse(Apply(s, steps[0]), steps[0].now, steps[1..], t, tainted + TaintedBy(s, steps[0].op)))
  }

  ghost predicate OnlyTaintedOrphans<I, T>(m: DeadlineMap<I, T>, tainted: set<string>) {
    && (forall i :: i in m.orphans ==> m.orphans[i].key in tainted)
    && (forall k :: k in m.live ==> k !in tainted)
  }

  lemma PlainFire<I, T>(s: State<I, T>, m: DeadlineMap<I, T>, st: Step<I, T>, tainted: set<string>)
    requires Represents(s, m) && Enabled(s, st) && Fires(s, st.op).Some? && OnlyTaintedOrphans(m, tainted)
    ensures var m' := MapStep(m, st, Fires(s, st.op));
      OnlyTaintedOrphans(m', tainted) && PlainNext(View(m), st, View(m'))
  {
    var i := st.op.timer.item;
    var key := s.heap[i].key;
    var m' := MapStep(m, st, Fires(s, st.op));
    LiveTimerIsDue(s, m, st.op.timer, st.now);
    assert OrphanAt(s, m, i);
    if i in m.orphans {
      assert m.orphans[i].key == key;
      assert View(m') == View(m);
    } else {
      assert View(m') == View(m) - {key};
    }
  }

  lemma ViewPut<I, T>(m: DeadlineMap<I, T>, k: string, v: T, d: Option<int>, i: I)
    ensures View(Put(m, k, v, d, i)) == View(m)[k := PlainEntry(v, d)]
  {
  }

  lemma ViewDeadline<I, T>(m: DeadlineMap<I, T>, k: string, d: Option<int>)
    requires k in m.live
    ensures View(WithDeadline(m, k, d)) == View(m)[k := PlainEntry(View(m)[k].value, d)]
  {
  }

  lemma ViewDrop<I, T>(m: DeadlineMap<I, T>, k: string)
    ensures View(Drop(m, k)) == View(m) - {k}
  {
  }

  lemma PlainStep<I, T>(s: State<I, T>, m: DeadlineMap<I, T>, st: Step<I, T>, tainted: set<string>)
    requires Represents(s, m) && Enabled(s, st) && OnlyTaintedOrphans(m, tainted)
    ensures PlainNext(View(m), st, View(MapStep(m, st, Fires(s, st.op))))
  {
    match st.op
    case Fire(t) =>
      if Live(s, t) {
        PlainFire(s, m, st, tainted);
      }
    case Set(k, v, i) => ViewPut(m, k, v, None, i);
    case SetValue(k, v, d, i) => ViewPut(m, k, v, Some(st.now + d), i);
    case SetExpire(k, d) =>
      if k in m.live {
        ViewDeadline(m, k, Some(st.now + d));
      }
    case Delete(k) => ViewDrop(m, k);
  }

  lemma TaintStep<I, T>(s: State<I, T>, m: DeadlineMap<I, T>, st: Step<I, T>, tainted: set<string>)
    requires Represents(s, m) && Enabled(s, st) && OnlyTaintedOrphans(m, tainted)
    requires Creates(s, st.op) ==> st.op.key !in tainted
    ensures OnlyTaintedOrphans(MapStep(m, st, Fires(s, st.op)), tainted + TaintedBy(s, st.op))
  {
    if st.op.Fire? {
      if Live(s, st.op.timer) {
        PlainFire(s, m, st, tainted);
      }
    } else {
      assert LiveAt(s, m, st.op.key);
    }
  }

  /** On runs that never re-create a key deleted with a live timer, the cache is the plain map. */
  lemma {:induction false} RunRefinesPlainMap<I, T>(s: State<I, T>, m: DeadlineMap<I, T>, now: int,
                                                    steps: seq<Step<I, T>>, t: State<I, T>, tainted: set<string>)
    returns (ps: seq<map<string, PlainEntry<T>>>, m': DeadlineMap<I, T>)
    requires Represents(s, m) && OnlyTaintedOrphans(m, tainted)
    requires Run(s, now, steps, t) && NoReuse(s, now, steps, t, tainted)
    ensures PlainRun(ps, steps) && ps[0] == View(m)
    ensures Represents(t, m') && ps[|steps|] == View(m')
    decreases |steps|
  {
    if steps == [] {
      ps, m' := [View(m)], m;
    } else {
      PlainStep(s, m, steps[0], tainted);
      TaintStep(s, m, steps[0], tainted);
      StepRefines(s, m, steps[0]);
      var m1 := MapStep(m, steps[0], Fires(s, steps[0].op));
      var rest;
      rest, m' := RunRefinesPlainMap(Apply(s, steps[0]), m1, steps[0].now, steps[1..], t,
                                     tainted + TaintedBy(s, steps[0].op));
      ps := [View(m)] + rest;
    }
  }
}
