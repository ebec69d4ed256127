/**
 The sliding-expiry cache of utils/cache.go as a state: a heap of items, the map
 from normalised keys to items, and the timers that are still asleep. Timers are
 never cancelled; each carries the version its item had when it was started.
 I is the type of item identities, T that of values, times are plain numbers.
 */
module CacheModel {
  import opened Prelude

  datatype Item<T> = Item(key: string, value: T, version: int)

  datatype Timer<I> = Timer(item: I, version: int, due: int)

  datatype State<I(==), T> = State(heap: map<I, Item<T>>, index: map<string, I>, timers: set<Timer<I>>)

  /** Keys are already normalised; item is the identity of the item that is made if the key is absent. */
  datatype Op<I, T> =
    | Set(key: string, value: T, item: I)
    | SetExpire(key: string, duration: int)
    | SetValue(key: string, value: T, duration: int, item: I)
    | Delete(key: string)
    | Fire(timer: Timer<I>)

  datatype Step<I, T> = Step(now: int, op: Op<I, T>)

  // ---------- operations ----------

  /** A timer that would pass the version check. */
  predicate Live<I, T>(s: State<I, T>, t: Timer<I>) {
    t in s.timers && t.item in s.heap && s.heap[t.item].version == t.version
  }

  /** CacheItem.expire: a new version and a timer that carries it. */
  function Renew<I, T>(s: State<I, T>, i: I, due: int): State<I, T>
    requires i in s.heap
  {
    var v := s.heap[i].version + 1;
    s.(heap := s.heap[i := s.heap[i].(version := v)], timers := s.timers + {Timer(i, v, due)})
  }

  function Insert<I, T>(s: State<I, T>, key: string, value: T, i: I): State<I, T> {
    s.(heap := s.heap[i := Item(key, value, 0)], index := s.index[key := i])
  }

  function SetItem<I, T>(s: State<I, T>, i: I, value: T): State<I, T>
    requires i in s.heap
  {
    s.(heap := s.heap[i := s.heap[i].(value := value)])
  }

  function Bump<I, T>(s: State<I, T>, i: I): State<I, T>
    requires i in s.heap
  {
    s.(heap := s.heap[i := s.heap[i].(version := s.heap[i].version + 1)])
  }

  function Remove<I, T>(s: State<I, T>, key: string): State<I, T> {
    s.(index := s.index - {key})
  }

  predicate SameStart<I(==)>(t: Timer<I>, u: Timer<I>) {
    t.item == u.item && t.version == u.version
  }

  ghost predicate WellFormed<I, T>(s: State<I, T>) {
    && (forall k :: k in s.index ==> s.index[k] in s.heap && s.heap[s.index[k]].key == k)
    && (forall t :: t in s.timers ==> t.item in s.heap && t.version <= s.heap[t.item].version)
    && (forall t, u {:trigger SameStart(t, u)} :: t in s.timers && u in s.timers && SameStart(t, u) ==> t == u)
  }

  ghost predicate Enabled<I, T>(s: State<I, T>, st: Step<I, T>) {
    match st.op
    case Set(k, _, i) => k in s.index || i !in s.heap
    case SetValue(k, _, _, i) => k in s.index || i !in s.heap
    case Fire(t) => t in s.timers && t.due <= st.now
    case _ => true
  }

  /** The version check alone: the timer is spent, and its key is to be deleted by another goroutine. */
  function Check<I, T>(s: State<I, T>, t: Timer<I>): State<I, T> {
    s.(timers := s.timers - {t})
  }

  function Apply<I, T>(s: State<I, T>, st: Step<I, T>): State<I, T>
    requires WellFormed(s) && Enabled(s, st)
  {
    match st.op
    case Set(k, v, i) =>
      if k in s.index then Bump(SetItem(s, s.index[k], v), s.index[k]) else Insert(s, k, v, i)
    case SetExpire(k, d) =>
      if k in s.index then Renew(s, s.index[k], st.now + d) else s
    case SetValue(k, v, d, i) =>
      if k in s.index then Renew(SetItem(s, s.index[k], v), s.index[k], st.now + d)
      else Renew(Insert(s, k, v, i), i, st.now + d)
    case Delete(k) => Remove(s, k)
    case Fire(t) =>
      if Live(s, t) then Remove(Check(s, t), s.heap[t.item].key) else Check(s, t)
  }

  lemma ApplyWellFormed<I, T>(s: State<I, T>, st: Step<I, T>)
    requires WellFormed(s) && Enabled(s, st)
    ensures WellFormed(Apply(s, st))
  {
  }

  // ---------- the reference: a map with deadlines ----------

  datatype Entry<I, T> = Entry(item: I, value: T, deadline: Option<int>)

  /** A deadline left behind by an entry that was deleted before it expired. */
  datatype Orphan = Orphan(key: string, deadline: int)

  datatype DeadlineMap<I(==), T> = DeadlineMap(live: map<string, Entry<I, T>>, orphans: map<I, Orphan>)

  function Drop<I, T>(m: DeadlineMap<I, T>, k: string): DeadlineMap<I, T> {
    if k !in m.live then m
    else
      var e := m.live[k];
      DeadlineMap(m.live - {k},
                  if e.deadline.Some? then m.orphans[e.item := Orphan(k, e.deadline.value)] else m.orphans)
  }

  /** Entry i's deadline has passed: its key goes, whoever holds it now. */
  function Expire<I, T>(m: DeadlineMap<I, T>, i: I, key: string): DeadlineMap<I, T> {
    if i in m.orphans then Drop(m.(orphans := m.orphans - {i}), key)
    else m.(live := m.live - {key})
  }

  function Put<I, T>(m: DeadlineMap<I, T>, k: string, v: T, deadline: Option<int>, i: I): DeadlineMap<I, T> {
    m.(live := m.live[k := Entry(if k in m.live then m.live[k].item else i, v, deadline)])
  }

  /** fires is the deadline a timer step stands for: None if that timer has been superseded. */
  function MapStep<I, T>(m: DeadlineMap<I, T>, st: Step<I, T>, fires: Option<string>): DeadlineMap<I, T> {
    match st.op
    case Set(k, v, i) => Put(m, k, v, None, i)
    case SetValue(k, v, d, i) => Put(m, k, v, Some(st.now + d), i)
    case SetExpire(k, d) =>
      if k in m.live then m.(live := m.live[k := m.live[k].(deadline := Some(st.now + d))]) else m
    case Delete(k) => Drop(m, k)
    case Fire(t) => if fires.Some? then Expire(m, t.item, fires.value) else m
  }

  // ---------- abstraction ----------

  /** The deadline of an item: that of its one live timer. */
  ghost function DeadlineOf<I, T>(s: State<I, T>, i: I): Option<int> {
    if exists t :: t in s.timers && t.item == i && Live(s, t) then
      var t :| t in s.timers && t.item == i && Live(s, t);
      Some(t.due)
    else None
  }

  ghost predicate Indexed<I, T>(s: State<I, T>, i: I)
    requires i in s.heap
  {
    s.heap[i].key in s.index && s.index[s.heap[i].key] == i
  }

  ghost predicate LiveAt<I, T>(s: State<I, T>, m: DeadlineMap<I, T>, k: string)
    requires WellFormed(s)
  {
    if k in s.index
    then k in m.live && m.live[k] == Entry(s.index[k], s.heap[s.index[k]].value, DeadlineOf(s, s.index[k]))
    else k !in m.live
  }

  ghost predicate OrphanAt<I, T>(s: State<I, T>, m: DeadlineMap<I, T>, i: I)
    requires WellFormed(s)
  {
    if i in s.heap && !Indexed(s, i) && DeadlineOf(s, i).Some?
    then i in m.orphans && m.orphans[i] == Orphan(s.heap[i].key, DeadlineOf(s, i).value)
    else i !in m.orphans
  }

  /** The cache state stands for this map: it determines both halves of it. */
  ghost predicate Represents<I, T>(s: State<I, T>, m: DeadlineMap<I, T>) {
    && WellFormed(s)
    && (forall k {:trigger LiveAt(s, m, k)} :: LiveAt(s, m, k))
    && (forall i {:trigger OrphanAt(s, m, i)} :: i in s.heap ==> OrphanAt(s, m, i))
    && (forall i :: i in m.orphans ==> i in s.heap)
  }

  /** An item has at most one timer that can pass the version check. */
  lemma LiveTimerIsUnique<I, T>(s: State<I, T>, t: Timer<I>)
    requires WellFormed(s) && t in s.timers
    ensures Live(s, t) ==> DeadlineOf(s, t.item) == Some(t.due)
    ensures Live(s, t) ==> forall u :: u in s.timers && u.item == t.item && Live(s, u) ==> u == t
  {
    forall u | u in s.timers && u.item == t.item && Live(s, u) && Live(s, t) ensures u == t {
      assert SameStart(t, u);
    }
  }

  lemma DeadlineHasTimer<I, T>(s: State<I, T>, i: I) returns (t: Timer<I>)
    requires WellFormed(s) && DeadlineOf(s, i).Some?
    ensures t in s.timers && Live(s, t) && t.item == i && t.due == DeadlineOf(s, i).value
  {
    t :| t in s.timers && t.item == i && Live(s, t);
    LiveTimerIsUnique(s, t);
  }

  /** Items that a step does not touch keep their deadline. */
  lemma SameDeadline<I, T>(s: State<I, T>, s': State<I, T>, i: I)
    requires WellFormed(s) && WellFormed(s')
    requires i in s.heap <==> i in s'.heap
    requires i in s.heap ==> s.heap[i].version == s'.heap[i].version
    requires forall t :: t in s.timers && t.item == i ==> t in s'.timers
    requires forall t :: t in s'.timers && t.item == i ==> t in s.timers
    ensures DeadlineOf(s, i) == DeadlineOf(s', i)
  {
    if DeadlineOf(s, i).Some? {
      var t := DeadlineHasTimer(s, i);
      LiveTimerIsUnique(s', t);
    } else if DeadlineOf(s', i).Some? {
      var t := DeadlineHasTimer(s', i);
      LiveTimerIsUnique(s, t);
    }
  }

  /** Without a timer of the current version there is no deadline. */
  lemma NoDeadline<I, T>(s: State<I, T>, i: I)
    requires forall t :: t in s.timers && t.item == i ==> !Live(s, t)
    ensures DeadlineOf(s, i).None?
  {
  }

  // ---------- refinement, step by step ----------

  lemma BumpDeadlines<I, T>(s: State<I, T>, s': State<I, T>, i: I)
    requires WellFormed(s) && WellFormed(s') && i in s.heap && i in s'.heap
    requires s'.timers == s.timers && s'.heap[i].version > s.heap[i].version
    requires forall j :: j != i ==> (j in s.heap <==> j in s'.heap) && (j in s.heap ==> s.heap[j] == s'.heap[j])
    ensures DeadlineOf(s', i).None?
    ensures forall j :: j in s.heap && j != i ==> DeadlineOf(s', j) == DeadlineOf(s, j)
  {
    NoDeadline(s', i);
    forall j | j in s.heap && j != i ensures DeadlineOf(s', j) == DeadlineOf(s, j) {
      SameDeadline(s, s', j);
    }
  }

  lemma RenewDeadlines<I, T>(s: State<I, T>, i: I, due: int)
    requires WellFormed(s) && i in s.heap && WellFormed(Renew(s, i, due))
    ensures DeadlineOf(Renew(s, i, due), i) == Some(due)
    ensures forall j :: j in s.heap && j != i ==> DeadlineOf(Renew(s, i, due), j) == DeadlineOf(s, j)
  {
    var s' := Renew(s, i, due);
    LiveTimerIsUnique(s', Timer(i, s'.heap[i].version, due));
    forall j | j in s.heap && j != i ensures DeadlineOf(s', j) == DeadlineOf(s, j) {
      SameDeadline(s, s', j);
    }
  }

  function WithDeadline<I, T>(m: DeadlineMap<I, T>, k: string, d: Option<int>): DeadlineMap<I, T>
    requires k in m.live
  {
    m.(live := m.live[k := m.live[k].(deadline := d)])
  }

  lemma RenewRep<I, T>(s: State<I, T>, m: DeadlineMap<I, T>, k: string, due: int)
    requires Represents(s, m) && k in s.index
    ensures k in m.live
    ensures Represents(Renew(s, s.index[k], due), WithDeadline(m, k, Some(due)))
  {
    assert LiveAt(s, m, k);
    RenewDeadlines(s, s.index[k], due);
    Touched(s, Renew(s, s.index[k], due), m, WithDeadline(m, k, Some(due)), k);
  }

  lemma SetItemRep<I, T>(s: State<I, T>, m: DeadlineMap<I, T>, k: string, v: T)
    requires Represents(s, m) && k in s.index
    ensures k in m.live
    ensures Represents(SetItem(s, s.index[k], v), m.(live := m.live[k := m.live[k].(value := v)]))
  {
    assert LiveAt(s, m, k);
    var s' := SetItem(s, s.index[k], v);
    forall j | j in s.heap ensures DeadlineOf(s', j) == DeadlineOf(s, j) {
      SameDeadline(s, s', j);
    }
    Touched(s, s', m, m.(live := m.live[k := m.live[k].(value := v)]), k);
  }

  lemma BumpRep<I, T>(s: State<I, T>, m: DeadlineMap<I, T>, k: string)
    requires Represents(s, m) && k in s.index
    ensures k in m.live
    ensures Represents(Bump(s, s.index[k]), WithDeadline(m, k, None))
  {
    assert LiveAt(s, m, k);
    BumpDeadlines(s, Bump(s, s.index[k]), s.index[k]);
    Touched(s, Bump(s, s.index[k]), m, WithDeadline(m, k, None), k);
  }

  /** A step on the current item of key k: everything else is as before. */
  lemma Touched<I, T>(s: State<I, T>, s': State<I, T>, m: DeadlineMap<I, T>, m': DeadlineMap<I, T>, k: string)
    requires Represents(s, m) && WellFormed(s') && k in s.index && k in m'.live
    requires s'.index == s.index && s'.heap.Keys == s.heap.Keys && m'.orphans == m.orphans
    requires m'.live == m.live[k := m'.live[k]]
    requires forall j :: j in s.heap && j != s.index[k] ==>
      s'.heap[j] == s.heap[j] && DeadlineOf(s', j) == DeadlineOf(s, j)
    requires LiveAt(s', m', k)
    ensures Represents(s', m')
  {
    forall k' ensures LiveAt(s', m', k') {
      assert k' == k || LiveAt(s, m, k');
    }
    forall i | i in s'.heap ensures OrphanAt(s', m', i) {
      assert OrphanAt(s, m, i);
    }
  }

  lemma InsertLiveAt<I, T>(s: State<I, T>, m: DeadlineMap<I, T>, k: string, v: T, i: I, k': string)
    requires Represents(s, m) && k !in s.index && i !in s.heap
    requires k' in s.index ==> DeadlineOf(Insert(s, k, v, i), s.index[k']) == DeadlineOf(s, s.index[k'])
    requires DeadlineOf(Insert(s, k, v, i), i).None?
    ensures LiveAt(Insert(s, k, v, i), Put(m, k, v, None, i), k')
  {
    assert k !in m.live by {
      assert k in m.live ==> LiveAt(s, m, k);
    }
    if k' in s.index || k' in m.live {
      assert LiveAt(s, m, k');
    }
  }

  lemma InsertDeadlines<I, T>(s: State<I, T>, k: string, v: T, i: I)
    requires WellFormed(s) && k !in s.index && i !in s.heap
    ensures WellFormed(Insert(s, k, v, i)) && DeadlineOf(Insert(s, k, v, i), i).None?
    ensures forall j :: j in s.heap ==> DeadlineOf(Insert(s, k, v, i), j) == DeadlineOf(s, j)
  {
    var s' := Insert(s, k, v, i);
    NoDeadline(s', i);
    forall j | j in s.heap ensures DeadlineOf(s', j) == DeadlineOf(s, j) {
      SameDeadline(s, s', j);
    }
  }

  lemma InsertRep<I, T>(s: State<I, T>, m: DeadlineMap<I, T>, k: string, v: T, i: I)
    requires Represents(s, m) && k !in s.index && i !in s.heap
    ensures k !in m.live
    ensures Represents(Insert(s, k, v, i), Put(m, k, v, None, i))
  {
    assert k in m.live ==> LiveAt(s, m, k);
    var s' := Insert(s, k, v, i);
    InsertDeadlines(s, k, v, i);
    var m' := Put(m, k, v, None, i);
    forall k' ensures LiveAt(s', m', k') {
      InsertLiveAt(s, m, k, v, i, k');
    }
    forall j | j in s'.heap ensures OrphanAt(s', m', j) {
      if j != i {
        assert OrphanAt(s, m, j);
        assert Indexed(s', j) <==> Indexed(s, j);
      }
    }
  }

  lemma RemoveLiveAt<I, T>(s: State<I, T>, m: DeadlineMap<I, T>, k: string, k': string)
    requires Represents(s, m)
    requires k' in s.index ==> DeadlineOf(Remove(s, k), s.index[k']) == DeadlineOf(s, s.index[k'])
    ensures LiveAt(Remove(s, k), Drop(m, k), k')
  {
    if k' in s.index || k' in m.live {
      assert LiveAt(s, m, k');
    }
  }

  lemma RemoveOrphanAt<I, T>(s: State<I, T>, m: DeadlineMap<I, T>, k: string, j: I)
    requires Represents(s, m) && j in s.heap
    requires DeadlineOf(Remove(s, k), j) == DeadlineOf(s, j)
    ensures OrphanAt(Remove(s, k), Drop(m, k), j)
  {
    assert OrphanAt(s, m, j);
    assert Indexed(Remove(s, k), j) <==> Indexed(s, j) && s.heap[j].key != k;
    if k in s.index || k in m.live {
      assert LiveAt(s, m, k);
    }
  }

  lemma RemoveRep<I, T>(s: State<I, T>, m: DeadlineMap<I, T>, k: string)
    requires Represents(s, m)
    ensures Represents(Remove(s, k), Drop(m, k))
  {
    var s' := Remove(s, k);
    var m' := Drop(m, k);
    forall j | j in s.heap ensures DeadlineOf(s', j) == DeadlineOf(s, j) {
      SameDeadline(s, s', j);
    }
    forall k' ensures LiveAt(s', m', k') {
      RemoveLiveAt(s, m, k, k');
    }
    forall j | j in s'.heap ensures OrphanAt(s', m', j) {
      RemoveOrphanAt(s, m, k, j);
    }
    if k in s.index || k in m.live {
      assert LiveAt(s, m, k);
    }
  }

  /** A timer whose item has moved on does nothing. */
  lemma StaleTimerRep<I, T>(s: State<I, T>, m: DeadlineMap<I, T>, t: Timer<I>)
    requires Represents(s, m) && t in s.timers && !Live(s, t)
    ensures Represents(s.(timers := s.timers - {t}), m)
  {
    var s' := s.(timers := s.timers - {t});
    forall j | j in s.heap ensures DeadlineOf(s', j) == DeadlineOf(s, j) {
      if DeadlineOf(s, j).Some? {
        var u := DeadlineHasTimer(s, j);
        LiveTimerIsUnique(s', u);
      } else {
        NoDeadline(s', j);
      }
    }
    forall k ensures LiveAt(s', m, k) {
      assert LiveAt(s, m, k);
    }
    forall j | j in s'.heap ensures OrphanAt(s', m, j) {
      assert OrphanAt(s, m, j);
    }
  }

  /** A timer that passes the check takes the deadline of its item with it. */
  lemma SpentTimerRep<I, T>(s: State<I, T>, m: DeadlineMap<I, T>, t: Timer<I>)
    requires Represents(s, m) && Live(s, t)
    ensures var s' := s.(timers := s.timers - {t});
      if Indexed(s, t.item)
      then s.heap[t.item].key in m.live && Represents(s', WithDeadline(m, s.heap[t.item].key, None))
      else t.item in m.orphans && Represents(s', m.(orphans := m.orphans - {t.item}))
  {
    var s' := s.(timers := s.timers - {t});
    LiveTimerIsUnique(s, t);
    NoDeadline(s', t.item);
    forall j | j in s.heap && j != t.item ensures DeadlineOf(s', j) == DeadlineOf(s, j) {
      SameDeadline(s, s', j);
    }
    var key := s.heap[t.item].key;
    if Indexed(s, t.item) {
      assert LiveAt(s, m, key);
      Touched(s, s', m, WithDeadline(m, key, None), key);
    } else {
      assert OrphanAt(s, m, t.item);
      var m' := m.(orphans := m.orphans - {t.item});
      forall k ensures LiveAt(s', m', k) {
        assert LiveAt(s, m, k);
      }
      forall j | j in s'.heap ensures OrphanAt(s', m', j) {
        assert OrphanAt(s, m, j);
      }
    }
  }

  /** The key for which a timer step passes the version check, if it does. */
  function Fires<I, T>(s: State<I, T>, op: Op<I, T>): Option<string> {
    if op.Fire? && Live(s, op.timer) then Some(s.heap[op.timer.item].key) else None
  }

  lemma FireRefines<I, T>(s: State<I, T>, m: DeadlineMap<I, T>, now: int, t: Timer<I>)
    requires Represents(s, m) && Live(s, t) && Enabled(s, Step(now, Fire(t)))
    ensures Represents(Apply(s, Step(now, Fire(t))), Expire(m, t.item, s.heap[t.item].key))
  {
    var key := s.heap[t.item].key;
    var s' := s.(timers := s.timers - {t});
    SpentTimerRep(s, m, t);
    assert OrphanAt(s, m, t.item);
    if Indexed(s, t.item) {
      RemoveRep(s', WithDeadline(m, key, None), key);
      assert Drop(WithDeadline(m, key, None), key) == m.(live := m.live - {key});
    } else {
      RemoveRep(s', m.(orphans := m.orphans - {t.item}), key);
    }
  }

  lemma ReplaceRefines<I, T>(s: State<I, T>, m: DeadlineMap<I, T>, now: int, k: string, v: T, d: int, i: I)
    requires Represents(s, m) && k in s.index
    ensures Represents(Renew(SetItem(s, s.index[k], v), s.index[k], now + d), Put(m, k, v, Some(now + d), i))
  {
    SetItemRep(s, m, k, v);
    var m1 := m.(live := m.live[k := m.live[k].(value := v)]);
    RenewRep(SetItem(s, s.index[k], v), m1, k, now + d);
    assert WithDeadline(m1, k, Some(now + d)) == Put(m, k, v, Some(now + d), i);
  }

  lemma CreateRefines<I, T>(s: State<I, T>, m: DeadlineMap<I, T>, now: int, k: string, v: T, d: int, i: I)
    requires Represents(s, m) && k !in s.index && i !in s.heap
    ensures Represents(Renew(Insert(s, k, v, i), i, now + d), Put(m, k, v, Some(now + d), i))
  {
    InsertRep(s, m, k, v, i);
    var m1 := Put(m, k, v, None, i);
    RenewRep(Insert(s, k, v, i), m1, k, now + d);
    assert WithDeadline(m1, k, Some(now + d)) == Put(m, k, v, Some(now + d), i);
  }

  lemma SetRefines<I, T>(s: State<I, T>, m: DeadlineMap<I, T>, now: int, k: string, v: T, i: I)
    requires Represents(s, m) && Enabled(s, Step(now, Set(k, v, i)))
    ensures Represents(Apply(s, Step(now, Set(k, v, i))), Put(m, k, v, None, i))
  {
    if k in s.index {
      SetItemRep(s, m, k, v);
      var m1 := m.(live := m.live[k := m.live[k].(value := v)]);
      BumpRep(SetItem(s, s.index[k], v), m1, k);
      assert WithDeadline(m1, k, None) == Put(m, k, v, None, i);
    } else {
      InsertRep(s, m, k, v, i);
    }
  }

  lemma SetValueRefines<I, T>(s: State<I, T>, m: DeadlineMap<I, T>, now: int, k: string, v: T, d: int, i: I)
    requires Represents(s, m) && Enabled(s, Step(now, SetValue(k, v, d, i)))
    ensures Represents(Apply(s, Step(now, SetValue(k, v, d, i))), Put(m, k, v, Some(now + d), i))
  {
    if k in s.index {
      ReplaceRefines(s, m, now, k, v, d, i);
    } else {
      CreateRefines(s, m, now, k, v, d, i);
    }
  }

  lemma SetExpireRefines<I, T>(s: State<I, T>, m: DeadlineMap<I, T>, now: int, k: string, d: int)
    requires Represents(s, m)
    ensures Represents(Apply(s, Step(now, SetExpire(k, d))),
                       if k in m.live then WithDeadline(m, k, Some(now + d)) else m)
  {
    assert LiveAt(s, m, k);
    if k in s.index {
      RenewRep(s, m, k, now + d);
    }
  }

  /** The cache with atomic firing is the map with deadlines, step by step. */
  lemma StepRefines<I, T>(s: State<I, T>, m: DeadlineMap<I, T>, st: Step<I, T>)
    requires Represents(s, m) && Enabled(s, st)
    ensures Represents(Apply(s, st), MapStep(m, st, Fires(s, st.op)))
  {
    match st.op
    case Set(k, v, i) => SetRefines(s, m, st.now, k, v, i);
    case SetValue(k, v, d, i) => SetValueRefines(s, m, st.now, k, v, d, i);
    case Delete(k) => RemoveRep(s, m, k);
    case SetExpire(k, d) => SetExpireRefines(s, m, st.now, k, d);
    case Fire(t) =>
      if Live(s, t) {
        FireRefines(s, m, st.now, t);
      } else {
        StaleTimerRep(s, m, t);
      }
  }
}
