/**
 One gap between a timer's check and its delete. Anything may happen in it, other
 checks and deletes included. What the delete then takes away is measured against
 the run in which this one delete comes with its check.
 */
module CacheGap {
  import opened Prelude
  import opened CacheModel
  import opened CacheSplit
  import CacheRuns

  // ---------- two maps that differ in one key ----------

  /** The deadline under which item i can still take key k out. */
  function ItemDeadline<I, T>(m: DeadlineMap<I, T>, i: I, k: string): Option<int> {
    if i in m.orphans && m.orphans[i].key == k then Some(m.orphans[i].deadline)
    else if k in m.live && m.live[k].item == i then m.live[k].deadline
    else None
  }

  /** Item identities are used by one entry each, live or orphaned. */
  ghost predicate Ids<I, T>(m: DeadlineMap<I, T>, used: set<I>) {
    && (forall k :: k in m.live ==> m.live[k].item in used && m.live[k].item !in m.orphans)
    && (forall i :: i in m.orphans ==> i in used)
    && (forall k, l :: k in m.live && l in m.live && k != l ==> m.live[k].item != m.live[l].item)
  }

  ghost predicate EntrySame<I, T>(ma: DeadlineMap<I, T>, mb: DeadlineMap<I, T>, l: string) {
    (l in ma.live <==> l in mb.live) && (l in ma.live ==> ma.live[l] == mb.live[l])
  }

  ghost predicate OrphanSame<I, T>(ma: DeadlineMap<I, T>, mb: DeadlineMap<I, T>, k: string, i: I) {
    (i in ma.orphans && ma.orphans[i].key != k) || (i in mb.orphans && mb.orphans[i].key != k) ==>
      i in ma.orphans && i in mb.orphans && ma.orphans[i] == mb.orphans[i]
  }

  /** Item i belongs to no other key than k. */
  ghost predicate Mine<I, T>(m: DeadlineMap<I, T>, k: string, i: I) {
    (forall l :: l in m.live && l != k ==> m.live[l].item != i) && (i in m.orphans ==> m.orphans[i].key == k)
  }

  /** Item i of the one map and item rho[i] of the other stand for the same entry of key k, past or present. */
  ghost predicate PairOk<I, T>(ma: DeadlineMap<I, T>, mb: DeadlineMap<I, T>, k: string, rho: map<I, I>, used: set<I>, i: I)
    requires i in rho
  {
    && i in used && rho[i] in used && Mine(ma, k, i) && Mine(mb, k, rho[i])
    && ItemDeadline(ma, i, k) == ItemDeadline(mb, rho[i], k)
  }

  ghost predicate Paired<I, T>(ma: DeadlineMap<I, T>, mb: DeadlineMap<I, T>, k: string, rho: map<I, I>, used: set<I>) {
    && (forall i {:trigger PairOk(ma, mb, k, rho, used, i)} :: i in rho ==> PairOk(ma, mb, k, rho, used, i))
    && (forall i, j :: i in rho && j in rho && rho[i] == rho[j] ==> i == j)
  }

  /** If both maps have key k, they have the same entry there. */
  ghost predicate Linked<I, T>(ma: DeadlineMap<I, T>, mb: DeadlineMap<I, T>, k: string, rho: map<I, I>) {
    k in ma.live && k in mb.live ==>
      ma.live[k].value == mb.live[k].value && ma.live[k].item in rho && rho[ma.live[k].item] == mb.live[k].item
  }

  ghost predicate Elsewhere<I, T>(ma: DeadlineMap<I, T>, mb: DeadlineMap<I, T>, k: string) {
    && (forall l {:trigger EntrySame(ma, mb, l)} :: l != k ==> EntrySame(ma, mb, l))
    && (forall i {:trigger OrphanSame(ma, mb, k, i)} :: i in ma.orphans.Keys + mb.orphans.Keys ==> OrphanSame(ma, mb, k, i))
  }

  /**
   ma is the cache in the gap, mb the one that has deleted at once: they agree
   outside key k, and on the entry of k if both have one.
   */
  ghost predicate Sim<I, T>(ma: DeadlineMap<I, T>, mb: DeadlineMap<I, T>, k: string, rho: map<I, I>, used: set<I>) {
    Ids(ma, used) && Ids(mb, used) && Elsewhere(ma, mb, k) && Paired(ma, mb, k, rho, used) && Linked(ma, mb, k, rho)
  }

  function ItemAt<I, T>(m: DeadlineMap<I, T>, k: string, i: I): I {
    if k in m.live then m.live[k].item else i
  }

  /** The pairs once both maps have an entry of key k that the same operation has written. */
  function Repair<I>(rho: map<I, I>, x: I, y: I): map<I, I> {
    (map p | p in rho && rho[p] != y && p != x :: rho[p])[x := y]
  }

  // ---------- operations on key k ----------

  lemma PutIds<I, T>(m: DeadlineMap<I, T>, k: string, v: T, d: Option<int>, i: I, used: set<I>)
    requires Ids(m, used) && i !in used
    ensures Ids(Put(m, k, v, d, i), used + {i})
  {
  }

  lemma PutPairs<I, T>(ma: DeadlineMap<I, T>, mb: DeadlineMap<I, T>, k: string, rho: map<I, I>, used: set<I>,
                       v: T, d: Option<int>, i: I)
    requires Sim(ma, mb, k, rho, used) && i !in used
    ensures Paired(Put(ma, k, v, d, i), Put(mb, k, v, d, i), k, Repair(rho, ItemAt(ma, k, i), ItemAt(mb, k, i)), used + {i})
  {
    var x, y := ItemAt(ma, k, i), ItemAt(mb, k, i);
    var ma', mb', rho' := Put(ma, k, v, d, i), Put(mb, k, v, d, i), Repair(rho, x, y);
    forall p | p in rho' ensures PairOk(ma', mb', k, rho', used + {i}, p) {
      if p != x {
        assert PairOk(ma, mb, k, rho, used, p);
      }
    }
  }

  lemma PutSim<I, T>(ma: DeadlineMap<I, T>, mb: DeadlineMap<I, T>, k: string, rho: map<I, I>, used: set<I>,
                     v: T, d: Option<int>, i: I)
    requires Sim(ma, mb, k, rho, used) && i !in used
    ensures Sim(Put(ma, k, v, d, i), Put(mb, k, v, d, i), k, Repair(rho, ItemAt(ma, k, i), ItemAt(mb, k, i)), used + {i})
  {
    PutIds(ma, k, v, d, i, used);
    PutIds(mb, k, v, d, i, used);
    PutPairs(ma, mb, k, rho, used, v, d, i);
    var ma', mb' := Put(ma, k, v, d, i), Put(mb, k, v, d, i);
    forall l | l != k ensures EntrySame(ma', mb', l) {
      assert EntrySame(ma, mb, l);
    }
    forall j | j in ma'.orphans.Keys + mb'.orphans.Keys ensures OrphanSame(ma', mb', k, j) {
      assert OrphanSame(ma, mb, k, j);
    }
  }

  function Renewed<I, T>(m: DeadlineMap<I, T>, k: string, due: int): DeadlineMap<I, T> {
    if k in m.live then WithDeadline(m, k, Some(due)) else m
  }

  /** A renewal that only one of the two maps makes ends the pairing of its item. */
  function RenewPairs<I, T>(ma: DeadlineMap<I, T>, mb: DeadlineMap<I, T>, k: string, rho: map<I, I>): map<I, I> {
    if k in ma.live && k in mb.live then rho
    else
      map p | p in rho && !(k in ma.live && p == ma.live[k].item) && !(k in mb.live && rho[p] == mb.live[k].item)
        :: rho[p]
  }

  lemma RenewedPairs<I, T>(ma: DeadlineMap<I, T>, mb: DeadlineMap<I, T>, k: string, rho: map<I, I>, used: set<I>, due: int)
    requires Sim(ma, mb, k, rho, used)
    ensures Paired(Renewed(ma, k, due), Renewed(mb, k, due), k, RenewPairs(ma, mb, k, rho), used)
  {
    var ma', mb', rho' := Renewed(ma, k, due), Renewed(mb, k, due), RenewPairs(ma, mb, k, rho);
    forall p | p in rho' ensures PairOk(ma', mb', k, rho', used, p) {
      assert PairOk(ma, mb, k, rho, used, p);
    }
  }

  lemma RenewSim<I, T>(ma: DeadlineMap<I, T>, mb: DeadlineMap<I, T>, k: string, rho: map<I, I>, used: set<I>, due: int)
    requires Sim(ma, mb, k, rho, used)
    ensures Sim(Renewed(ma, k, due), Renewed(mb, k, due), k, RenewPairs(ma, mb, k, rho), used)
  {
    RenewedPairs(ma, mb, k, rho, used, due);
    var ma', mb' := Renewed(ma, k, due), Renewed(mb, k, due);
    SameElsewhere(ma, mb, ma', mb', k);
  }

  /** Only the entry of key k and orphans of key k have changed. */
  lemma SameElsewhere<I, T>(ma: DeadlineMap<I, T>, mb: DeadlineMap<I, T>, ma': DeadlineMap<I, T>, mb': DeadlineMap<I, T>,
                            k: string)
    requires Elsewhere(ma, mb, k) && OnlyKey(ma, ma', k) && OnlyKey(mb, mb', k)
    ensures Elsewhere(ma', mb', k)
  {
    forall l | l != k ensures EntrySame(ma', mb', l) {
      assert EntrySame(ma, mb, l) && EntrySame(ma, ma', l) && EntrySame(mb, mb', l);
    }
    forall j | j in ma'.orphans.Keys + mb'.orphans.Keys ensures OrphanSame(ma', mb', k, j) {
      assert j in ma.orphans.Keys + mb.orphans.Keys ==> OrphanSame(ma, mb, k, j);
    }
  }

  ghost predicate OnlyKey<I, T>(m: DeadlineMap<I, T>, m': DeadlineMap<I, T>, k: string) {
    && (forall l {:trigger EntrySame(m, m', l)} :: l != k ==> EntrySame(m, m', l))
    && (forall i :: i in m.orphans && m.orphans[i].key != k ==> i in m'.orphans && m'.orphans[i] == m.orphans[i])
    && (forall i :: i in m'.orphans && m'.orphans[i].key != k ==> i in m.orphans && m'.orphans[i] == m.orphans[i])
  }

  /** Dropping an entry turns it into an orphan and leaves the deadlines of all items of its key alone. */
  lemma DropDeadlines<I, T>(m: DeadlineMap<I, T>, k: string, used: set<I>)
    requires Ids(m, used)
    ensures Ids(Drop(m, k), used)
    ensures forall i :: ItemDeadline(Drop(m, k), i, k) == ItemDeadline(m, i, k)
  {
  }

  lemma DropSim<I, T>(ma: DeadlineMap<I, T>, mb: DeadlineMap<I, T>, k: string, rho: map<I, I>, used: set<I>)
    requires Sim(ma, mb, k, rho, used)
    ensures Sim(Drop(ma, k), Drop(mb, k), k, rho, used)
  {
    DropDeadlines(ma, k, used);
    DropDeadlines(mb, k, used);
    var ma', mb' := Drop(ma, k), Drop(mb, k);
    forall p | p in rho ensures PairOk(ma', mb', k, rho, used, p) {
      assert PairOk(ma, mb, k, rho, used, p);
    }
    SameElsewhere(ma, mb, ma', mb', k);
  }

  /** Dropping the entry of the first map alone: the second one has lost it already, or has yet to. */
  lemma DropOneSim<I, T>(ma: DeadlineMap<I, T>, mb: DeadlineMap<I, T>, k: string, rho: map<I, I>, used: set<I>)
    requires Sim(ma, mb, k, rho, used)
    ensures Sim(Drop(ma, k), mb, k, rho, used)
  {
    DropDeadlines(ma, k, used);
    var ma' := Drop(ma, k);
    forall p | p in rho ensures PairOk(ma', mb, k, rho, used, p) {
      assert PairOk(ma, mb, k, rho, used, p);
    }
    SameElsewhere(ma, mb, ma', mb, k);
  }

  /** A timer has passed its check: its deadline is spent, and the entry is still there. */
  function Spent<I, T>(m: DeadlineMap<I, T>, i: I, k: string): DeadlineMap<I, T> {
    if i in m.orphans then m.(orphans := m.orphans - {i})
    else if k in m.live then WithDeadline(m, k, None)
    else m
  }

  /** The other items of that key keep their deadlines. */
  lemma SpentDeadlines<I, T>(m: DeadlineMap<I, T>, i: I, k: string, used: set<I>)
    requires Ids(m, used) && ItemDeadline(m, i, k).Some?
    ensures Ids(Spent(m, i, k), used) && OnlyKey(m, Spent(m, i, k), k)
    ensures forall j :: ItemDeadline(Spent(m, i, k), j, k) == if j == i then None else ItemDeadline(m, j, k)
  {
  }

  lemma SpentMine<I, T>(m: DeadlineMap<I, T>, i: I, k: string, used: set<I>, j: I)
    requires Ids(m, used) && ItemDeadline(m, i, k).Some? && Mine(m, k, j)
    ensures Mine(Spent(m, i, k), k, j)
  {
  }

  /** The deadlines of a pair are spent in both maps. */
  lemma SpendBothSim<I, T>(ma: DeadlineMap<I, T>, mb: DeadlineMap<I, T>, k: string, rho: map<I, I>, used: set<I>, i: I)
    requires Sim(ma, mb, k, rho, used) && i in rho && ItemDeadline(ma, i, k).Some? && ItemDeadline(mb, rho[i], k).Some?
    ensures Sim(Spent(ma, i, k), Spent(mb, rho[i], k), k, rho, used)
  {
    SpentDeadlines(ma, i, k, used);
    SpentDeadlines(mb, rho[i], k, used);
    var ma', mb' := Spent(ma, i, k), Spent(mb, rho[i], k);
    forall p | p in rho ensures PairOk(ma', mb', k, rho, used, p) {
      assert PairOk(ma, mb, k, rho, used, p);
      SpentMine(ma, i, k, used, p);
      SpentMine(mb, rho[i], k, used, rho[p]);
    }
    SameElsewhere(ma, mb, ma', mb', k);
  }

  /** A deadline that only the first map has. */
  lemma SpendOneSim<I, T>(ma: DeadlineMap<I, T>, mb: DeadlineMap<I, T>, k: string, rho: map<I, I>, used: set<I>, i: I)
    requires Sim(ma, mb, k, rho, used) && i !in rho && ItemDeadline(ma, i, k).Some?
    ensures Sim(Spent(ma, i, k), mb, k, rho, used)
  {
    SpentDeadlines(ma, i, k, used);
    var ma' := Spent(ma, i, k);
    forall p | p in rho ensures PairOk(ma', mb, k, rho, used, p) {
      assert PairOk(ma, mb, k, rho, used, p);
      SpentMine(ma, i, k, used, p);
    }
    SameElsewhere(ma, mb, ma', mb, k);
  }

  // ---------- operations on another key ----------

  /** A map that differs in key l only, where l is not k, has the same to say about the items of k. */
  lemma OtherKeyPairs<I, T>(ma: DeadlineMap<I, T>, mb: DeadlineMap<I, T>, k: string, rho: map<I, I>, used: set<I>,
                            ma': DeadlineMap<I, T>, mb': DeadlineMap<I, T>, used': set<I>, l: string)
    requires Sim(ma, mb, k, rho, used) && l != k && used <= used'
    requires OtherKey(ma, ma', k, l, used) && OtherKey(mb, mb', k, l, used)
    ensures Paired(ma', mb', k, rho, used') && Linked(ma', mb', k, rho)
  {
    assert EntrySame(ma, ma', k) && EntrySame(mb, mb', k);
    forall p | p in rho ensures PairOk(ma', mb', k, rho, used', p) {
      assert PairOk(ma, mb, k, rho, used, p);
      OtherKeyMine(ma, ma', k, l, used, p);
      OtherKeyMine(mb, mb', k, l, used, rho[p]);
    }
  }

  lemma OtherKeyMine<I, T>(m: DeadlineMap<I, T>, m': DeadlineMap<I, T>, k: string, l: string, used: set<I>, p: I)
    requires OtherKey(m, m', k, l, used) && l != k && p in used && Mine(m, k, p)
    ensures Mine(m', k, p) && ItemDeadline(m', p, k) == ItemDeadline(m, p, k)
  {
    assert EntrySame(m, m', k);
    forall h | h in m'.live && h != k ensures m'.live[h].item != p {
      assert EntrySame(m, m', h) || h == l;
    }
  }

  /** The items of key l are the old one or unused ones, and no orphan has changed but to those of key l. */
  ghost predicate OtherKey<I, T>(m: DeadlineMap<I, T>, m': DeadlineMap<I, T>, k: string, l: string, used: set<I>) {
    && OnlyKey(m, m', l)
    && (l in m'.live ==> m'.live[l].item !in used || (l in m.live && m'.live[l].item == m.live[l].item))
    && (forall i :: i in m'.orphans && m'.orphans[i].key == l ==>
      (i in m.orphans && m.orphans[i].key == l) || (l in m.live && i == m.live[l].item))
  }

  lemma OtherKeySim<I, T>(ma: DeadlineMap<I, T>, mb: DeadlineMap<I, T>, k: string, rho: map<I, I>, used: set<I>,
                          ma': DeadlineMap<I, T>, mb': DeadlineMap<I, T>, used': set<I>, l: string)
    requires Sim(ma, mb, k, rho, used) && l != k && used <= used' && Ids(ma', used') && Ids(mb', used')
    requires OtherKey(ma, ma', k, l, used) && OtherKey(mb, mb', k, l, used)
    requires EntrySame(ma', mb', l)
    requires forall i :: i in ma'.orphans.Keys + mb'.orphans.Keys ==> OrphanSame(ma', mb', k, i)
    ensures Sim(ma', mb', k, rho, used')
  {
    OtherKeyPairs(ma, mb, k, rho, used, ma', mb', used', l);
    forall h | h != k ensures EntrySame(ma', mb', h) {
      assert EntrySame(ma, mb, h);
      assert h != l ==> EntrySame(ma, ma', h) && EntrySame(mb, mb', h);
    }
  }

  lemma PutOtherSim<I, T>(ma: DeadlineMap<I, T>, mb: DeadlineMap<I, T>, k: string, rho: map<I, I>, used: set<I>,
                          l: string, v: T, d: Option<int>, i: I)
    requires Sim(ma, mb, k, rho, used) && l != k && i !in used
    ensures Sim(Put(ma, l, v, d, i), Put(mb, l, v, d, i), k, rho, used + {i})
  {
    PutIds(ma, l, v, d, i, used);
    PutIds(mb, l, v, d, i, used);
    assert EntrySame(ma, mb, l);
    var ma', mb' := Put(ma, l, v, d, i), Put(mb, l, v, d, i);
    forall j | j in ma'.orphans.Keys + mb'.orphans.Keys ensures OrphanSame(ma', mb', k, j) {
      assert OrphanSame(ma, mb, k, j);
    }
    OtherKeySim(ma, mb, k, rho, used, ma', mb', used + {i}, l);
  }

  lemma RenewOtherSim<I, T>(ma: DeadlineMap<I, T>, mb: DeadlineMap<I, T>, k: string, rho: map<I, I>, used: set<I>,
                            l: string, due: int)
    requires Sim(ma, mb, k, rho, used) && l != k
    ensures Sim(Renewed(ma, l, due), Renewed(mb, l, due), k, rho, used)
  {
    assert EntrySame(ma, mb, l);
    var ma', mb' := Renewed(ma, l, due), Renewed(mb, l, due);
    forall j | j in ma'.orphans.Keys + mb'.orphans.Keys ensures OrphanSame(ma', mb', k, j) {
      assert OrphanSame(ma, mb, k, j);
    }
    OtherKeySim(ma, mb, k, rho, used, ma', mb', used, l);
  }

  lemma DropOtherSim<I, T>(ma: DeadlineMap<I, T>, mb: DeadlineMap<I, T>, k: string, rho: map<I, I>, used: set<I>, l: string)
    requires Sim(ma, mb, k, rho, used) && l != k
    ensures Sim(Drop(ma, l), Drop(mb, l), k, rho, used)
  {
    assert EntrySame(ma, mb, l);
    DropDeadlines(ma, l, used);
    DropDeadlines(mb, l, used);
    var ma', mb' := Drop(ma, l), Drop(mb, l);
    forall j | j in ma'.orphans.Keys + mb'.orphans.Keys ensures OrphanSame(ma', mb', k, j) {
      assert j in ma.orphans.Keys + mb.orphans.Keys ==> OrphanSame(ma, mb, k, j);
    }
    OtherKeySim(ma, mb, k, rho, used, ma', mb', used, l);
  }

  lemma SpendOtherSim<I, T>(ma: DeadlineMap<I, T>, mb: DeadlineMap<I, T>, k: string, rho: map<I, I>, used: set<I>,
                            l: string, i: I)
    requires Sim(ma, mb, k, rho, used) && l != k && ItemDeadline(ma, i, l).Some?
    ensures ItemDeadline(mb, i, l) == ItemDeadline(ma, i, l)
    ensures Sim(Spent(ma, i, l), Spent(mb, i, l), k, rho, used)
  {
    assert EntrySame(ma, mb, l);
    assert i in ma.orphans.Keys + mb.orphans.Keys ==> OrphanSame(ma, mb, k, i);
    SpentDeadlines(ma, i, l, used);
    SpentDeadlines(mb, i, l, used);
    var ma', mb' := Spent(ma, i, l), Spent(mb, i, l);
    forall j | j in ma'.orphans.Keys + mb'.orphans.Keys ensures OrphanSame(ma', mb', k, j) {
      assert j in ma.orphans.Keys + mb.orphans.Keys ==> OrphanSame(ma, mb, k, j);
    }
    OtherKeySim(ma, mb, k, rho, used, ma', mb', used, l);
  }

  // ---------- the two caches, step by step ----------

  predicate SetsKey<I, T>(act: Act<I, T>, k: string) {
    act.Caller? && Creates(act.st.op) && act.st.op.key == k
  }

  /** Some caller sets a value for key k. */
  predicate Sets<I, T>(acts: seq<Act<I, T>>, k: string) {
    exists n :: 0 <= n < |acts| && SetsKey(acts[n], k)
  }

  function UsedAfter<I(==), T>(act: Act<I, T>, used: set<I>): set<I> {
    if act.Caller? && Creates(act.st.op) then used + {act.st.op.item} else used
  }

  /** The identities of new items are drawn afresh each time. */
  predicate FreshIds<I(==), T>(acts: seq<Act<I, T>>, used: set<I>) {
    acts == [] || (IsFresh(acts[0], used) && FreshIds(acts[1..], UsedAfter(acts[0], used)))
  }

  predicate IsFresh<I(==), T>(act: Act<I, T>, used: set<I>) {
    act.Caller? && Creates(act.st.op) ==> act.st.op.item !in used
  }

  /** What the callers of the cache do, without timers and deletes. */
  function Callers<I, T>(acts: seq<Act<I, T>>): seq<Act<I, T>> {
    if acts == [] then [] else (if acts[0].Caller? then [acts[0]] else []) + Callers(acts[1..])
  }

  /** An item with a deadline has the timer for it. */
  lemma TimerOf<I, T>(s: State<I, T>, m: DeadlineMap<I, T>, i: I, k: string) returns (t: Timer<I>)
    requires Represents(s, m) && ItemDeadline(m, i, k).Some?
    ensures Live(s, t) && t.item == i && s.heap[i].key == k && t.due == ItemDeadline(m, i, k).value
  {
    if i in m.orphans && m.orphans[i].key == k {
      assert OrphanAt(s, m, i);
    } else {
      assert LiveAt(s, m, k);
    }
    t := DeadlineHasTimer(s, i);
  }

  /** And a timer that passes the check stands for the deadline of its item. */
  lemma DeadlineOfTimer<I, T>(s: State<I, T>, m: DeadlineMap<I, T>, t: Timer<I>)
    requires Represents(s, m) && Live(s, t)
    ensures ItemDeadline(m, t.item, s.heap[t.item].key) == Some(t.due)
  {
    LiveTimerIsUnique(s, t);
    assert OrphanAt(s, m, t.item) && LiveAt(s, m, s.heap[t.item].key);
  }

  /** The check alone spends the deadline of its item. */
  lemma CheckSpends<I, T>(s: State<I, T>, m: DeadlineMap<I, T>, t: Timer<I>)
    requires Represents(s, m) && Live(s, t)
    ensures Represents(Check(s, t), Spent(m, t.item, s.heap[t.item].key))
  {
    SpentTimerRep(s, m, t);
    assert OrphanAt(s, m, t.item);
  }

  /** Cache b has the same deletes to do as a, but for key k, of which it may have fewer. */
  ghost predicate DoomedAlike(da: multiset<string>, db: multiset<string>, k: string) {
    (forall l :: l != k ==> db[l] == da[l]) && db[k] <= da[k]
  }

  /** Either nothing happens in cache b, or an act of the same kind at the same time. */
  ghost predicate Follows<I, T>(b: Split<I, T>, act: Act<I, T>, did: seq<Act<I, T>>, b': Split<I, T>)
    requires WellFormed(b.cache)
  {
    if did == [] then !act.Caller? && b' == b
    else
      && |did| == 1 && Time(did[0]) == Time(act) && CacheSplit.Enabled(b, did[0]) && b' == Next(b, did[0])
      && (did[0] == act || (did[0].CheckTimer? && act.CheckTimer?))
  }

  /** How a step changes who has key k. */
  ghost predicate KeyStep<I, T>(ma: DeadlineMap<I, T>, mb: DeadlineMap<I, T>, act: Act<I, T>,
                                ma': DeadlineMap<I, T>, mb': DeadlineMap<I, T>, k: string) {
    && (SetsKey(act, k) ==> k in mb'.live)
    && (k in ma'.live ==> k in ma.live || SetsKey(act, k))
    && (k in mb'.live ==> k in mb.live || SetsKey(act, k))
    && (k in ma'.live && k in mb.live ==> k in mb'.live)
  }

  lemma SpentKeeps<I, T>(m: DeadlineMap<I, T>, i: I, l: string, k: string)
    ensures k in Spent(m, i, l).live <==> k in m.live
  {
  }

  /** When a timer passes its check in a, the timer of the same entry does so in b, if b has it. */
  lemma CheckSim<I, T>(a: Split<I, T>, ma: DeadlineMap<I, T>, b: Split<I, T>, mb: DeadlineMap<I, T>, k: string,
                       rho: map<I, I>, used: set<I>, now: int, t: Timer<I>)
    returns (did: seq<Act<I, T>>, b': Split<I, T>, mb': DeadlineMap<I, T>)
    requires Represents(a.cache, ma) && Represents(b.cache, mb) && Sim(ma, mb, k, rho, used)
    requires DoomedAlike(a.doomed, b.doomed, k) && Live(a.cache, t) && t.due <= now
    ensures Follows(b, CheckTimer(now, t), did, b') && b'.cache.heap == b.cache.heap && Represents(b'.cache, mb')
    ensures DoomedAlike(a.doomed + multiset{a.cache.heap[t.item].key}, b'.doomed, k)
    ensures var ma' := Spent(ma, t.item, a.cache.heap[t.item].key);
      Sim(ma', mb', k, rho, used) && KeyStep(ma, mb, CheckTimer(now, t), ma', mb', k)
  {
    var l := a.cache.heap[t.item].key;
    DeadlineOfTimer(a.cache, ma, t);
    SpentKeeps(ma, t.item, l, k);
    if l == k && t.item !in rho {
      SpendOneSim(ma, mb, k, rho, used, t.item);
      did, b', mb' := [], b, mb;
    } else {
      var j := if l == k then rho[t.item] else t.item;
      if l == k {
        assert PairOk(ma, mb, k, rho, used, t.item);
        SpendBothSim(ma, mb, k, rho, used, t.item);
      } else {
        SpendOtherSim(ma, mb, k, rho, used, l, t.item);
      }
      var u := TimerOf(b.cache, mb, j, l);
      CheckSpends(b.cache, mb, u);
      SpentKeeps(mb, j, l, k);
      did, b', mb' := [CheckTimer(now, u)], Next(b, CheckTimer(now, u)), Spent(mb, j, l);
    }
  }

  /** A pending delete of a is done in b too, if b has one of that key. */
  lemma DeleteSim<I, T>(a: Split<I, T>, ma: DeadlineMap<I, T>, b: Split<I, T>, mb: DeadlineMap<I, T>, k: string,
                        rho: map<I, I>, used: set<I>, now: int, l: string)
    returns (did: seq<Act<I, T>>, b': Split<I, T>, mb': DeadlineMap<I, T>)
    requires Represents(b.cache, mb) && Sim(ma, mb, k, rho, used) && DoomedAlike(a.doomed, b.doomed, k) && l in a.doomed
    ensures Follows(b, DeleteDoomed(now, l), did, b') && b'.cache.heap == b.cache.heap && Represents(b'.cache, mb')
    ensures DoomedAlike(a.doomed - multiset{l}, b'.doomed, k)
    ensures Sim(Drop(ma, l), mb', k, rho, used) && KeyStep(ma, mb, DeleteDoomed(now, l), Drop(ma, l), mb', k)
  {
    if l in b.doomed {
      did, b', mb' := [DeleteDoomed(now, l)], Next(b, DeleteDoomed(now, l)), Drop(mb, l);
      RemoveRep(b.cache, mb, l);
      DropEither(ma, mb, k, rho, used, l);
    } else {
      assert b.doomed[l] == 0 && l == k;
      did, b', mb' := [], b, mb;
      DropOneSim(ma, mb, k, rho, used);
    }
  }

  lemma PutEither<I, T>(ma: DeadlineMap<I, T>, mb: DeadlineMap<I, T>, k: string, rho: map<I, I>, used: set<I>,
                        l: string, v: T, d: Option<int>, i: I)
    returns (rho': map<I, I>)
    requires Sim(ma, mb, k, rho, used) && i !in used
    ensures Sim(Put(ma, l, v, d, i), Put(mb, l, v, d, i), k, rho', used + {i})
  {
    if l == k {
      PutSim(ma, mb, k, rho, used, v, d, i);
      rho' := Repair(rho, ItemAt(ma, k, i), ItemAt(mb, k, i));
    } else {
      PutOtherSim(ma, mb, k, rho, used, l, v, d, i);
      rho' := rho;
    }
  }

  lemma RenewEither<I, T>(ma: DeadlineMap<I, T>, mb: DeadlineMap<I, T>, k: string, rho: map<I, I>, used: set<I>,
                          l: string, due: int)
    returns (rho': map<I, I>)
    requires Sim(ma, mb, k, rho, used)
    ensures Sim(Renewed(ma, l, due), Renewed(mb, l, due), k, rho', used)
  {
    if l == k {
      RenewSim(ma, mb, k, rho, used, due);
      rho' := RenewPairs(ma, mb, k, rho);
    } else {
      RenewOtherSim(ma, mb, k, rho, used, l, due);
      rho' := rho;
    }
  }

  lemma DropEither<I, T>(ma: DeadlineMap<I, T>, mb: DeadlineMap<I, T>, k: string, rho: map<I, I>, used: set<I>, l: string)
    requires Sim(ma, mb, k, rho, used)
    ensures Sim(Drop(ma, l), Drop(mb, l), k, rho, used)
  {
    if l == k {
      DropSim(ma, mb, k, rho, used);
    } else {
      DropOtherSim(ma, mb, k, rho, used, l);
    }
  }

  /** The operations of the callers are the same ones in both caches. */
  lemma ClientSim<I, T>(ma: DeadlineMap<I, T>, mb: DeadlineMap<I, T>, k: string, rho: map<I, I>, used: set<I>,
                        st: Step<I, T>)
    returns (rho': map<I, I>)
    requires Sim(ma, mb, k, rho, used) && !st.op.Fire?
    requires st.op.Set? || st.op.SetValue? ==> st.op.item !in used
    ensures Sim(MapStep(ma, st, None), MapStep(mb, st, None), k, rho', UsedAfter(Caller(st), used))
  {
    match st.op
    case Set(l, v, i) => rho' := PutEither(ma, mb, k, rho, used, l, v, None, i);
    case SetValue(l, v, d, i) => rho' := PutEither(ma, mb, k, rho, used, l, v, Some(st.now + d), i);
    case SetExpire(l, d) => rho' := RenewEither(ma, mb, k, rho, used, l, st.now + d);
    case Delete(l) =>
      rho' := rho;
      DropEither(ma, mb, k, rho, used, l);
  }

  lemma ClientKeyStep<I, T>(ma: DeadlineMap<I, T>, mb: DeadlineMap<I, T>, k: string, st: Step<I, T>)
    requires !st.op.Fire?
    ensures KeyStep(ma, mb, Caller(st), MapStep(ma, st, None), MapStep(mb, st, None), k)
  {
  }

  lemma CallerSim<I, T>(a: Split<I, T>, ma: DeadlineMap<I, T>, b: Split<I, T>, mb: DeadlineMap<I, T>, k: string,
                        rho: map<I, I>, used: set<I>, st: Step<I, T>)
    returns (did: seq<Act<I, T>>, b': Split<I, T>, mb': DeadlineMap<I, T>, rho': map<I, I>)
    requires Represents(a.cache, ma) && Represents(b.cache, mb) && Sim(ma, mb, k, rho, used)
    requires b.cache.heap.Keys <= used && CacheSplit.Enabled(a, Caller(st)) && IsFresh(Caller(st), used)
    ensures Follows(b, Caller(st), did, b') && b'.cache.heap.Keys <= UsedAfter(Caller(st), used)
    ensures Represents(b'.cache, mb') && b'.doomed == b.doomed
    ensures Sim(MapStep(ma, st, None), mb', k, rho', UsedAfter(Caller(st), used))
    ensures KeyStep(ma, mb, Caller(st), MapStep(ma, st, None), mb', k)
  {
    assert CacheModel.Enabled(b.cache, st) && CacheSplit.Enabled(b, Caller(st));
    StepRefines(b.cache, mb, st);
    rho' := ClientSim(ma, mb, k, rho, used, st);
    ClientKeyStep(ma, mb, k, st);
    did, b', mb' := [Caller(st)], Next(b, Caller(st)), MapStep(mb, st, None);
  }

  lemma ActSim<I, T>(a: Split<I, T>, ma: DeadlineMap<I, T>, b: Split<I, T>, mb: DeadlineMap<I, T>, k: string,
                     rho: map<I, I>, used: set<I>, act: Act<I, T>)
    returns (ma': DeadlineMap<I, T>, did: seq<Act<I, T>>, b': Split<I, T>, mb': DeadlineMap<I, T>, rho': map<I, I>)
    requires Represents(a.cache, ma) && Represents(b.cache, mb) && Sim(ma, mb, k, rho, used)
    requires b.cache.heap.Keys <= used && DoomedAlike(a.doomed, b.doomed, k)
    requires CacheSplit.Enabled(a, act) && IsFresh(act, used)
    ensures Represents(Next(a, act).cache, ma') && Represents(b'.cache, mb')
    ensures Follows(b, act, did, b') && b'.cache.heap.Keys <= UsedAfter(act, used)
    ensures DoomedAlike(Next(a, act).doomed, b'.doomed, k)
    ensures Sim(ma', mb', k, rho', UsedAfter(act, used)) && KeyStep(ma, mb, act, ma', mb', k)
  {
    rho' := rho;
    match act
    case Caller(st) =>
      StepRefines(a.cache, ma, st);
      ma' := MapStep(ma, st, None);
      did, b', mb', rho' := CallerSim(a, ma, b, mb, k, rho, used, st);
    case CheckTimer(now, t) =>
      if Live(a.cache, t) {
        CheckSpends(a.cache, ma, t);
        ma' := Spent(ma, t.item, a.cache.heap[t.item].key);
        did, b', mb' := CheckSim(a, ma, b, mb, k, rho, used, now, t);
      } else {
        StaleTimerRep(a.cache, ma, t);
        ma', did, b', mb' := ma, [], b, mb;
      }
    case DeleteDoomed(now, l) =>
      RemoveRep(a.cache, ma, l);
      ma' := Drop(ma, l);
      did, b', mb' := DeleteSim(a, ma, b, mb, k, rho, used, now, l);
  }

  // ---------- whole runs in the gap ----------

  /** From any pair of caches that agree outside key k, whatever happens. */
  lemma {:induction false} RunSim<I, T>(a: Split<I, T>, ma: DeadlineMap<I, T>, b: Split<I, T>, mb: DeadlineMap<I, T>,
                                        k: string, rho: map<I, I>, used: set<I>, now: int, acts: seq<Act<I, T>>,
                                        a': Split<I, T>)
    returns (did: seq<Act<I, T>>, b': Split<I, T>, ma': DeadlineMap<I, T>, mb': DeadlineMap<I, T>,
             rho': map<I, I>, used': set<I>)
    requires Represents(a.cache, ma) && Represents(b.cache, mb) && Sim(ma, mb, k, rho, used)
    requires b.cache.heap.Keys <= used && DoomedAlike(a.doomed, b.doomed, k)
    requires Run(a, now, acts, a') && FreshIds(acts, used)
    ensures Run(b, now, did, b') && Callers(did) == Callers(acts) && DoomedAlike(a'.doomed, b'.doomed, k)
    ensures Represents(a'.cache, ma') && Represents(b'.cache, mb') && Sim(ma', mb', k, rho', used')
    ensures k in ma'.live ==> k in ma.live || Sets(acts, k)
    ensures k in mb'.live ==> k in mb.live || Sets(acts, k)
    ensures k in ma'.live && (k in mb.live || Sets(acts, k)) ==> k in mb'.live
    decreases |acts|
  {
    if acts == [] {
      did, b', ma', mb', rho', used' := [], b, ma, mb, rho, used;
    } else {
      var act := acts[0];
      var ma1, first, b1, mb1, rho1 := ActSim(a, ma, b, mb, k, rho, used, act);
      var rest;
      rest, b', ma', mb', rho', used' :=
        RunSim(Next(a, act), ma1, b1, mb1, k, rho1, UsedAfter(act, used), Time(act), acts[1..], a');
      did := first + rest;
      RunPrepend(b, now, act, first, b1, rest, b');
      CallersPrepend(act, first, rest, acts);
      SetsPrepend(acts, k);
    }
  }

  lemma SetsPrepend<I, T>(acts: seq<Act<I, T>>, k: string)
    requires acts != []
    ensures Sets(acts, k) <==> SetsKey(acts[0], k) || Sets(acts[1..], k)
  {
    if n :| 0 <= n < |acts| && SetsKey(acts[n], k) {
      assert n > 0 ==> SetsKey(acts[1..][n - 1], k);
    }
    if n :| 0 <= n < |acts| - 1 && SetsKey(acts[1..][n], k) {
      assert SetsKey(acts[n + 1], k);
    }
  }

  lemma RunPrepend<I, T>(b: Split<I, T>, now: int, act: Act<I, T>, first: seq<Act<I, T>>, b1: Split<I, T>,
                         rest: seq<Act<I, T>>, b': Split<I, T>)
    requires WellFormed(b.cache) && now <= Time(act) && Follows(b, act, first, b1) && Run(b1, Time(act), rest, b')
    ensures Run(b, now, first + rest, b')
  {
    if first == [] {
      assert first + rest == rest;
      EarlierStart(b, now, Time(act), rest, b');
    } else {
      assert (first + rest)[1..] == rest;
    }
  }

  lemma EarlierStart<I, T>(b: Split<I, T>, now: int, later: int, acts: seq<Act<I, T>>, b': Split<I, T>)
    requires now <= later && Run(b, later, acts, b')
    ensures Run(b, now, acts, b')
  {
  }

  lemma CallersPrepend<I, T>(act: Act<I, T>, first: seq<Act<I, T>>, rest: seq<Act<I, T>>, acts: seq<Act<I, T>>)
    requires acts != [] && act == acts[0] && Callers(rest) == Callers(acts[1..])
    requires if first == [] then !act.Caller?
      else |first| == 1 && (first[0] == act || (first[0].CheckTimer? && act.CheckTimer?))
    ensures Callers(first + rest) == Callers(acts)
  {
    if first == [] {
      assert first + rest == rest;
    } else {
      assert (first + rest)[1..] == rest;
    }
  }

  /** What the two caches say about key l: both or none has it, with the same value and the same deadline. */
  ghost predicate SameEntry<I, T>(a: State<I, T>, b: State<I, T>, l: string)
    requires WellFormed(a) && WellFormed(b)
  {
    && (l in a.index <==> l in b.index)
    && (l in a.index ==>
      && a.heap[a.index[l]].value == b.heap[b.index[l]].value
      && DeadlineOf(a, a.index[l]) == DeadlineOf(b, b.index[l]))
  }

  lemma SimEntries<I, T>(a: State<I, T>, ma: DeadlineMap<I, T>, b: State<I, T>, mb: DeadlineMap<I, T>, k: string,
                         rho: map<I, I>, used: set<I>, l: string)
    requires Represents(a, ma) && Represents(b, mb) && Sim(ma, mb, k, rho, used)
    requires l != k || (k in ma.live && k in mb.live)
    ensures SameEntry(a, b, l)
  {
    assert LiveAt(a, ma, l) && LiveAt(b, mb, l);
    if l == k {
      assert PairOk(ma, mb, k, rho, used, ma.live[k].item);
    } else {
      assert EntrySame(ma, mb, l);
    }
  }

  lemma RepresentedIds<I, T>(s: State<I, T>, m: DeadlineMap<I, T>)
    requires Represents(s, m)
    ensures Ids(m, s.heap.Keys)
  {
    forall k | k in m.live
      ensures m.live[k].item in s.heap && m.live[k].item !in m.orphans && s.heap[m.live[k].item].key == k
    {
      assert LiveAt(s, m, k);
      assert OrphanAt(s, m, m.live[k].item);
    }
  }

  /** The cache right after the check against the one that has deleted at once. */
  lemma GapOpens<I, T>(s: State<I, T>, m: DeadlineMap<I, T>, t: Timer<I>)
    returns (ma: DeadlineMap<I, T>, mb: DeadlineMap<I, T>, rho: map<I, I>)
    requires Represents(s, m) && Live(s, t)
    ensures var k := s.heap[t.item].key;
      && Represents(Check(s, t), ma) && Represents(Remove(Check(s, t), k), mb)
      && Sim(ma, mb, k, rho, s.heap.Keys) && k !in mb.live
  {
    var k := s.heap[t.item].key;
    SpentTimerRep(s, m, t);
    ma := if Indexed(s, t.item) then WithDeadline(m, k, None) else m.(orphans := m.orphans - {t.item});
    RemoveRep(Check(s, t), ma, k);
    mb := Drop(ma, k);
    RepresentedIds(Check(s, t), ma);
    RepresentedIds(Remove(Check(s, t), k), mb);
    rho := map i | i in ma.orphans && ma.orphans[i].key == k :: i;
    forall i | i in rho ensures PairOk(ma, mb, k, rho, s.heap.Keys, i) {
    }
    forall i | i in ma.orphans.Keys + mb.orphans.Keys ensures OrphanSame(ma, mb, k, i) {
    }
    forall l | l != k ensures EntrySame(ma, mb, l) {
    }
  }

  /** A run in which timer t checks and deletes at once at this moment; the callers do the same. */
  ghost predicate AtOnceRun<I, T>(s: Split<I, T>, t: Timer<I>, now: int, acts: seq<Act<I, T>>,
                                  did: seq<Act<I, T>>, b: Split<I, T>) {
    && WellFormed(s.cache) && CacheModel.Enabled(s.cache, Step(now, Fire(t)))
    && Run(s.(cache := Apply(s.cache, Step(now, Fire(t)))), now, did, b) && Callers(did) == Callers(acts)
  }

  /** Caches a and b agree on all keys but k; b has k only if a caller has set it, and then as a has it, if a does. */
  ghost predicate AgreeButFor<I, T>(a: State<I, T>, b: State<I, T>, k: string, acts: seq<Act<I, T>>) {
    && WellFormed(a) && WellFormed(b)
    && (forall l {:trigger SameEntry(a, b, l)} :: l != k ==> SameEntry(a, b, l))
    && (k in b.index ==> Sets(acts, k))
    && (k in a.index && Sets(acts, k) ==> SameEntry(a, b, k))
  }

  /**
   A timer passes its check, then anything happens, other checks and deletes
   included, then comes the delete. Take the run in which this one delete comes
   with its check, the callers do the same and timers are checked for the same
   entries. The two caches agree on all other keys. If the delete then meets an
   entry of its key, that other run has kept that very entry if and only if a
   value has been set for the key in the gap; otherwise the entry is the expired
   one, perhaps renewed.
   */
  lemma GapExactly<I, T>(s: Split<I, T>, m: DeadlineMap<I, T>, t: Timer<I>, now: int, acts: seq<Act<I, T>>, a: Split<I, T>)
    returns (did: seq<Act<I, T>>, b: Split<I, T>)
    requires Represents(s.cache, m) && Live(s.cache, t) && CacheModel.Enabled(s.cache, Step(now, Fire(t)))
    requires Run(s.(cache := Check(s.cache, t)), now, acts, a) && FreshIds(acts, s.cache.heap.Keys)
    ensures AtOnceRun(s, t, now, acts, did, b)
    ensures AgreeButFor(a.cache, b.cache, s.cache.heap[t.item].key, acts)
  {
    var k := s.cache.heap[t.item].key;
    var ma, mb, rho := GapOpens(s.cache, m, t);
    var ma', mb', rho', used;
    var a0, b0 := s.(cache := Check(s.cache, t)), s.(cache := Remove(Check(s.cache, t), k));
    did, b, ma', mb', rho', used := RunSim(a0, ma, b0, mb, k, rho, s.cache.heap.Keys, now, acts, a);
    assert LiveAt(a.cache, ma', k) && LiveAt(b.cache, mb', k);
    forall l | l != k ensures SameEntry(a.cache, b.cache, l) {
      SimEntries(a.cache, ma', b.cache, mb', k, rho', used, l);
    }
    if k in a.cache.index && k in b.cache.index {
      SimEntries(a.cache, ma', b.cache, mb', k, rho', used, k);
    }
  }

  // ---------- two runs of a new cache ----------

  lemma ReadyIsReached(k: string, i: nat) returns (steps: seq<Step<nat, int>>)
    ensures CacheRuns.Run(CacheRuns.Empty(), 0, steps, Ready(k, i)) && Live(Ready(k, i), Timer(i, 1, 30))
    ensures CacheModel.Enabled(Ready(k, i), Step(30, Fire(Timer(i, 1, 30))))
  {
    assert Apply(CacheRuns.Empty(), Step(0, SetValue(k, 0, 30, i))) == Ready(k, i);
    steps := CacheRuns.RunStep(CacheRuns.Empty(), Step(0, SetValue(k, 0, 30, i)), Ready(k, i), [], Ready(k, i));
  }

  /**
   A renewal in the gap finds its entry and reports success, and the deadline it
   sets lies ahead when the delete takes the entry away. Atomic firing would have
   made it report that there is no such entry.
   */
  lemma GapLosesRenewal(k: string, i: nat) returns (steps: seq<Step<nat, int>>)
    ensures CacheRuns.Run(CacheRuns.Empty(), 0, steps, Ready(k, i)) && Live(Ready(k, i), Timer(i, 1, 30))
    ensures var split := Check(Ready(k, i), Timer(i, 1, 30));
      && k in split.index
      && DeadlineOf(Apply(split, Step(30, SetExpire(k, 30))), i) == Some(60)
      && k !in Remove(Apply(split, Step(30, SetExpire(k, 30))), k).index
    ensures k !in Apply(Ready(k, i), Step(30, Fire(Timer(i, 1, 30)))).index
  {
    steps := ReadyIsReached(k, i);
    LiveTimerIsUnique(Apply(Check(Ready(k, i), Timer(i, 1, 30)), Step(30, SetExpire(k, 30))), Timer(i, 2, 60));
  }

  /** A value set in the gap goes with the delete; atomic firing would have kept it. */
  lemma GapLosesValue(k: string, i: nat, j: nat, v: int) returns (steps: seq<Step<nat, int>>)
    requires i != j
    ensures CacheRuns.Run(CacheRuns.Empty(), 0, steps, Ready(k, i)) && Live(Ready(k, i), Timer(i, 1, 30))
    ensures var split := Apply(Check(Ready(k, i), Timer(i, 1, 30)), Step(30, SetValue(k, v, 30, j)));
      var atomic := Apply(Apply(Ready(k, i), Step(30, Fire(Timer(i, 1, 30)))), Step(30, SetValue(k, v, 30, j)));
      && k in split.index && k !in Remove(split, k).index
      && k in atomic.index && atomic.heap[atomic.index[k]].value == v
  {
    steps := ReadyIsReached(k, i);
  }
}
