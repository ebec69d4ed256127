/**
 Command sessions in a cluster: each client's online record in the shared store
 names the invoker that logged in last. A login overwrites it, every node sees
 the change as a watch event and kicks the previous invoker if it is its own,
 and a closing invoker takes back its record if it is still the one named there.
 Logins run in goroutines of their own: they may come at any time, also when
 their invoker is closing or closed, and more than once.
 */
module Session {
  import opened Prelude

  /**
   Open: in its node's route. Left: out of it, OnCloseClient to come. Found: its
   read of the record found itself, the delete is to come.
   */
  datatype Phase = Open | Left | Found | Closed

  datatype Invoker = Invoker(node: nat, client: string, phase: Phase)

  datatype Event = Put(prev: Option<string>, cur: string) | Deleted

  /**
   Invokers by id. queues[n] holds the watch events node n has not handled yet,
   logins the ids in the order of their logins. late are the invokers that have
   logged in when they were closed already, robbed those whose record was
   deleted by the close of another invoker after their last login.
   */
  datatype State = State(
    invokers: map<string, Invoker>,
    online: map<string, string>,
    queues: seq<seq<Event>>,
    kicked: set<string>,
    logins: seq<string>,
    late: set<string>,
    robbed: set<string>)

  function Init(nodes: nat): State {
    State(map[], map[], seq(nodes, _ => []), {}, [], {}, {})
  }

  datatype Action =
    | Connect(id: string, node: nat, client: string)
    | Login(id: string)          // PutOnlineClient, once the login has been accepted
    | Watch(node: nat)           // onWatcher_ClientOnline for the next event of a node
    | Leave(id: string)          // RemoveInvoker
    | ReadRecord(id: string)     // OnCloseClient: GetOnlineClient and the comparison
    | DeleteRecord(id: string)   // OnCloseClient: DeleteOnlineClient

  ghost predicate Enabled(s: State, a: Action) {
    match a
    case Connect(id, node, _) => id !in s.invokers && node < |s.queues|
    case Login(id) => id in s.invokers
    case Watch(node) => node < |s.queues| && s.queues[node] != []
    case Leave(id) => id in s.invokers && s.invokers[id].phase == Open
    case ReadRecord(id) => id in s.invokers && s.invokers[id].phase == Left
    case DeleteRecord(id) => id in s.invokers && s.invokers[id].phase == Found
  }

  function Notify(queues: seq<seq<Event>>, e: Event): (r: seq<seq<Event>>)
    ensures |r| == |queues|
    ensures forall n :: 0 <= n < |queues| ==> r[n] == queues[n] + [e]
  {
    seq(|queues|, n requires 0 <= n < |queues| => queues[n] + [e])
  }

  function RecordOf(online: map<string, string>, client: string): Option<string> {
    if client in online then Some(online[client]) else None
  }

  function LoginStep(s: State, id: string): State
    requires id in s.invokers
  {
    var c := s.invokers[id].client;
    s.(online := s.online[c := id],
       queues := Notify(s.queues, Put(RecordOf(s.online, c), id)),
       logins := s.logins + [id],
       late := if s.invokers[id].phase == Closed then s.late + {id} else s.late,
       robbed := s.robbed - {id})
  }

  function WatchStep(s: State, node: nat): State
    requires node < |s.queues| && s.queues[node] != []
  {
    var s' := s.(queues := s.queues[node := s.queues[node][1..]]);
    match s.queues[node][0]
    case Put(Some(p), _) =>
      if p in s.invokers && s.invokers[p].node == node && s.invokers[p].phase == Open
      then s'.(kicked := s.kicked + {p}) else s'
    case _ => s'
  }

  function InPhase(s: State, id: string, phase: Phase): State
    requires id in s.invokers
  {
    s.(invokers := s.invokers[id := s.invokers[id].(phase := phase)])
  }

  function ReadStep(s: State, id: string): State
    requires id in s.invokers
  {
    InPhase(s, id, if RecordOf(s.online, s.invokers[id].client) == Some(id) then Found else Closed)
  }

  function DeleteStep(s: State, id: string): State
    requires id in s.invokers
  {
    var c := s.invokers[id].client;
    var s' := InPhase(s, id, Closed);
    if c in s.online
    then s'.(online := s.online - {c}, queues := Notify(s.queues, Deleted), robbed := s.robbed + ({s.online[c]} - {id}))
    else s'
  }

  function Apply(s: State, a: Action): State
    requires Enabled(s, a)
  {
    match a
    case Connect(id, node, client) => s.(invokers := s.invokers[id := Invoker(node, client, Open)])
    case Login(id) => LoginStep(s, id)
    case Watch(node) => WatchStep(s, node)
    case Leave(id) => InPhase(s, id, Left)
    case ReadRecord(id) => ReadStep(s, id)
    case DeleteRecord(id) => DeleteStep(s, id)
  }

  ghost predicate Run(s: State, acts: seq<Action>, t: State)
    decreases |acts|
  {
    if acts == [] then s == t else Enabled(s, acts[0]) && Run(Apply(s, acts[0]), acts[1..], t)
  }

  // ---------- invariant ----------

  /** Login q of the same client comes after login p of this invoker. */
  ghost predicate LaterLogin(s: State, id: string, p: nat, q: nat) {
    && p < q < |s.logins| && s.logins[p] == id
    && id in s.invokers && s.logins[q] in s.invokers
    && s.invokers[s.logins[q]].client == s.invokers[id].client
  }

  /** After this invoker its client has logged in again: on another invoker, or a second time on this one. */
  ghost predicate Superseded(s: State, id: string) {
    exists p: nat, q: nat :: LaterLogin(s, id, p, q)
  }

  ghost predicate Queued(s: State, id: string, node: nat, n: nat) {
    && node < |s.queues| && n < |s.queues[node]|
    && s.queues[node][n].Put? && s.queues[node][n].prev == Some(id)
  }

  /** The session of a logged-in, open invoker: current, kicked, about to be kicked, or robbed of its record. */
  ghost predicate Accounted(s: State, id: string)
    requires id in s.invokers
  {
    || RecordOf(s.online, s.invokers[id].client) == Some(id)
    || id in s.kicked
    || (exists n: nat :: Queued(s, id, s.invokers[id].node, n))
    || id in s.robbed
  }

  /** Login q is the last one of its client. */
  ghost predicate IsLast(s: State, q: nat) {
    && q < |s.logins| && s.logins[q] in s.invokers
    && forall r :: q < r < |s.logins| ==>
      s.logins[r] in s.invokers && s.invokers[s.logins[r]].client != s.invokers[s.logins[q]].client
  }

  /** The last login of client c, if it has ever logged in, is the q-th one. */
  ghost predicate Newest(s: State, c: string, q: nat) {
    IsLast(s, q) && s.invokers[s.logins[q]].client == c
  }

  ghost predicate LoginsInv(s: State) {
    && (forall q :: 0 <= q < |s.logins| ==> s.logins[q] in s.invokers)
    && (forall id :: id in s.invokers ==> s.invokers[id].node < |s.queues|)
    && (forall id :: id in s.late ==> id in s.invokers && s.invokers[id].phase == Closed)
    && (forall id :: id in s.invokers && s.invokers[id].phase == Found ==> id in s.logins)
  }

  /** Whether the record of a client's newest login x is still there. */
  ghost predicate RecordStands(s: State, x: string)
    requires x in s.invokers
  {
    x !in s.robbed && (s.invokers[x].phase == Closed ==> x in s.late)
  }

  /** The record of the client of login q, its last, is the one of that login if that stands, and gone otherwise. */
  ghost predicate RecordRight(s: State, q: nat)
    requires IsLast(s, q)
  {
    var x := s.logins[q];
    RecordOf(s.online, s.invokers[x].client) == if RecordStands(s, x) then Some(x) else None
  }

  /** The record names the newest login of its client, as long as that one's record stands. */
  ghost predicate RecordInv(s: State) {
    && (forall c :: c in s.online ==>
      s.online[c] in s.invokers && s.invokers[s.online[c]].client == c && s.online[c] in s.logins)
    && (forall q: nat {:trigger IsLast(s, q)} :: IsLast(s, q) ==> RecordRight(s, q))
  }

  ghost predicate KickInv(s: State) {
    && (forall id {:trigger Superseded(s, id)} :: id in s.kicked ==> Superseded(s, id))
    && (forall id, node: nat, n: nat {:trigger Queued(s, id, node, n)} :: Queued(s, id, node, n) ==> Superseded(s, id))
  }

  ghost predicate AccountInv(s: State) {
    forall id {:trigger Accounted(s, id)} ::
      id in s.invokers && id in s.logins && s.invokers[id].phase == Open ==> Accounted(s, id)
  }

  /** Some other invoker, older and closed by now, has deleted the record of this one. */
  ghost predicate RobbedBy(s: State, id: string, other: string, p: nat, q: nat) {
    other != id && LaterLogin(s, other, p, q) && s.logins[q] == id && s.invokers[other].phase == Closed
  }

  ghost predicate RobInv(s: State) {
    forall id :: id in s.robbed ==> exists other, p: nat, q: nat :: RobbedBy(s, id, other, p, q)
  }

  ghost predicate Inv(s: State) {
    LoginsInv(s) && RecordInv(s) && KickInv(s) && AccountInv(s) && RobInv(s)
  }

  // ---------- login ----------

  lemma LoginSupersedes(s: State, id: string, j: string)
    requires LoginsInv(s) && Enabled(s, Login(id))
    requires Superseded(s, j) || (j in s.logins && s.invokers[j].client == s.invokers[id].client)
    ensures Superseded(LoginStep(s, id), j)
  {
    var t := LoginStep(s, id);
    if Superseded(s, j) {
      var p: nat, q: nat :| LaterLogin(s, j, p, q);
      assert LaterLogin(t, j, p, q);
    } else {
      var p :| 0 <= p < |s.logins| && s.logins[p] == j;
      assert LaterLogin(t, j, p, |s.logins|);
    }
  }

  lemma LoginKicks(s: State, id: string)
    requires Inv(s) && Enabled(s, Login(id))
    ensures KickInv(LoginStep(s, id))
  {
    var t := LoginStep(s, id);
    forall j | j in t.kicked ensures Superseded(t, j) {
      LoginSupersedes(s, id, j);
    }
    forall j, node: nat, n: nat | Queued(t, j, node, n) ensures Superseded(t, j) {
      if n < |s.queues[node]| {
        assert Queued(s, j, node, n);
      }
      LoginSupersedes(s, id, j);
    }
  }

  lemma LoginAccounts(s: State, id: string)
    requires Inv(s) && Enabled(s, Login(id))
    ensures AccountInv(LoginStep(s, id))
  {
    var t := LoginStep(s, id);
    forall j | j in t.invokers && j in t.logins && t.invokers[j].phase == Open
      ensures Accounted(t, j)
    {
      if j != id {
        var node := s.invokers[j].node;
        assert j in s.logins && Accounted(s, j);
        if RecordOf(s.online, s.invokers[j].client) == Some(j) {
          if s.invokers[j].client == s.invokers[id].client {
            assert Queued(t, j, node, |s.queues[node]|);
          }
        } else if n: nat :| Queued(s, j, node, n) {
          assert Queued(t, j, node, n);
        }
      }
    }
  }

  lemma LoginRecords(s: State, id: string)
    requires Inv(s) && Enabled(s, Login(id))
    ensures LoginsInv(LoginStep(s, id)) && RecordInv(LoginStep(s, id))
  {
    var t := LoginStep(s, id);
    assert t.logins[|s.logins|] == id;
    forall j | j in s.logins ensures j in t.logins {
    }
    forall q: nat | IsLast(t, q)
      ensures RecordRight(t, q)
    {
      if q < |s.logins| {
        assert t.logins[q] == s.logins[q];
        forall r | q < r < |s.logins|
          ensures s.logins[r] in s.invokers && s.invokers[s.logins[r]].client != s.invokers[s.logins[q]].client
        {
          assert t.logins[r] == s.logins[r];
        }
        assert IsLast(s, q);
      }
    }
  }

  lemma LoginRobs(s: State, id: string)
    requires Inv(s) && Enabled(s, Login(id))
    ensures RobInv(LoginStep(s, id))
  {
    var t := LoginStep(s, id);
    forall j | j in t.robbed ensures exists other, p: nat, q: nat :: RobbedBy(t, j, other, p, q) {
      var other, p: nat, q: nat :| RobbedBy(s, j, other, p, q);
      assert RobbedBy(t, j, other, p, q);
    }
  }

  // ---------- the other actions ----------

  /** Superseded invokers stay superseded as long as clients and logins stay. */
  lemma SupersededStays(s: State, t: State, id: string)
    requires Superseded(s, id) && t.logins == s.logins
    requires forall j :: j in s.invokers ==> j in t.invokers && t.invokers[j].client == s.invokers[j].client
    ensures Superseded(t, id)
  {
    var p: nat, q: nat :| LaterLogin(s, id, p, q);
    assert LaterLogin(t, id, p, q);
  }

  /** What holds as long as nobody logs in and nobody loses client or node. */
  ghost predicate SameLogins(s: State, t: State) {
    && t.logins == s.logins && s.invokers.Keys <= t.invokers.Keys && |t.queues| == |s.queues|
    && (forall j :: j in s.invokers ==>
      t.invokers[j].client == s.invokers[j].client && t.invokers[j].node == s.invokers[j].node)
    && (forall j :: j in s.invokers && s.invokers[j].phase == Closed ==> t.invokers[j].phase == Closed)
  }

  lemma KicksStay(s: State, t: State)
    requires Inv(s) && SameLogins(s, t) && t.kicked == s.kicked
    requires forall node, n :: 0 <= node < |t.queues| && 0 <= n < |t.queues[node]| && t.queues[node][n].Put? ==>
      n < |s.queues[node]| && t.queues[node][n] == s.queues[node][n]
    ensures KickInv(t)
  {
    forall j | j in t.kicked ensures Superseded(t, j) {
      SupersededStays(s, t, j);
    }
    forall j, m: nat, n: nat | Queued(t, j, m, n) ensures Superseded(t, j) {
      assert Queued(s, j, m, n);
      SupersededStays(s, t, j);
    }
  }

  lemma RobsStay(s: State, t: State)
    requires Inv(s) && SameLogins(s, t) && t.robbed == s.robbed
    ensures RobInv(t)
  {
    forall j | j in t.robbed ensures exists other, p: nat, q: nat :: RobbedBy(t, j, other, p, q) {
      var other, p: nat, q: nat :| RobbedBy(s, j, other, p, q);
      assert RobbedBy(t, j, other, p, q);
    }
  }

  lemma LastStays(s: State, t: State, q: nat)
    requires LoginsInv(s) && SameLogins(s, t) && IsLast(t, q)
    ensures IsLast(s, q)
  {
  }

  lemma AccountStays(s: State, t: State, j: string)
    requires Inv(s) && SameLogins(s, t) && j in s.invokers && Accounted(s, j)
    requires s.kicked <= t.kicked && s.robbed <= t.robbed
    requires RecordOf(s.online, s.invokers[j].client) == Some(j) ==>
      RecordOf(t.online, s.invokers[j].client) == Some(j) || j in t.robbed
    requires forall n: nat :: n < |s.queues[s.invokers[j].node]| ==>
      n < |t.queues[s.invokers[j].node]| && t.queues[s.invokers[j].node][n] == s.queues[s.invokers[j].node][n]
    ensures Accounted(t, j)
  {
    if n: nat :| Queued(s, j, s.invokers[j].node, n) {
      assert Queued(t, j, s.invokers[j].node, n);
    }
  }

  /** Steps that leave the store and the events alone. */
  lemma QuietKeeps(s: State, t: State)
    requires Inv(s) && SameLogins(s, t) && LoginsInv(t)
    requires t == s.(invokers := t.invokers)
    requires forall j :: j in s.invokers && t.invokers[j].phase == Open ==> s.invokers[j].phase == Open
    requires forall j :: j in s.invokers && t.invokers[j].phase == Closed && s.invokers[j].phase != Closed ==>
      RecordOf(s.online, s.invokers[j].client) != Some(j)
    ensures Inv(t)
  {
    KicksStay(s, t);
    RobsStay(s, t);
    forall q: nat | IsLast(t, q)
      ensures RecordRight(t, q)
    {
      LastStays(s, t, q);
    }
    forall j | j in t.invokers && j in t.logins && t.invokers[j].phase == Open ensures Accounted(t, j) {
      assert Accounted(s, j);
      AccountStays(s, t, j);
    }
  }

  lemma WatchKeeps(s: State, node: nat)
    requires Inv(s) && Enabled(s, Watch(node))
    ensures Inv(WatchStep(s, node))
  {
    var t := WatchStep(s, node);
    var e := s.queues[node][0];
    assert e.Put? && e.prev.Some? ==> Queued(s, e.prev.value, node, 0);
    RobsStay(s, t);
    forall j | j in t.kicked ensures Superseded(t, j) {
      SupersededStays(s, t, j);
    }
    forall j, m: nat, n: nat | Queued(t, j, m, n) ensures Superseded(t, j) {
      assert Queued(s, j, m, if m == node then n + 1 else n);
      SupersededStays(s, t, j);
    }
    forall j | j in t.invokers && j in t.logins && t.invokers[j].phase == Open ensures Accounted(t, j) {
      WatchAccounts(s, node, j);
    }
    forall q: nat | IsLast(t, q)
      ensures RecordRight(t, q)
    {
      LastStays(s, t, q);
    }
  }

  /** An invoker whose event is taken off the queue is kicked by that very step. */
  lemma WatchAccounts(s: State, node: nat, j: string)
    requires Inv(s) && Enabled(s, Watch(node))
    requires j in s.invokers && j in s.logins && s.invokers[j].phase == Open
    ensures Accounted(WatchStep(s, node), j)
  {
    var t := WatchStep(s, node);
    var m := s.invokers[j].node;
    assert Accounted(s, j);
    if RecordOf(s.online, s.invokers[j].client) != Some(j) && j !in s.kicked && j !in s.robbed {
      var n: nat :| Queued(s, j, m, n);
      if m != node {
        assert Queued(t, j, m, n);
      } else if n > 0 {
        assert Queued(t, j, m, n - 1);
      }
    }
  }

  /** The record that a delete takes away belongs to the newest login of the client. */
  lemma RecordIsNewest(s: State, c: string) returns (q: nat)
    requires Inv(s) && c in s.online
    ensures Newest(s, c, q) && s.logins[q] == s.online[c]
  {
    var x := s.online[c];
    var p :| 0 <= p < |s.logins| && s.logins[p] == x;
    q := LastOf(s, c, p);
  }

  lemma {:induction false} LastOf(s: State, c: string, p: nat) returns (q: nat)
    requires LoginsInv(s) && p < |s.logins| && s.invokers[s.logins[p]].client == c
    ensures p <= q && Newest(s, c, q)
    decreases |s.logins| - p
  {
    if r :| p < r < |s.logins| && s.invokers[s.logins[r]].client == c {
      q := LastOf(s, c, r);
    } else {
      q := p;
    }
  }

  lemma DeleteRecords(s: State, id: string)
    requires Inv(s) && Enabled(s, DeleteRecord(id))
    ensures RecordInv(DeleteStep(s, id))
  {
    var t := DeleteStep(s, id);
    var c := s.invokers[id].client;
    forall q: nat | IsLast(t, q)
      ensures RecordRight(t, q)
    {
      LastStays(s, t, q);
      if s.invokers[s.logins[q]].client == c && c in s.online {
        var q' := RecordIsNewest(s, c);
        assert q' == q;
      }
    }
  }

  lemma DeleteRobs(s: State, id: string)
    requires Inv(s) && Enabled(s, DeleteRecord(id))
    ensures RobInv(DeleteStep(s, id))
  {
    var t := DeleteStep(s, id);
    var c := s.invokers[id].client;
    forall j | j in t.robbed ensures exists other, p: nat, q: nat :: RobbedBy(t, j, other, p, q) {
      if j in s.robbed {
        var other, p: nat, q: nat :| RobbedBy(s, j, other, p, q);
        assert RobbedBy(t, j, other, p, q);
      } else {
        var q := RecordIsNewest(s, c);
        var p :| 0 <= p < |s.logins| && s.logins[p] == id;
        assert RobbedBy(t, j, id, p, q);
      }
    }
  }

  lemma DeleteKeeps(s: State, id: string)
    requires Inv(s) && Enabled(s, DeleteRecord(id))
    ensures Inv(DeleteStep(s, id))
  {
    var t := DeleteStep(s, id);
    KicksStay(s, t);
    DeleteRecords(s, id);
    DeleteRobs(s, id);
    forall j | j in t.invokers && j in t.logins && t.invokers[j].phase == Open ensures Accounted(t, j) {
      assert Accounted(s, j);
      AccountStays(s, t, j);
    }
  }

  lemma ConnectKeeps(s: State, a: Action)
    requires Inv(s) && Enabled(s, a) && a.Connect?
    ensures Inv(Apply(s, a))
  {
    QuietKeeps(s, Apply(s, a));
  }

  lemma ActionKeeps(s: State, a: Action)
    requires Inv(s) && Enabled(s, a)
    ensures Inv(Apply(s, a))
  {
    match a
    case Login(id) =>
      LoginKicks(s, id);
      LoginAccounts(s, id);
      LoginRecords(s, id);
      LoginRobs(s, id);
    case Watch(node) => WatchKeeps(s, node);
    case DeleteRecord(id) => DeleteKeeps(s, id);
    case Connect(_, _, _) => ConnectKeeps(s, a);
    case Leave(id) => QuietKeeps(s, InPhase(s, id, Left));
    case ReadRecord(id) => QuietKeeps(s, ReadStep(s, id));
  }

  lemma {:induction false} RunKeepsInv(s: State, acts: seq<Action>, t: State)
    requires Inv(s) && Run(s, acts, t)
    ensures Inv(t)
    decreases |acts|
  {
    if acts != [] {
      ActionKeeps(s, acts[0]);
      RunKeepsInv(Apply(s, acts[0]), acts[1..], t);
    }
  }
}
