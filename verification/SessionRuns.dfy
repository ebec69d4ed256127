/** What holds of sessions over whole runs, and the handlers of node.go. */
module SessionRuns {
  import opened Prelude
  import opened Session

  // ---------- main results ----------

  /** Open and logged in. */
  ghost predicate OnSession(s: State, id: string) {
    id in s.invokers && id in s.logins && s.invokers[id].phase == Open
  }

  /**
   In every reachable state a logged-in open invoker is the one its client's
   record names, or has been kicked, or is named by an event still queued at its
   node, or an older, closed invoker has deleted its record. Only invokers that
   a later login of their client has followed are kicked. And a client's record
   names its newest login x, unless x's record has been deleted: by an older
   invoker, or by x itself when it closed after its login.
   */
  lemma SingleSession(nodes: nat, acts: seq<Action>, t: State)
    requires Run(Init(nodes), acts, t)
    ensures forall id :: OnSession(t, id) ==> Accounted(t, id)
    ensures forall id :: id in t.kicked ==> Superseded(t, id)
    ensures forall id :: id in t.robbed ==> exists other, p: nat, q: nat :: RobbedBy(t, id, other, p, q)
    ensures forall c :: c in t.online ==> exists q: nat :: Newest(t, c, q)
    ensures forall c, q: nat :: Newest(t, c, q) ==>
      RecordOf(t.online, c) == if RecordStands(t, t.logins[q]) then Some(t.logins[q]) else None
  {
    RunKeepsInv(Init(nodes), acts, t);
    forall c | c in t.online ensures exists q: nat :: Newest(t, c, q) {
      var q := RecordIsNewest(t, c);
    }
  }

  /** An invoker that has logged in once is only kicked if another invoker of its client has logged in after it. */
  lemma KickedByAnother(nodes: nat, acts: seq<Action>, t: State, id: string)
    requires Run(Init(nodes), acts, t) && id in t.kicked
    requires forall p, q :: 0 <= p < q < |t.logins| && t.logins[p] == id ==> t.logins[q] != id
    ensures exists p: nat, q: nat :: LaterLogin(t, id, p, q) && t.logins[q] != id
  {
    RunKeepsInv(Init(nodes), acts, t);
    assert Superseded(t, id);
    var p: nat, q: nat :| LaterLogin(t, id, p, q);
  }

  /** The client has an open session that nobody has kicked and whose record nobody else has deleted. */
  ghost predicate Holds(s: State, id: string) {
    OnSession(s, id) && id !in s.kicked && id !in s.robbed
  }

  /**
   Once all events are handled, such a session is the newest login of its
   client and the recorded one, so there is at most one; and there is one if and
   only if the newest login itself is open, not kicked and not robbed.
   */
  lemma OneSessionAtRest(nodes: nat, acts: seq<Action>, t: State, c: string, q: nat)
    requires Run(Init(nodes), acts, t) && Newest(t, c, q)
    requires forall n :: 0 <= n < |t.queues| ==> t.queues[n] == []
    ensures forall i :: Holds(t, i) && t.invokers[i].client == c ==> i == t.logins[q] && RecordOf(t.online, c) == Some(i)
    ensures (exists i :: Holds(t, i) && t.invokers[i].client == c) <==> Holds(t, t.logins[q])
  {
    RunKeepsInv(Init(nodes), acts, t);
    forall i | Holds(t, i) && t.invokers[i].client == c
      ensures i == t.logins[q] && RecordOf(t.online, c) == Some(i)
    {
      assert Accounted(t, i);
    }
  }

  // ---------- logins of closed invokers ----------

  /** Some login step of the run came when its invoker was closed. */
  ghost predicate LoggedInClosed(s: State, acts: seq<Action>, t: State, id: string)
    requires Run(s, acts, t)
    decreases |acts|
  {
    acts != [] &&
    ((acts[0] == Login(id) && s.invokers[id].phase == Closed) || LoggedInClosed(Apply(s, acts[0]), acts[1..], t, id))
  }

  lemma {:induction false} LateIsHistory(s: State, acts: seq<Action>, t: State, id: string)
    requires Run(s, acts, t)
    ensures id in t.late <==> id in s.late || LoggedInClosed(s, acts, t, id)
    decreases |acts|
  {
    if acts != [] {
      LateIsHistory(Apply(s, acts[0]), acts[1..], t, id);
    }
  }

  /** A record names a closed invoker if and only if that one's login came after its close. */
  lemma RecordNamesClosedExactly(nodes: nat, acts: seq<Action>, t: State, c: string)
    requires Run(Init(nodes), acts, t) && c in t.online
    ensures t.online[c] in t.invokers
    ensures t.invokers[t.online[c]].phase == Closed <==> LoggedInClosed(Init(nodes), acts, t, t.online[c])
  {
    RunKeepsInv(Init(nodes), acts, t);
    LateIsHistory(Init(nodes), acts, t, t.online[c]);
    var q := RecordIsNewest(t, c);
  }

  lemma Prepend(s: State, a: Action, s': State, acts: seq<Action>, t: State) returns (longer: seq<Action>)
    requires Enabled(s, a) && Apply(s, a) == s' && Run(s', acts, t)
    ensures longer == [a] + acts && Run(s, longer, t)
  {
    longer := [a] + acts;
    assert longer[1..] == acts;
  }

  /** Steps of a cluster with one node, by the contents of its queue. */
  lemma PrependLogin(s: State, id: string, q: seq<Event>, s': State, acts: seq<Action>, t: State)
    returns (longer: seq<Action>)
    requires s.queues == [q] && id in s.invokers && Run(s', acts, t)
    requires s' == LoginStep(s, id).(queues := [q + [Put(RecordOf(s.online, s.invokers[id].client), id)]])
    ensures longer == [Login(id)] + acts && Run(s, longer, t)
  {
    assert LoginStep(s, id).queues == s'.queues;
    longer := Prepend(s, Login(id), s', acts, t);
  }

  lemma PrependWatch(s: State, e: Event, q: seq<Event>, s': State, acts: seq<Action>, t: State)
    returns (longer: seq<Action>)
    requires s.queues == [[e] + q] && Run(s', acts, t)
    requires s' == WatchStep(s, 0).(queues := [q])
    ensures longer == [Watch(0)] + acts && Run(s, longer, t)
  {
    assert ([e] + q)[1..] == q;
    assert WatchStep(s, 0).queues == s'.queues;
    longer := Prepend(s, Watch(0), s', acts, t);
  }

  lemma PrependDelete(s: State, id: string, q: seq<Event>, s': State, acts: seq<Action>, t: State)
    returns (longer: seq<Action>)
    requires s.queues == [q] && Enabled(s, DeleteRecord(id)) && s.invokers[id].client in s.online && Run(s', acts, t)
    requires s' == DeleteStep(s, id).(queues := [q + [Deleted]])
    ensures longer == [DeleteRecord(id)] + acts && Run(s, longer, t)
  {
    assert DeleteStep(s, id).queues == s'.queues;
    longer := Prepend(s, DeleteRecord(id), s', acts, t);
  }

  function Pair(c: string, i: string, pi: Phase, j: string, pj: Phase): map<string, Invoker> {
    map[i := Invoker(0, c, pi), j := Invoker(0, c, pj)]
  }

  /**
   A run in which the login of a closed invoker j gets the live, recorded session
   i kicked: the client is left without a session, and the record names j.
   */
  lemma LateLoginTakesSession(c: string, i: string, j: string) returns (acts: seq<Action>, t: State)
    requires i != j
    ensures Run(Init(1), acts, t) && t.queues == [[]]
    ensures t.invokers == Pair(c, i, Open, j, Closed) && t.online == map[c := j] && t.kicked == {i}
  {
    var first := Put(None, i);
    var second := Put(Some(i), j);
    var s4 := State(Pair(c, i, Open, j, Closed), map[c := i], [[first]], {}, [i], {}, {});
    var s5 := State(Pair(c, i, Open, j, Closed), map[c := j], [[first, second]], {}, [i, j], {j}, {});
    var s6 := s5.(queues := [[second]]);
    t := s5.(queues := [[]], kicked := {i});
    assert [second] == [second] + [] && [first, second] == [first] + [second];
    acts := PrependWatch(s6, second, [], t, [], t);
    acts := PrependWatch(s5, first, [second], s6, acts, t);
    acts := PrependLogin(s4, j, [first], s5, acts, t);
    acts := UntilClosed(c, i, j, s4, acts, t);
  }

  lemma UntilClosed(c: string, i: string, j: string, s4: State, rest: seq<Action>, t: State) returns (acts: seq<Action>)
    requires i != j && s4 == State(Pair(c, i, Open, j, Closed), map[c := i], [[Put(None, i)]], {}, [i], {}, {})
    requires Run(s4, rest, t)
    ensures Run(Init(1), acts, t)
  {
    var s1 := State(map[i := Invoker(0, c, Open)], map[c := i], [[Put(None, i)]], {}, [i], {}, {});
    var s2 := s4.(invokers := Pair(c, i, Open, j, Open));
    var s3 := s4.(invokers := Pair(c, i, Open, j, Left));
    acts := Prepend(s3, ReadRecord(j), s4, rest, t);
    acts := Prepend(s2, Leave(j), s3, acts, t);
    acts := Prepend(s1, Connect(j, 0, c), s2, acts, t);
    acts := OneLogin(c, i, s1, acts, t);
  }

  // ---------- closing: the read of the record and its delete ----------

  /** A login by an invoker of client c, or the delete of its record. */
  ghost predicate Touches(t: State, a: Action, c: string) {
    (a.Login? || a.DeleteRecord?) && a.id in t.invokers && t.invokers[a.id].client == c
  }

  /** Step n is the last one of the run that touches the record of client c. */
  ghost predicate LastTouch(t: State, acts: seq<Action>, c: string, n: nat) {
    n < |acts| && Touches(t, acts[n], c) && forall k :: n < k < |acts| ==> !Touches(t, acts[k], c)
  }

  ghost predicate Untouched(t: State, acts: seq<Action>, c: string) {
    forall n :: 0 <= n < |acts| ==> !Touches(t, acts[n], c)
  }

  lemma {:induction false} ClientsStay(s: State, acts: seq<Action>, t: State)
    requires Run(s, acts, t)
    ensures forall id :: id in s.invokers ==> id in t.invokers && t.invokers[id].client == s.invokers[id].client
    decreases |acts|
  {
    if acts != [] {
      ClientsStay(Apply(s, acts[0]), acts[1..], t);
    }
  }

  lemma StepTouches(s: State, a: Action, t: State, c: string)
    requires Enabled(s, a)
    requires forall id :: id in s.invokers ==> id in t.invokers && t.invokers[id].client == s.invokers[id].client
    ensures RecordOf(Apply(s, a).online, c) ==
      if !Touches(t, a, c) then RecordOf(s.online, c) else if a.Login? then Some(a.id) else None
  {
  }

  /** The record of a client is what the last step that touched it left, and as before if there was none. */
  lemma {:induction false} RecordFollowsLastTouch(s: State, acts: seq<Action>, t: State, c: string)
    requires Run(s, acts, t)
    ensures Untouched(t, acts, c) ==> RecordOf(t.online, c) == RecordOf(s.online, c)
    ensures forall n: nat :: LastTouch(t, acts, c, n) ==>
      RecordOf(t.online, c) == if acts[n].Login? then Some(acts[n].id) else None
    decreases |acts|
  {
    if acts != [] {
      var s1 := Apply(s, acts[0]);
      ClientsStay(s, acts, t);
      StepTouches(s, acts[0], t, c);
      RecordFollowsLastTouch(s1, acts[1..], t, c);
      if Untouched(t, acts, c) {
        assert forall n :: 0 <= n < |acts[1..]| ==> acts[1..][n] == acts[n + 1];
      }
      forall n: nat | LastTouch(t, acts, c, n)
        ensures RecordOf(t.online, c) == if acts[n].Login? then Some(acts[n].id) else None
      {
        if n == 0 {
          assert forall k :: 0 <= k < |acts[1..]| ==> acts[1..][k] == acts[k + 1];
          assert Untouched(t, acts[1..], c);
        } else {
          assert LastTouch(t, acts[1..], c, n - 1);
        }
      }
    }
  }

  lemma {:induction false} SomeLastTouch(t: State, acts: seq<Action>, c: string) returns (n: nat)
    requires !Untouched(t, acts, c)
    ensures LastTouch(t, acts, c, n)
  {
    n := |acts| - 1;
    if !Touches(t, acts[n], c) {
      n := SomeLastTouch(t, acts[..n], c);
    }
  }

  /**
   OnCloseClient has read the record and found its own id. What its delete then
   hits, after any steps of anybody, is still its own record if and only if in
   between nobody of its client has touched the record, or its own login was the
   last to do so. It hits the record of another invoker if and only if the last
   touch was that one's login.
   */
  lemma DeleteHitsOwnRecord(s: State, acts: seq<Action>, t: State, id: string, c: string)
    requires Run(s, acts, t) && RecordOf(s.online, c) == Some(id)
    ensures RecordOf(t.online, c) == Some(id) <==>
      Untouched(t, acts, c) || exists n: nat :: LastTouch(t, acts, c, n) && acts[n] == Login(id)
    ensures forall x :: x != id ==>
      (RecordOf(t.online, c) == Some(x) <==> exists n: nat :: LastTouch(t, acts, c, n) && acts[n] == Login(x))
  {
    RecordFollowsLastTouch(s, acts, t, c);
    if !Untouched(t, acts, c) {
      var n := SomeLastTouch(t, acts, c);
    }
  }

  /** No login falls between the read and the delete of a close of the same client. */
  ghost predicate UndisturbedCloses(s: State, acts: seq<Action>, t: State)
    requires Run(s, acts, t)
    decreases |acts|
  {
    acts == [] ||
    (&& (acts[0].Login? ==> forall j :: j in s.invokers && s.invokers[j].phase == Found && j != acts[0].id ==>
          s.invokers[j].client != s.invokers[acts[0].id].client)
     && UndisturbedCloses(Apply(s, acts[0]), acts[1..], t))
  }

  ghost predicate FoundOwn(s: State) {
    forall j :: j in s.invokers && s.invokers[j].phase == Found ==>
      RecordOf(s.online, s.invokers[j].client) in {Some(j), None}
  }

  lemma {:induction false} NobodyRobbed(s: State, acts: seq<Action>, t: State)
    requires Inv(s) && FoundOwn(s) && s.robbed == {} && Run(s, acts, t) && UndisturbedCloses(s, acts, t)
    ensures t.robbed == {}
    decreases |acts|
  {
    if acts != [] {
      ActionKeeps(s, acts[0]);
      NobodyRobbed(Apply(s, acts[0]), acts[1..], t);
    }
  }

  /** Then no close ever removes another invoker's record: every session is recorded, kicked or about to be kicked. */
  lemma CloseSparesOthers(nodes: nat, acts: seq<Action>, t: State)
    requires Run(Init(nodes), acts, t) && UndisturbedCloses(Init(nodes), acts, t)
    ensures t.robbed == {}
    ensures forall id :: OnSession(t, id) ==>
      RecordOf(t.online, t.invokers[id].client) == Some(id) || id in t.kicked
      || exists n: nat :: Queued(t, id, t.invokers[id].node, n)
  {
    NobodyRobbed(Init(nodes), acts, t);
    SingleSession(nodes, acts, t);
    forall id | OnSession(t, id)
      ensures RecordOf(t.online, t.invokers[id].client) == Some(id) || id in t.kicked
        || exists n: nat :: Queued(t, id, t.invokers[id].node, n)
    {
      assert Accounted(t, id);
    }
  }

  /** Invoker i has closed and taken the record of j with it. */
  function Robbed(c: string, i: string, j: string): State {
    State(Pair(c, i, Closed, j, Open), map[], [[Put(None, i), Put(Some(i), j), Deleted]], {}, [i, j], {}, {j})
  }

  function Three(c: string, i: string, j: string, k: string): map<string, Invoker> {
    map[i := Invoker(0, c, Closed), j := Invoker(0, c, Open), k := Invoker(0, c, Open)]
  }

  /**
   A run in which the late delete of invoker i takes the record of the newer
   session j. The next login k finds no record, so nobody ever kicks j: with all
   events handled the client has two open sessions.
   */
  lemma LateDeleteLosesSession(c: string, i: string, j: string, k: string) returns (acts: seq<Action>, t: State)
    requires i != j && j != k && i != k
    ensures Run(Init(1), acts, t) && t.queues == [[]] && t.kicked == {} && t.robbed == {j}
    ensures t.invokers == Three(c, i, j, k) && OnSession(t, j) && OnSession(t, k) && t.online == map[c := k]
  {
    var s7 := Robbed(c, i, j);
    acts, t := TwoSessions(c, i, j, k, s7);
    acts := UntilRobbed(c, i, j, s7, acts, t);
  }

  lemma TwoSessions(c: string, i: string, j: string, k: string, s7: State) returns (acts: seq<Action>, t: State)
    requires i != j && j != k && i != k
    requires s7 == Robbed(c, i, j)
    ensures Run(s7, acts, t)
    ensures t == State(Three(c, i, j, k), map[c := k], [[]], {}, [i, j, k], {}, {j})
  {
    var q := [Put(None, i), Put(Some(i), j), Deleted];
    var s8 := s7.(invokers := Three(c, i, j, k));
    var s9 := s8.(online := map[c := k], logins := [i, j, k], queues := [q + [Put(None, k)]]);
    t := s9.(queues := [[]]);
    var w1 := s9.(queues := [[Put(Some(i), j), Deleted, Put(None, k)]]);
    var w2 := s9.(queues := [[Deleted, Put(None, k)]]);
    var w3 := s9.(queues := [[Put(None, k)]]);
    assert [Put(None, k)] == [Put(None, k)] + [] && [Deleted, Put(None, k)] == [Deleted] + [Put(None, k)];
    assert [Put(Some(i), j), Deleted, Put(None, k)] == [Put(Some(i), j)] + [Deleted, Put(None, k)];
    assert q + [Put(None, k)] == [Put(None, i)] + [Put(Some(i), j), Deleted, Put(None, k)];
    acts := PrependWatch(w3, Put(None, k), [], t, [], t);
    acts := PrependWatch(w2, Deleted, [Put(None, k)], w3, acts, t);
    acts := PrependWatch(w1, Put(Some(i), j), [Deleted, Put(None, k)], w2, acts, t);
    acts := PrependWatch(s9, Put(None, i), [Put(Some(i), j), Deleted, Put(None, k)], w1, acts, t);
    acts := PrependLogin(s8, k, q, s9, acts, t);
    acts := Prepend(s7, Connect(k, 0, c), s8, acts, t);
  }

  lemma UntilRobbed(c: string, i: string, j: string, s7: State, rest: seq<Action>, t: State) returns (acts: seq<Action>)
    requires i != j && Run(s7, rest, t)
    requires s7 == Robbed(c, i, j)
    ensures Run(Init(1), acts, t)
  {
    var s2 := State(map[i := Invoker(0, c, Open)], map[c := i], [[Put(None, i)]], {}, [i], {}, {});
    var s3 := s2.(invokers := Pair(c, i, Open, j, Open));
    var s4 := s2.(invokers := Pair(c, i, Left, j, Open));
    var s5 := s2.(invokers := Pair(c, i, Found, j, Open));
    acts := AcrossTheRead(c, i, j, s5, s7, rest, t);
    acts := Prepend(s4, ReadRecord(i), s5, acts, t);
    acts := Prepend(s3, Leave(i), s4, acts, t);
    acts := Prepend(s2, Connect(j, 0, c), s3, acts, t);
    acts := OneLogin(c, i, s2, acts, t);
  }

  /** The login of j falls between the read and the delete. */
  lemma AcrossTheRead(c: string, i: string, j: string, s5: State, s7: State, rest: seq<Action>, t: State)
    returns (acts: seq<Action>)
    requires i != j && Run(s7, rest, t)
    requires s5 == State(Pair(c, i, Found, j, Open), map[c := i], [[Put(None, i)]], {}, [i], {}, {})
    requires s7 == Robbed(c, i, j)
    ensures Run(s5, acts, t)
  {
    var q := [Put(None, i)];
    var s6 := State(Pair(c, i, Found, j, Open), map[c := j], [q + [Put(Some(i), j)]], {}, [i, j], {}, {});
    assert q + [Put(Some(i), j)] + [Deleted] == [Put(None, i), Put(Some(i), j), Deleted];
    assert map[c := j] - {c} == map[] && {} + ({j} - {i}) == {j};
    acts := PrependDelete(s6, i, q + [Put(Some(i), j)], s7, rest, t);
    acts := PrependLogin(s5, j, q, s6, acts, t);
  }

  lemma OneLogin(c: string, i: string, s2: State, rest: seq<Action>, t: State) returns (acts: seq<Action>)
    requires s2 == State(map[i := Invoker(0, c, Open)], map[c := i], [[Put(None, i)]], {}, [i], {}, {})
    requires Run(s2, rest, t)
    ensures Run(Init(1), acts, t)
  {
    var s1 := State(map[i := Invoker(0, c, Open)], map[], [[]], {}, [], {}, {});
    var e := Put(None, i);
    assert [] + [e] == [e];
    acts := PrependLogin(s1, i, [], s2, rest, t);
    acts := Prepend(Init(1), Connect(i, 0, c), s1, acts, t);
  }

  // ---------- a second login of the same invoker ----------

  /** The node handles all the events in its queue. */
  function HandleAll(s: State, node: nat): State
    requires node < |s.queues|
    decreases |s.queues[node]|
  {
    if s.queues[node] == [] then s else HandleAll(WatchStep(s, node), node)
  }

  /** Those of its open invokers are kicked that some queued event names as the previous one, and nobody else. */
  lemma {:induction false} HandleAllKicks(s: State, node: nat, id: string)
    requires node < |s.queues|
    ensures id in HandleAll(s, node).kicked <==>
      || id in s.kicked
      || (id in s.invokers && s.invokers[id].node == node && s.invokers[id].phase == Open
          && exists n: nat :: Queued(s, id, node, n))
    decreases |s.queues[node]|
  {
    if s.queues[node] != [] {
      var t := WatchStep(s, node);
      HandleAllKicks(t, node, id);
      if n: nat :| Queued(s, id, node, n) {
        assert n > 0 ==> Queued(t, id, node, n - 1);
      }
      if n: nat :| Queued(t, id, node, n) {
        assert Queued(s, id, node, n + 1);
      }
      assert id in t.kicked && id !in s.kicked ==> Queued(s, id, node, 0);
    }
  }

  /**
   An invoker logs in, again or for the first time, and its node handles its
   events: the invoker gets kicked itself if and only if it is open and the
   record already names it (or an event still queued does), or it was kicked
   before.
   */
  lemma SecondLoginKicksItself(s: State, id: string)
    requires id in s.invokers && s.invokers[id].node < |s.queues|
    ensures var node := s.invokers[id].node;
      id in HandleAll(LoginStep(s, id), node).kicked <==>
        || id in s.kicked
        || (s.invokers[id].phase == Open
            && (RecordOf(s.online, s.invokers[id].client) == Some(id) || exists n: nat :: Queued(s, id, node, n)))
  {
    var node := s.invokers[id].node;
    var t := LoginStep(s, id);
    HandleAllKicks(t, node, id);
    if n: nat :| Queued(s, id, node, n) {
      assert Queued(t, id, node, n);
    }
    if RecordOf(s.online, s.invokers[id].client) == Some(id) {
      assert Queued(t, id, node, |s.queues[node]|);
    }
    if n: nat :| Queued(t, id, node, n) {
      assert t.queues[node] == s.queues[node] + [Put(RecordOf(s.online, s.invokers[id].client), id)];
      assert n < |s.queues[node]| ==> Queued(s, id, node, n);
    }
  }

  /** A run in which the only invoker of the whole cluster gets kicked, for logging in twice. */
  lemma SecondLoginRun(c: string, i: string) returns (acts: seq<Action>, t: State)
    ensures Run(Init(1), acts, t) && t.invokers == map[i := Invoker(0, c, Open)]
    ensures i in t.kicked && RecordOf(t.online, c) == Some(i) && t.queues == [[]]
  {
    var s2 := State(map[i := Invoker(0, c, Open)], map[c := i], [[Put(None, i)]], {}, [i], {}, {});
    var s3 := s2.(queues := [[Put(None, i), Put(Some(i), i)]], logins := [i, i]);
    var s4 := s3.(queues := [[Put(Some(i), i)]]);
    t := s3.(queues := [[]], kicked := {i});
    assert [Put(Some(i), i)] == [Put(Some(i), i)] + [];
    assert [Put(None, i), Put(Some(i), i)] == [Put(None, i)] + [Put(Some(i), i)];
    acts := PrependWatch(s4, Put(Some(i), i), [], t, [], t);
    acts := PrependWatch(s3, Put(None, i), [Put(Some(i), i)], s4, acts, t);
    acts := PrependLogin(s2, i, [Put(None, i)], s3, acts, t);
    acts := OneLogin(c, i, s2, acts, t);
  }

  // ---------- two nodes ----------

  lemma {:induction false} RunPush(s: State, acts: seq<Action>, t: State, a: Action)
    requires Run(s, acts, t) && Enabled(t, a)
    ensures Run(s, acts + [a], Apply(t, a))
    decreases |acts|
  {
    if acts == [] {
      assert [a][1..] == [];
    } else {
      RunPush(Apply(s, acts[0]), acts[1..], t, a);
      assert (acts + [a])[1..] == acts[1..] + [a];
    }
  }

  lemma Push(s: State, acts: seq<Action>, t: State, a: Action, u: State) returns (more: seq<Action>)
    requires Run(s, acts, t) && Enabled(t, a) && Apply(t, a) == u
    ensures more == acts + [a] && Run(s, more, u)
  {
    RunPush(s, acts, t, a);
    more := acts + [a];
  }

  function TwoNodes(c: string, i: string, j: string, queues: seq<seq<Event>>, kicked: set<string>): State {
    State(map[i := Invoker(0, c, Open), j := Invoker(1, c, Open)], map[c := j], queues, kicked, [i, j], {}, {})
  }

  lemma MoveRun(c: string, i: string, j: string) returns (acts: seq<Action>)
    requires i != j
    ensures acts == [Connect(i, 0, c), Connect(j, 1, c), Login(i), Login(j)]
    ensures Run(Init(2), acts,
                TwoNodes(c, i, j, [[Put(None, i), Put(Some(i), j)], [Put(None, i), Put(Some(i), j)]], {}))
  {
    var first, both := Put(None, i), [Put(None, i), Put(Some(i), j)];
    var s0 := State(map[], map[], [[], []], {}, [], {}, {});
    var s1 := s0.(invokers := map[i := Invoker(0, c, Open)]);
    var s2 := s0.(invokers := map[i := Invoker(0, c, Open), j := Invoker(1, c, Open)]);
    var s3 := s2.(online := map[c := i], queues := [[first], [first]], logins := [i]);
    assert Init(2) == s0;
    acts := Push(s0, [], s0, Connect(i, 0, c), s1);
    acts := Push(s0, acts, s1, Connect(j, 1, c), s2);
    assert [] + [first] == [first] && [first] + [Put(Some(i), j)] == both;
    assert Notify([[], []], first) == [[first], [first]];
    acts := Push(s0, acts, s2, Login(i), s3);
    assert Notify([[first], [first]], Put(Some(i), j)) == [both, both];
    acts := Push(s0, acts, s3, Login(j), TwoNodes(c, i, j, [both, both], {}));
  }

  /** Of two nodes that hear of a login elsewhere, the one that has the previous session kicks it. */
  lemma KickRun(c: string, i: string, j: string) returns (acts: seq<Action>)
    requires i != j
    ensures acts == [Watch(1), Watch(0), Watch(1), Watch(0)]
    ensures Run(TwoNodes(c, i, j, [[Put(None, i), Put(Some(i), j)], [Put(None, i), Put(Some(i), j)]], {}), acts,
                TwoNodes(c, i, j, [[], []], {i}))
  {
    var second, both := [Put(Some(i), j)], [Put(None, i), Put(Some(i), j)];
    var s := TwoNodes(c, i, j, [both, both], {});
    assert both[1..] == second && second[1..] == [];
    acts := Push(s, [], s, Watch(1), s.(queues := [both, second]));
    acts := Push(s, acts, s.(queues := [both, second]), Watch(0), s.(queues := [second, second]));
    acts := Push(s, acts, s.(queues := [second, second]), Watch(1), s.(queues := [second, []]));
    acts := Push(s, acts, s.(queues := [second, []]), Watch(0), TwoNodes(c, i, j, [[], []], {i}));
  }

  // ---------- the handlers ----------

  datatype ClientRec = ClientRec(clientId: string, token: string)

  datatype LoginResult = LoginOk(rec: ClientRec) | UnknownTerminal | BadRequest | BadCredentials

  /** The shared store together with the routes of all nodes, as the handlers of node.go see them. */
  class Cluster {
    var records: map<string, ClientRec>
    var invokers: map<string, Invoker>
    var online: map<string, string>
    var queues: seq<seq<Event>>
    var kicked: set<string>
    /** Invokers that are closed shortly after a failed login. */
    var closing: set<string>
    ghost var logins: seq<string>
    ghost var late: set<string>
    ghost var robbed: set<string>

    ghost function Model(): State
      reads this
    {
      State(invokers, online, queues, kicked, logins, late, robbed)
    }

    constructor (nodes: nat, records: map<string, ClientRec>)
      ensures Model() == Init(nodes) && this.records == records && closing == {}
    {
      this.records := records;
      invokers, online, queues, kicked, closing := map[], map[], seq(nodes, _ => []), {}, {};
      logins, late, robbed := [], {}, {};
    }

    method PutOnlineClient(client: string, id: string)
      modifies this`online, this`queues
      ensures online == old(online)[client := id]
      ensures queues == Notify(old(queues), Put(RecordOf(old(online), client), id))
    {
      queues := Notify(queues, Put(RecordOf(online, client), id));
      online := online[client := id];
    }

    /** Only a request that carries the stored id and token logs in; any other answer closes the invoker. */
    method OnInvokerClientLogin(id: string, request: Option<ClientRec>) returns (result: LoginResult)
      requires id in invokers
      modifies this
      ensures records == old(records)
      ensures result.LoginOk? <==>
        var client := old(invokers)[id].client;
        client in records && request == Some(records[client])
      ensures result.LoginOk? ==> result.rec == records[old(invokers)[id].client]
      ensures result == UnknownTerminal <==> old(invokers)[id].client !in records
      ensures result == BadRequest <==> old(invokers)[id].client in records && request == None
      ensures result.LoginOk? ==>
        && online == old(online)[old(invokers)[id].client := id] && invokers == old(invokers) && kicked == old(kicked)
        && |queues| == |old(queues)| && forall n :: 0 <= n < |queues| ==>
          queues[n] == old(queues)[n] + [Put(RecordOf(old(online), old(invokers)[id].client), id)]
      ensures result.LoginOk? ==> Model() == LoginStep(old(Model()), id) && closing == old(closing)
      ensures !result.LoginOk? ==> Model() == old(Model()) && closing == old(closing) + {id}
    {
      var terminalId := invokers[id].client;
      if terminalId !in records {
        closing := closing + {id};
        return UnknownTerminal;
      }
      if request.None? {
        closing := closing + {id};
        return BadRequest;
      }
      var clientRec := records[terminalId];
      var loginReq := request.value;
      if loginReq.clientId != clientRec.clientId || loginReq.token != clientRec.token {
        closing := closing + {id};
        return BadCredentials;
      }
      PutOnlineClient(terminalId, id);
      logins := logins + [id];
      late := if invokers[id].phase == Closed then late + {id} else late;
      robbed := robbed - {id};
      return LoginOk(clientRec);
    }

    method OnWatcherClientOnline(node: nat)
      requires node < |queues| && queues[node] != []
      modifies this`queues, this`kicked
      ensures Model() == WatchStep(old(Model()), node)
    {
      var event := queues[node][0];
      queues := queues[node := queues[node][1..]];
      if event.Put? && event.prev.Some? {
        var p := event.prev.value;
        if p in invokers && invokers[p].node == node && invokers[p].phase == Open {
          kicked := kicked + {p};
        }
      }
    }

    method RemoveInvoker(id: string)
      requires id in invokers && invokers[id].phase == Open
      modifies this`invokers
      ensures Model() == InPhase(old(Model()), id, Left)
    {
      invokers := invokers[id := invokers[id].(phase := Left)];
    }

    /** The first half of OnCloseClient: is the record still this invoker's? */
    method ReadOnlineClient(id: string) returns (own: bool)
      requires id in invokers && invokers[id].phase == Left
      modifies this`invokers
      ensures Model() == ReadStep(old(Model()), id)
      ensures own <==> invokers[id].phase == Found
    {
      var terminalId := invokers[id].client;
      own := terminalId in online && online[terminalId] == id;
      invokers := invokers[id := invokers[id].(phase := if own then Found else Closed)];
    }

    /** The second half, whatever the record says by now. */
    method DeleteOnlineClient(id: string)
      requires id in invokers && invokers[id].phase == Found
      modifies this`invokers, this`online, this`queues, this`robbed
      ensures Model() == DeleteStep(old(Model()), id)
    {
      var terminalId := invokers[id].client;
      invokers := invokers[id := invokers[id].(phase := Closed)];
      if terminalId in online {
        robbed := robbed + ({online[terminalId]} - {id});
        online := map c | c in online && c != terminalId :: online[c];
        queues := Notify(queues, Deleted);
      }
    }

    /** Both halves without anything in between: the record goes if and only if it names this invoker. */
    method OnCloseClient(id: string)
      requires id in invokers && invokers[id].phase == Left
      modifies this`invokers, this`online, this`queues, this`robbed
      ensures invokers == old(invokers)[id := old(invokers)[id].(phase := Closed)] && robbed == old(robbed)
      ensures var c := old(invokers)[id].client;
        if RecordOf(old(online), c) == Some(id)
        then online == old(online) - {c} && queues == Notify(old(queues), Deleted)
        else online == old(online) && queues == old(queues)
    {
      var own := ReadOnlineClient(id);
      if own {
        DeleteOnlineClient(id);
      }
    }
  }
}
