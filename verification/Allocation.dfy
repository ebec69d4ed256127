/**
 Reserving tunnel numbers and domain names: a name is drawn at random and
 reserved by a create-if-absent transaction under a five-second lease; later the
 holder overwrites the reservation with a record that has no lease.
 */
module Allocation {
  import opened Prelude
  import opened Decimal

  /** Five seconds, in nanoseconds. */
  const TTL: int := 5_000_000_000

  const MIN_TUNNEL: nat := 10_000_000
  const MAX_TUNNEL_DRAW: nat := 99_999_999
  const MIN_DOMAIN: nat := 100_000
  const MAX_DOMAIN_DRAW: nat := 999_999

  /** What is being allocated: tunnel numbers, or subdomains of the given domain. */
  datatype Kind = Tunnels | Domains(domain: string)

  /** rand.Int63n stays below this bound. */
  function DrawBound(kind: Kind): nat {
    if kind.Tunnels? then MAX_TUNNEL_DRAW else MAX_DOMAIN_DRAW
  }

  function NumberOf(kind: Kind, draw: nat): nat {
    var low := if kind.Tunnels? then MIN_TUNNEL else MIN_DOMAIN;
    if draw < low then draw + low else draw
  }

  function NameOf(kind: Kind, draw: nat): string {
    match kind
    case Tunnels => Digits(NumberOf(kind, draw))
    case Domains(d) => "c" + Digits(NumberOf(kind, draw)) + "." + d
  }

  /** A draw at the lower bound or above is the number; a smaller one is moved up by the bound. */
  lemma NumberOfDraw(kind: Kind, draw: nat)
    ensures DrawBound(kind) == if kind.Tunnels? then 99_999_999 else 999_999
    ensures kind.Tunnels? ==> NumberOf(kind, draw) == if draw >= 10_000_000 then draw else draw + 10_000_000
    ensures kind.Domains? ==> NumberOf(kind, draw) == if draw >= 100_000 then draw else draw + 100_000
  {
  }

  /** Every number of the range can be drawn, and each of them by one draw or by two that differ by the lower bound. */
  lemma DrawsOfNumber(kind: Kind, n: nat, d1: nat, d2: nat)
    ensures (if kind.Tunnels? then 10_000_000 <= n <= 99_999_998 else 100_000 <= n <= 999_998) <==>
      exists draw: nat :: draw < DrawBound(kind) && NumberOf(kind, draw) == n
    ensures var low := if kind.Tunnels? then 10_000_000 else 100_000;
      NumberOf(kind, d1) == NumberOf(kind, d2) <==>
        d1 == d2 || (d1 < low && d2 == d1 + low) || (d2 < low && d1 == d2 + low)
  {
    assert NumberOf(kind, n) == n || (if kind.Tunnels? then n < 10_000_000 else n < 100_000);
  }

  /** Tunnel numbers lie in [10000000, 99999998] and always have eight digits; domain numbers lie in [100000, 999998]. */
  lemma DrawnNumbers(kind: Kind, draw: nat)
    requires draw < DrawBound(kind)
    ensures kind.Tunnels? ==> 10_000_000 <= NumberOf(kind, draw) <= 99_999_998 && |NameOf(kind, draw)| == 8
    ensures kind.Domains? ==> 100_000 <= NumberOf(kind, draw) <= 999_998
    ensures kind.Domains? ==> |NameOf(kind, draw)| == 8 + |kind.domain| && HasSuffix(NameOf(kind, draw), kind.domain)
    ensures |Digits(NumberOf(kind, draw))| == if kind.Tunnels? then 8 else 6
  {
    if kind.Tunnels? {
      assert Pow10(3) == 1_000 && Pow10(5) == 100_000;
      assert Pow10(7) == 10_000_000 && Pow10(8) == 100_000_000;
      DigitsLength(NumberOf(kind, draw), 7);
    } else {
      assert Pow10(3) == 1_000 && Pow10(5) == 100_000 && Pow10(6) == 1_000_000;
      DigitsLength(NumberOf(kind, draw), 5);
      var name := NameOf(kind, draw);
      assert name[|name| - |kind.domain|..] == kind.domain;
    }
  }

  /** A tunnel id is the number in decimal; a domain name is "c", the number in six digits, a dot and the domain. */
  lemma NameFormat(kind: Kind, draw: nat)
    requires draw < DrawBound(kind)
    ensures var name := NameOf(kind, draw); match kind
      case Tunnels => Value(name) == NumberOf(kind, draw) && forall c :: c in name ==> IsDigit(c)
      case Domains(d) =>
        && |name| == 8 + |d| && name[0] == 'c' && name[7] == '.' && name[8..] == d
        && Value(name[1..7]) == NumberOf(kind, draw) && forall c :: c in name[1..7] ==> IsDigit(c)
  {
    var n := NumberOf(kind, draw);
    ValueOfDigits(n);
    DrawnNumbers(kind, draw);
    if kind.Domains? {
      assert NameOf(kind, draw)[1..7] == Digits(n);
      assert NameOf(kind, draw)[8..] == kind.domain;
    }
  }

  /** Two draws give the same name only if they give the same number. */
  lemma NamesAreInjective(kind: Kind, d1: nat, d2: nat)
    requires d1 < DrawBound(kind) && d2 < DrawBound(kind) && NameOf(kind, d1) == NameOf(kind, d2)
    ensures NumberOf(kind, d1) == NumberOf(kind, d2)
  {
    NameFormat(kind, d1);
    NameFormat(kind, d2);
  }

  // ---------- user-chosen hosts ----------

  datatype HostChoice = Rejected | Generate | Use(host: string)

  /** The http and https branch of httpHandler_ListenAdd. */
  function ChooseHost(domain: string, listenHost: string): HostChoice {
    if listenHost != "" && HasSuffix(listenHost, domain) then Rejected
    else if listenHost == "" then Generate
    else Use(listenHost)
  }

  /**
   No host: one is generated. A host that ends in the domain, the domain itself
   included, is refused. Any other host is used as it is.
   */
  lemma HostChoices(domain: string, listenHost: string)
    ensures ChooseHost(domain, listenHost) == Generate <==> listenHost == ""
    ensures ChooseHost(domain, listenHost) == Rejected <==> listenHost != "" && exists p :: listenHost == p + domain
    ensures listenHost != "" && (forall p :: listenHost != p + domain) ==> ChooseHost(domain, listenHost) == Use(listenHost)
  {
    SuffixExactly(listenHost, domain);
  }

  lemma ChosenHostIsNotGenerated(domain: string, listenHost: string, draw: nat)
    requires draw < DrawBound(Domains(domain)) && ChooseHost(domain, listenHost) == Use(listenHost)
    ensures listenHost != NameOf(Domains(domain), draw)
  {
    DrawnNumbers(Domains(domain), draw);
  }

  // ---------- the cluster ----------

  datatype Slot = Reserved(owner: nat, leaseEnd: int) | Record(owner: nat) | UserRecord

  /** One allocation in progress somewhere in the cluster. */
  datatype Allocator =
    | Idle
    | Granted(leaseEnd: int)             // CreateLease done, transaction to come
    | Holding(name: string, leaseEnd: int)   // reserved
    | Named(name: string, leaseEnd: int)     // the client record with this name is written
    | Done(name: string)                 // the reservation is overwritten

  datatype State = State(now: int, kind: Kind, store: map<string, Slot>, allocators: seq<Allocator>)

  datatype Action =
    | Grant(a: nat) | Txn(a: nat, draw: nat) | TxnError(a: nat)
    | WriteOwn(a: nat) | Overwrite(a: nat)
    | LeaseEnds(name: string) | Tick(d: nat)
    | UserPut(host: string)

  ghost predicate Enabled(s: State, act: Action) {
    match act
    case Grant(a) => a < |s.allocators| && s.allocators[a].Idle?
    case Txn(a, draw) => a < |s.allocators| && s.allocators[a].Granted? && draw < DrawBound(s.kind)
    case TxnError(a) => a < |s.allocators| && s.allocators[a].Granted?
    case WriteOwn(a) => a < |s.allocators| && s.allocators[a].Holding?
    case Overwrite(a) => a < |s.allocators| && s.allocators[a].Named?
    case LeaseEnds(name) => name in s.store && s.store[name].Reserved? && s.store[name].leaseEnd <= s.now
    case Tick(_) => true
    case UserPut(host) => s.kind.Domains? && ChooseHost(s.kind.domain, host) == Use(host)
  }

  function With(s: State, a: nat, p: Allocator): State
    requires a < |s.allocators|
  {
    s.(allocators := s.allocators[a := p])
  }

  /** lock: create the key under the lease unless it exists. */
  function Lock(store: map<string, Slot>, name: string, owner: nat, leaseEnd: int): map<string, Slot> {
    if name in store then store else store[name := Reserved(owner, leaseEnd)]
  }

  function Apply(s: State, act: Action): State
    requires Enabled(s, act)
  {
    match act
    case Grant(a) => With(s, a, Granted(s.now + TTL))
    case Txn(a, draw) =>
      var name := NameOf(s.kind, draw);
      var end := s.allocators[a].leaseEnd;
      With(s, a, if name in s.store then Idle else Holding(name, end)).(store := Lock(s.store, name, a, end))
    case TxnError(a) => With(s, a, Idle)
    case WriteOwn(a) => With(s, a, Named(s.allocators[a].name, s.allocators[a].leaseEnd))
    case Overwrite(a) =>
      With(s, a, Done(s.allocators[a].name)).(store := s.store[s.allocators[a].name := Record(a)])
    case LeaseEnds(name) => s.(store := s.store - {name})
    case Tick(d) => s.(now := s.now + d)
    case UserPut(host) => s.(store := s.store[host := UserRecord])
  }

  ghost predicate Run(s: State, acts: seq<Action>, t: State)
    decreases |acts|
  {
    if acts == [] then s == t else Enabled(s, acts[0]) && Run(Apply(s, acts[0]), acts[1..], t)
  }

  function Init(now: int, kind: Kind, n: nat): State {
    State(now, kind, map[], seq(n, _ => Idle))
  }

  /** Nobody who holds an unwritten reservation has let its lease run out. */
  ghost predicate InTime(s: State) {
    forall a :: 0 <= a < |s.allocators| && (s.allocators[a].Holding? || s.allocators[a].Named?) ==>
      s.now < s.allocators[a].leaseEnd
  }

  ghost predicate InTimeRun(s: State, acts: seq<Action>, t: State)
    requires Run(s, acts, t)
    decreases |acts|
  {
    InTime(s) && (acts != [] ==> InTimeRun(Apply(s, acts[0]), acts[1..], t))
  }

  /** Each holder's name is a generated one and the store shows the holder as its owner. */
  ghost predicate Owns(s: State, a: nat)
    requires a < |s.allocators|
  {
    match s.allocators[a]
    case Holding(name, end) => name in s.store && s.store[name] == Reserved(a, end) && Generated(s.kind, name)
    case Named(name, end) => name in s.store && s.store[name] == Reserved(a, end) && Generated(s.kind, name)
    case Done(name) => name in s.store && s.store[name] == Record(a) && Generated(s.kind, name)
    case _ => true
  }

  ghost predicate Generated(kind: Kind, name: string) {
    exists draw: nat :: draw < DrawBound(kind) && name == NameOf(kind, draw)
  }

  ghost predicate Inv(s: State) {
    forall a: nat {:trigger Owns(s, a)} :: a < |s.allocators| ==> Owns(s, a)
  }

  lemma UserPutKeeps(s: State, host: string)
    requires Inv(s) && Enabled(s, UserPut(host))
    ensures Inv(Apply(s, UserPut(host)))
  {
    forall a: nat | a < |s.allocators| ensures Owns(Apply(s, UserPut(host)), a) {
      assert Owns(s, a);
      var p := s.allocators[a];
      if p.Holding? || p.Named? || p.Done? {
        var draw: nat :| draw < DrawBound(s.kind) && p.name == NameOf(s.kind, draw);
        ChosenHostIsNotGenerated(s.kind.domain, host, draw);
      }
    }
  }

  lemma ActionKeeps(s: State, act: Action)
    requires Inv(s) && InTime(s) && Enabled(s, act)
    ensures Inv(Apply(s, act))
  {
    if act.UserPut? {
      UserPutKeeps(s, act.host);
    } else {
      forall b: nat | b < |s.allocators| ensures Owns(Apply(s, act), b) {
        assert Owns(s, b);
        if act.Overwrite? {
          assert Owns(s, act.a);
        }
      }
    }
  }

  lemma {:induction false} RunKeepsInv(s: State, acts: seq<Action>, t: State)
    requires Inv(s) && Run(s, acts, t) && InTimeRun(s, acts, t)
    ensures Inv(t)
    decreases |acts|
  {
    if acts != [] {
      ActionKeeps(s, acts[0]);
      RunKeepsInv(Apply(s, acts[0]), acts[1..], t);
    }
  }

  predicate HasName(p: Allocator) {
    p.Holding? || p.Named? || p.Done?
  }

  // ---------- main results ----------

  /**
   As long as every holder overwrites its reservation before its lease ends, no
   two allocations anywhere in the cluster have the same name, and the record of
   each finished one is still in place, whatever hosts users choose.
   */
  lemma UniqueAllocation(now: int, kind: Kind, n: nat, acts: seq<Action>, t: State)
    requires Run(Init(now, kind, n), acts, t) && InTimeRun(Init(now, kind, n), acts, t)
    ensures forall a: nat, b: nat :: a < b < |t.allocators| && HasName(t.allocators[a]) && HasName(t.allocators[b]) ==>
      t.allocators[a].name != t.allocators[b].name
    ensures forall a: nat :: a < |t.allocators| && t.allocators[a].Done? ==>
      t.allocators[a].name in t.store && t.store[t.allocators[a].name] == Record(a)
  {
    RunKeepsInv(Init(now, kind, n), acts, t);
    forall a: nat, b: nat | a < b < |t.allocators| && HasName(t.allocators[a]) && HasName(t.allocators[b])
      ensures t.allocators[a].name != t.allocators[b].name
    {
      assert Owns(t, a) && Owns(t, b);
    }
    forall a: nat | a < |t.allocators| && t.allocators[a].Done?
      ensures t.allocators[a].name in t.store && t.store[t.allocators[a].name] == Record(a)
    {
      assert Owns(t, a);
    }
  }

  /** The name cannot be had: a reservation that has not ended yet, or a record. */
  ghost predicate Taken(s: State, name: string, leaseEnd: int) {
    name in s.store && (s.store[name].Reserved? ==> leaseEnd <= s.store[name].leaseEnd)
  }

  ghost predicate HoldsName(s: State, b: nat, name: string) {
    b < |s.allocators| && HasName(s.allocators[b]) && s.allocators[b].name == name
  }

  /** Before the lease ends the name stays taken, whatever anybody does. */
  lemma {:induction false} StaysTaken(s: State, acts: seq<Action>, t: State, b: nat, name: string, leaseEnd: int)
    requires Run(s, acts, t) && t.now < leaseEnd && Taken(s, name, leaseEnd) && !HoldsName(s, b, name)
    ensures s.now <= t.now && Taken(t, name, leaseEnd) && !HoldsName(t, b, name)
    decreases |acts|
  {
    if acts != [] {
      TimePasses(Apply(s, acts[0]), acts[1..], t);
      StaysTaken(Apply(s, acts[0]), acts[1..], t, b, name, leaseEnd);
    }
  }

  lemma {:induction false} TimePasses(s: State, acts: seq<Action>, t: State)
    requires Run(s, acts, t)
    ensures s.now <= t.now
    decreases |acts|
  {
    if acts != [] {
      TimePasses(Apply(s, acts[0]), acts[1..], t);
    }
  }

  /** A run up to moment end in which b gets the name. */
  ghost predicate GetsName(s: State, acts: seq<Action>, t: State, b: nat, name: string, end: int) {
    Run(s, acts, t) && t.now <= end && HoldsName(t, b, name)
  }

  /**
   The guard is sharp, for every owner a of a reservation and every allocator b
   that has no name yet: up to a moment b can get the very name that a holds if
   and only if a's lease has ended by then.
   */
  lemma LeaseGuardIsSharp(s: State, a: nat, b: nat, draw: nat, end: int)
    requires Inv(s) && a < |s.allocators| && b < |s.allocators| && s.now <= end
    requires s.allocators[a].Holding? || s.allocators[a].Named?
    requires draw < DrawBound(s.kind) && s.allocators[a].name == NameOf(s.kind, draw)
    requires s.allocators[b].Granted?
    ensures (exists acts, t :: GetsName(s, acts, t, b, s.allocators[a].name, end)) <==> s.allocators[a].leaseEnd <= end
  {
    var name, leaseEnd := s.allocators[a].name, s.allocators[a].leaseEnd;
    assert Owns(s, a);
    forall acts, t | GetsName(s, acts, t, b, name, end) ensures leaseEnd <= end {
      if t.now < leaseEnd {
        StaysTaken(s, acts, t, b, name, leaseEnd);
      }
    }
    if leaseEnd <= end {
      var later := Apply(s, Tick(end - s.now));
      var free := Apply(later, LeaseEnds(name));
      var t := Apply(free, Txn(b, draw));
      var acts := Prepend(free, Txn(b, draw), t, [], t);
      acts := Prepend(later, LeaseEnds(name), free, acts, t);
      acts := Prepend(s, Tick(end - s.now), later, acts, t);
      assert GetsName(s, acts, t, b, name, end);
    }
  }

  lemma Prepend(s: State, act: Action, s': State, acts: seq<Action>, t: State) returns (longer: seq<Action>)
    requires Enabled(s, act) && Apply(s, act) == s' && Run(s', acts, t)
    ensures Run(s, longer, t)
  {
    longer := [act] + acts;
    assert longer[1..] == acts;
  }

  function Pair(now: int, store: map<string, Slot>, p: Allocator, q: Allocator): State {
    State(now, Tunnels, store, [p, q])
  }

  /** A reachable state in which two client records share a tunnel number, because one lease ran out too early. */
  lemma LateOverwriteDuplicates() returns (acts: seq<Action>, t: State, name: string)
    ensures Run(Init(0, Tunnels, 2), acts, t) && t.allocators == [Done(name), Done(name)]
  {
    name := NameOf(Tunnels, 0);
    var expired := Pair(TTL, map[], Named(name, TTL), Idle);
    acts, t := SecondTakesOver(name, expired);
    var store := map[name := Reserved(0, TTL)];
    acts := Prepend(Pair(TTL, store, Named(name, TTL), Idle), LeaseEnds(name), expired, acts, t);
    acts := Prepend(Pair(0, store, Named(name, TTL), Idle), Tick(TTL),
                    Pair(TTL, store, Named(name, TTL), Idle), acts, t);
    acts := Prepend(Pair(0, store, Holding(name, TTL), Idle), WriteOwn(0),
                    Pair(0, store, Named(name, TTL), Idle), acts, t);
    acts := Prepend(Pair(0, map[], Granted(TTL), Idle), Txn(0, 0),
                    Pair(0, store, Holding(name, TTL), Idle), acts, t);
    assert Init(0, Tunnels, 2) == Pair(0, map[], Idle, Idle);
    acts := Prepend(Init(0, Tunnels, 2), Grant(0), Pair(0, map[], Granted(TTL), Idle), acts, t);
  }

  lemma SecondTakesOver(name: string, expired: State) returns (acts: seq<Action>, t: State)
    requires name == NameOf(Tunnels, 0) && expired == Pair(TTL, map[], Named(name, TTL), Idle)
    ensures Run(expired, acts, t) && t.allocators == [Done(name), Done(name)]
  {
    var end := TTL + TTL;
    var mine := map[name := Reserved(1, end)];
    t := Pair(TTL, map[name := Record(0)], Done(name), Done(name));
    acts := Prepend(Pair(TTL, map[name := Record(1)], Named(name, TTL), Done(name)), Overwrite(0), t, [], t);
    acts := Prepend(Pair(TTL, mine, Named(name, TTL), Named(name, end)), Overwrite(1),
                    Pair(TTL, map[name := Record(1)], Named(name, TTL), Done(name)), acts, t);
    acts := Prepend(Pair(TTL, mine, Named(name, TTL), Holding(name, end)), WriteOwn(1),
                    Pair(TTL, mine, Named(name, TTL), Named(name, end)), acts, t);
    acts := Prepend(Pair(TTL, map[], Named(name, TTL), Granted(end)), Txn(1, 0),
                    Pair(TTL, mine, Named(name, TTL), Holding(name, end)), acts, t);
    acts := Prepend(expired, Grant(1), Pair(TTL, map[], Named(name, TTL), Granted(end)), acts, t);
  }

  lemma {:induction false} RunPush(s: State, acts: seq<Action>, t: State, act: Action)
    requires Run(s, acts, t) && Enabled(t, act)
    ensures Run(s, acts + [act], Apply(t, act))
    decreases |acts|
  {
    if acts == [] {
      assert [act][1..] == [];
    } else {
      RunPush(Apply(s, acts[0]), acts[1..], t, act);
      assert (acts + [act])[1..] == acts[1..] + [act];
    }
  }

  lemma Push(s: State, acts: seq<Action>, t: State, act: Action, u: State) returns (more: seq<Action>)
    requires Run(s, acts, t) && Enabled(t, act) && Apply(t, act) == u
    ensures more == acts + [act] && Run(s, more, u)
  {
    RunPush(s, acts, t, act);
    more := acts + [act];
  }

  /** A failed transaction is tried again; whoever draws a taken name has to draw anew; the holder writes its records. */
  lemma AllocationRun(now: int, kind: Kind, draw: nat) returns (acts: seq<Action>)
    requires draw < DrawBound(kind)
    ensures acts == [Grant(0), TxnError(0), Grant(0), Txn(0, draw), Grant(1), Txn(1, draw), WriteOwn(0), Overwrite(0)]
    ensures Run(Init(now, kind, 2), acts,
                State(now, kind, map[NameOf(kind, draw) := Record(0)], [Done(NameOf(kind, draw)), Idle]))
  {
    var end, name := now + 5_000_000_000, NameOf(kind, draw);
    var mine := map[name := Reserved(0, end)];
    var s := State(now, kind, map[], [Idle, Idle]);
    var granted := s.(allocators := [Granted(end), Idle]);
    var held := State(now, kind, mine, [Holding(name, end), Idle]);
    var both := held.(allocators := [Holding(name, end), Granted(end)]);
    var named := held.(allocators := [Named(name, end), Idle]);
    assert Init(now, kind, 2) == s;
    acts := Push(s, [], s, Grant(0), granted);
    acts := Push(s, acts, granted, TxnError(0), s);
    acts := Push(s, acts, s, Grant(0), granted);
    acts := Push(s, acts, granted, Txn(0, draw), held);
    acts := Push(s, acts, held, Grant(1), both);
    acts := Push(s, acts, both, Txn(1, draw), held);
    acts := Push(s, acts, held, WriteOwn(0), named);
    acts := Push(s, acts, named, Overwrite(0),
                 State(now, kind, map[name := Record(0)], [Done(name), Idle]));
  }

  /** A user may put a record under any host that does not end in the domain, and under no other. */
  lemma UserPuts(s: State, host: string)
    ensures Enabled(s, UserPut(host)) <==> s.kind.Domains? && host != "" && forall p :: host != p + s.kind.domain
    ensures Enabled(s, UserPut(host)) ==> Apply(s, UserPut(host)) == s.(store := s.store[host := UserRecord])
  {
    if s.kind.Domains? {
      HostChoices(s.kind.domain, host);
    }
  }

  // ---------- the client of the store ----------

  /** The part of etcd.Client that reserves names; owner stands for the goroutine that allocates. */
  class EtcdClient {
    var store: map<string, Slot>
    const domain: string

    constructor (domain: string)
      ensures store == map[] && this.domain == domain
    {
      this.domain := domain;
      store := map[];
    }

    method LockKey(name: string, owner: nat, now: int) returns (succeeded: bool)
      modifies this
      ensures store == if name in old(store) then old(store) else old(store)[name := Reserved(owner, now + 5_000_000_000)]
      ensures store == Lock(old(store), name, owner, now + TTL)
      ensures succeeded <==> name !in old(store)
    {
      succeeded := name !in store;
      if succeeded {
        store := store[name := Reserved(owner, now + TTL)];
      }
    }

    /**
     GenerateTunnelId and GenerateDomainName: draws until a name is free. draws
     are the random numbers to come and the moments of the attempts; None means
     that all of them have been used up.
     */
    method Generate(kind: Kind, owner: nat, draws: seq<(nat, int)>) returns (name: Option<string>)
      requires kind == Tunnels || kind == Domains(domain)
      requires forall i :: 0 <= i < |draws| ==> draws[i].0 < DrawBound(kind)
      modifies this
      ensures name.None? ==> store == old(store)
      ensures name.None? ==> forall i :: 0 <= i < |draws| ==> NameOf(kind, draws[i].0) in old(store)
      ensures name.Some? ==> exists i ::
        && FirstFree(kind, draws, i, old(store)) && name.value == NameOf(kind, draws[i].0)
        && store == old(store)[name.value := Reserved(owner, draws[i].1 + 5_000_000_000)]
    {
      for i := 0 to |draws|
        invariant store == old(store)
        invariant forall j :: 0 <= j < i ==> NameOf(kind, draws[j].0) in old(store)
      {
        var tmpInt := draws[i].0;
        var low := if kind.Tunnels? then MIN_TUNNEL else MIN_DOMAIN;
        if tmpInt < low {
          tmpInt := tmpInt + low;
        }
        var candidate := if kind.Tunnels? then Digits(tmpInt) else "c" + Digits(tmpInt) + "." + domain;
        assert candidate == NameOf(kind, draws[i].0);
        var ok := LockKey(candidate, owner, draws[i].1);
        if ok {
          assert FirstFree(kind, draws, i, old(store));
          return Some(candidate);
        }
      }
      name := None;
    }
  }

  /** Draw i is the first whose name is not taken. */
  ghost predicate FirstFree(kind: Kind, draws: seq<(nat, int)>, i: int, store: map<string, Slot>) {
    && 0 <= i < |draws| && NameOf(kind, draws[i].0) !in store
    && forall j :: 0 <= j < i ==> NameOf(kind, draws[j].0) in store
  }
}
