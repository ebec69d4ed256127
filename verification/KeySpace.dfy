/**
 The flat key space of etcd and the listens kept in it: prefix scans over flat
 keys against one map of listen addresses per client.
 */
module KeySpace {
  import opened Prelude

  // ---------- the key formats of keys.go ----------

  const KEY_JWT := "/zhangyu/jwt/sign"
  const KEY_DOMAIN := "/zhangyu/domain/"
  const KEY_DOMAIN_NAME := "/zhangyu/domain/list/"
  const KEY_NODE := "/zhangyu/node/online/"
  const KEY_ONLINE := "/zhangyu/client/online/"
  const KEY_TUNNEL := "/zhangyu/client/tunnel/"
  const KEY_RECORD := "/zhangyu/client/record/"
  const KEY_LISTEN := "/zhangyu/client/listen/"
  const ARROW := "=>"

  function ListenKey(clientId: string, addr: string): string {
    KEY_LISTEN + clientId + ARROW + addr
  }

  function DomainKey(clientId: string, domain: string): string {
    KEY_DOMAIN + clientId + "/" + domain
  }

  /** A key of the client families: a family prefix and an id. */
  datatype Family = OnlineClients | ClientTunnels | ClientRecords | ClientListens

  function FamilyPrefix(f: Family): (p: string)
    ensures |p| == 23
  {
    match f
    case OnlineClients => KEY_ONLINE
    case ClientTunnels => KEY_TUNNEL
    case ClientRecords => KEY_RECORD
    case ClientListens => KEY_LISTEN
  }

  /** Keys of different families differ, and no scan of one family meets another. */
  lemma FamiliesAreDisjoint(f: Family, g: Family, x: string, y: string)
    ensures f != g ==> FamilyPrefix(f) + x != FamilyPrefix(g) + y
    ensures f != g ==> !(FamilyPrefix(f) + x <= FamilyPrefix(g) + y)
    ensures f == g && FamilyPrefix(f) + x == FamilyPrefix(g) + y ==> x == y
  {
    var p := FamilyPrefix(f);
    var q := FamilyPrefix(g);
    assert (p + x)[16] == p[16] && (q + y)[16] == q[16];
    if p + x == q + y {
      assert x == (p + x)[23..] && y == (q + y)[23..];
    }
  }

  /** Domain, node and signing keys lie outside the client families. */
  lemma ClientKeysAreApart(f: Family, x: string, y: string)
    ensures !(FamilyPrefix(f) + x <= KEY_DOMAIN + y) && !(FamilyPrefix(f) + x <= KEY_NODE + y)
    ensures !(FamilyPrefix(f) + x <= KEY_JWT)
    ensures !(KEY_DOMAIN + x <= FamilyPrefix(f) + y)
  {
    assert (FamilyPrefix(f) + x)[9] == 'c' && (FamilyPrefix(f) + y)[9] == 'c';
    assert (KEY_DOMAIN + y)[9] == 'd' && (KEY_DOMAIN + x)[9] == 'd' && (KEY_NODE + y)[9] == 'n' && KEY_JWT[9] == 'j';
  }

  /** The key of one id leads into the keys of the other: c, an arrow and more is d. */
  predicate Extends(d: string, c: string) {
    c + ARROW <= d
  }

  /** What the keys of two ids have in common is read off the ids alone. */
  predicate Apart(c: string, d: string) {
    c == d || !(Extends(d, c) || Extends(c, d))
  }

  lemma ExtendsByOne(c: string, d: string, addr: string)
    requires |d| == |c| + 1
    ensures !(c + ARROW <= d + ARROW + addr) && !(d + ARROW <= c + ARROW + addr)
  {
    var p := c + ARROW;
    var q := d + ARROW;
    assert p[|d|] == '>' && q[|d|] == '=';
    assert (q + addr)[|d|] == '=' && (p + addr)[|d|] == '>';
  }

  /** Without the family prefix: when the scan for c meets the key of d and addr. */
  lemma TailMeets(c: string, d: string, addr: string)
    ensures c + ARROW <= d + ARROW + addr <==>
      c == d || Extends(d, c) || (Extends(c, d) && c[|d| + 2..] + ARROW <= addr)
  {
    var p := c + ARROW;
    var k := d + ARROW + addr;
    if |c| == |d| {
      if p <= k {
        assert c == p[..|c|] == k[..|c|] == d;
      }
    } else if |c| == |d| + 1 {
      ExtendsByOne(d, c, addr);
    } else if |d| == |c| + 1 {
      ExtendsByOne(c, d, addr);
    } else if |d| > |c| {
      assert k[..|p|] == d[..|p|];
    } else {
      var q := d + ARROW;
      assert k == q + addr;
      if p <= k {
        assert q == k[..|q|] == p[..|q|] == c[..|q|];
      }
      if Extends(c, d) {
        assert c == q + c[|q|..];
        assert p == q + (c[|q|..] + ARROW);
        assert p[|q|..] == c[|q|..] + ARROW && k[|q|..] == addr;
        if p <= k {
          assert k[..|p|] == p;
          assert addr[..|p| - |q|] == k[|q|..|p|] == p[|q|..];
        }
        if c[|q|..] + ARROW <= addr {
          assert k[..|p|] == q + addr[..|p| - |q|];
        }
      }
    }
  }

  /**
   For any two ids: the scan for c meets the listen key of d and addr exactly if
   c is d, or one id is the other followed by an arrow (and, where c is the
   longer one, the address goes on like it).
   */
  lemma ListenScan(c: string, d: string, addr: string)
    ensures ListenKey(c, "") <= ListenKey(d, addr) <==>
      c == d || Extends(d, c) || (Extends(c, d) && c[|d| + 2..] + ARROW <= addr)
  {
    var p := ListenKey(c, "");
    var k := ListenKey(d, addr);
    var n := |KEY_LISTEN|;
    assert p == KEY_LISTEN + (c + ARROW) && k == KEY_LISTEN + (d + ARROW + addr);
    assert p[n..] == c + ARROW && k[n..] == d + ARROW + addr;
    TailMeets(c, d, addr);
    if p <= k {
      assert p[n..] == k[n..|p|];
    }
    if c + ARROW <= d + ARROW + addr {
      assert k[..|p|] == p;
    }
  }

  /** Listen keys of two ids can coincide if and only if the ids are the same or one is the other followed by an arrow. */
  lemma ListenKeyInjective(c: string, a: string, d: string, b: string)
    ensures ListenKey(c, a) == ListenKey(d, b) <==>
      || (c == d && a == b)
      || (Extends(d, c) && a == d[|c| + 2..] + ARROW + b)
      || (Extends(c, d) && b == c[|d| + 2..] + ARROW + a)
  {
    var p := ListenKey(c, "");
    var q := ListenKey(d, "");
    assert ListenKey(c, a) == p + a && ListenKey(d, b) == q + b;
    if c == d {
      assert a == (p + a)[|p|..] && b == (p + b)[|p|..];
    } else {
      LongerKey(c, a, d, b);
      LongerKey(d, b, c, a);
    }
  }

  /** The case in which d is the longer id. */
  lemma LongerKey(c: string, a: string, d: string, b: string)
    requires c != d
    ensures Extends(d, c) && a == d[|c| + 2..] + ARROW + b ==> ListenKey(c, a) == ListenKey(d, b)
    ensures ListenKey(c, a) == ListenKey(d, b) && |c| <= |d| ==> Extends(d, c) && a == d[|c| + 2..] + ARROW + b
  {
    var p := ListenKey(c, "");
    if Extends(d, c) {
      var x := d[|c| + 2..];
      assert d == c + ARROW + x;
      assert ListenKey(d, b) == p + (x + ARROW + b);
      assert (p + (x + ARROW + b))[|p|..] == x + ARROW + b;
    }
    if ListenKey(c, a) == ListenKey(d, b) && |c| <= |d| {
      assert ListenKey(c, a) == p + a;
      ListenScan(c, d, b);
      assert a == (p + a)[|p|..];
    }
  }

  /** Two clients can share a listen key exactly if one id is the other followed by an arrow and more. */
  lemma ArrowInIdCollides(c: string, d: string)
    ensures (exists a, b :: ListenKey(c, a) == ListenKey(d, b) && (c != d || a != b)) <==> !Apart(c, d)
  {
    forall a, b | ListenKey(c, a) == ListenKey(d, b) && (c != d || a != b) ensures !Apart(c, d) {
      ListenKeyInjective(c, a, d, b);
    }
    if Extends(d, c) {
      ListenKeyInjective(c, d[|c| + 2..] + ARROW + "", d, "");
    }
    if Extends(c, d) {
      ListenKeyInjective(c, "", d, c[|d| + 2..] + ARROW + "");
    }
  }

  predicate ArrowAt(c: string, i: nat) {
    i + 2 <= |c| && c[i] == '=' && c[i + 1] == '>'
  }

  /** Ids without an arrow are apart, whatever else they contain. */
  lemma NoArrowIsApart(c: string, d: string)
    requires forall i: nat :: !ArrowAt(c, i) && !ArrowAt(d, i)
    ensures Apart(c, d)
  {
    ExtendsHasArrow(c, d);
    ExtendsHasArrow(d, c);
  }

  lemma ExtendsHasArrow(c: string, d: string)
    ensures Extends(d, c) ==> ArrowAt(d, |c|)
  {
    if Extends(d, c) {
      assert (c + ARROW)[|c|] == '=' && (c + ARROW)[|c| + 1] == '>';
    }
  }

  /**
   GetDomainList scans "/zhangyu/domain/<client id>/". Records of generated
   domain names turn up in it exactly for the client id "list", or if the id
   goes on behind "list/" as the name does.
   */
  lemma DomainScanMeetsNames(clientId: string, name: string)
    ensures DomainKey(clientId, "") <= KEY_DOMAIN_NAME + name <==>
      clientId == "list" || ("list/" <= clientId && clientId[5..] + "/" <= name)
  {
    var p := DomainKey(clientId, "");
    var k := KEY_DOMAIN_NAME + name;
    var n := |KEY_DOMAIN|;
    assert p == KEY_DOMAIN + (clientId + "/") && k == KEY_DOMAIN + ("list/" + name);
    assert p[n..] == clientId + "/" && k[n..] == "list/" + name;
    if p <= k {
      assert clientId + "/" == p[n..] == k[n..|p|] == ("list/" + name)[..|clientId| + 1];
      ListPrefix(clientId, name);
    }
    if clientId == "list" {
      assert k[..|p|] == p;
    }
    if "list/" <= clientId && clientId[5..] + "/" <= name {
      assert clientId == "list/" + clientId[5..];
      assert k[..|p|] == KEY_DOMAIN + ("list/" + name[..|clientId| - 4]);
    }
  }

  lemma ListPrefix(id: string, name: string)
    requires id + "/" <= "list/" + name
    ensures id == "list" || ("list/" <= id && id[5..] + "/" <= name)
  {
    var whole := "list/" + name;
    assert whole[..|id|] == id && whole[|id|] == '/';
    assert "list/"[..4] == "list" && forall i :: 0 <= i < 4 ==> whole[i] != '/';
    if |id| == 4 {
      assert id == "list";
    } else {
      assert id[..5] == whole[..5] == "list/";
      assert (id + "/")[5..] == id[5..] + "/" && whole[5..] == name;
      assert name[..|id| - 4] == whole[5..|id| + 1] == (id + "/")[5..];
    }
  }

  // ---------- the store ----------

  datatype Listen = Listen(
    listenClientId: string, listenTunnelId: string,
    targetClientId: string, targetTunnelId: string,
    listenAddr: string, targetAddr: string)

  datatype Value = ListenValue(l: Listen) | ClientValue(tunnelId: string) | TunnelValue(terminalId: string) | OtherValue

  type Nested = map<string, map<string, Listen>>

  function ListensOf(m: Nested, clientId: string): map<string, Listen> {
    if clientId in m then m[clientId] else map[]
  }

  function AddTo(m: Nested, l: Listen): Nested {
    m[l.listenClientId := ListensOf(m, l.listenClientId)[l.listenAddr := l]]
  }

  ghost predicate AllApart(ids: set<string>) {
    forall c, d :: c in ids && d in ids ==> Apart(c, d)
  }

  /** The flat store holds exactly the listens of the nested map, for ids whose keys cannot coincide. */
  ghost predicate Refines(store: map<string, Value>, m: Nested) {
    && AllApart(m.Keys)
    && (forall c, a :: c in m && a in m[c] ==> ListenKey(c, a) in store && store[ListenKey(c, a)] == ListenValue(m[c][a]))
    && (forall k :: k in store && KEY_LISTEN <= k ==> exists c, a :: IsListen(m, k, c, a))
  }

  ghost predicate IsListen(m: Nested, k: string, c: string, a: string) {
    c in m && a in m[c] && k == ListenKey(c, a)
  }

  lemma PutListenRefines(store: map<string, Value>, m: Nested, l: Listen)
    requires Refines(store, m) && AllApart(m.Keys + {l.listenClientId})
    ensures Refines(store[ListenKey(l.listenClientId, l.listenAddr) := ListenValue(l)], AddTo(m, l))
  {
    var key := ListenKey(l.listenClientId, l.listenAddr);
    var s' := store[key := ListenValue(l)];
    var m' := AddTo(m, l);
    forall c, a | c in m' && a in m'[c]
      ensures ListenKey(c, a) in s' && s'[ListenKey(c, a)] == ListenValue(m'[c][a])
    {
      if ListenKey(c, a) == key {
        assert Apart(c, l.listenClientId);
        ListenKeyInjective(c, a, l.listenClientId, l.listenAddr);
      }
    }
    forall k | k in s' && KEY_LISTEN <= k ensures exists c, a :: IsListen(m', k, c, a) {
      if k == key {
        assert IsListen(m', k, l.listenClientId, l.listenAddr);
      } else {
        var c, a :| IsListen(m, k, c, a);
        assert IsListen(m', k, c, a);
      }
    }
  }

  lemma PutElsewhereRefines(store: map<string, Value>, m: Nested, k: string, v: Value)
    requires Refines(store, m) && !(KEY_LISTEN <= k)
    ensures Refines(store[k := v], m)
  {
    forall c, a | c in m && a in m[c]
      ensures ListenKey(c, a) in store[k := v] && store[k := v][ListenKey(c, a)] == ListenValue(m[c][a])
    {
      assert KEY_LISTEN <= ListenKey(c, a);
    }
  }

  /** A range response of etcd: the pairs whose keys start with the prefix, each once. */
  ghost predicate IsRange(store: map<string, Value>, prefix: string, kvs: seq<(string, Value)>) {
    && (forall i :: 0 <= i < |kvs| ==> prefix <= kvs[i].0 && kvs[i].0 in store && store[kvs[i].0] == kvs[i].1)
    && (forall k :: k in store && prefix <= k ==> exists i :: 0 <= i < |kvs| && kvs[i].0 == k)
    && (forall i, j :: 0 <= i < j < |kvs| ==> kvs[i].0 != kvs[j].0)
  }

  /** The list contains each of the client's listens exactly once, and nothing else. */
  ghost predicate Lists(m: map<string, Listen>, addrs: seq<string>, list: seq<Listen>) {
    && |addrs| == |list|
    && (forall i, j :: 0 <= i < j < |addrs| ==> addrs[i] != addrs[j])
    && (forall a :: a in m <==> a in addrs)
    && (forall i :: 0 <= i < |list| ==> addrs[i] in m && list[i] == m[addrs[i]])
  }

  /** The pair of this key stands for listen l of client c at address a. */
  ghost predicate Decoded(m: Nested, c: string, kv: (string, Value), a: string, l: Listen) {
    IsListen(m, kv.0, c, a) && kv.1 == ListenValue(l) && l == m[c][a]
  }

  /** The address behind a key that a scan for client c has met. */
  lemma ScannedAddr(store: map<string, Value>, m: Nested, c: string, k: string) returns (a: string)
    requires Refines(store, m) && AllApart(m.Keys + {c}) && k in store && ListenKey(c, "") <= k
    ensures IsListen(m, k, c, a) && store[k] == ListenValue(m[c][a])
  {
    assert KEY_LISTEN <= ListenKey(c, "") <= k;
    var d, b :| IsListen(m, k, d, b);
    assert Apart(c, d);
    ListenScan(c, d, b);
    a := b;
  }

  // ---------- all families at once ----------

  /** The maps that the flat store stands for: one for each family of client keys, and the records of domain names. */
  datatype Tables = Tables(
    online: map<string, Value>, tunnels: map<string, Value>, records: map<string, Value>, listens: Nested,
    domains: map<string, Value>)

  const NO_TABLES := Tables(map[], map[], map[], map[], map[])

  function TableOf(t: Tables, f: Family): map<string, Value>
    requires f != ClientListens
  {
    match f
    case OnlineClients => t.online
    case ClientTunnels => t.tunnels
    case ClientRecords => t.records
  }

  function WithTable(t: Tables, f: Family, m: map<string, Value>): Tables
    requires f != ClientListens
  {
    match f
    case OnlineClients => t.(online := m)
    case ClientTunnels => t.(tunnels := m)
    case ClientRecords => t.(records := m)
  }

  /** Under the prefix of the family the store holds exactly this map. */
  ghost predicate FamilyRefines(store: map<string, Value>, f: Family, m: map<string, Value>) {
    && (forall id :: id in m ==> FamilyPrefix(f) + id in store && store[FamilyPrefix(f) + id] == m[id])
    && (forall k :: k in store && FamilyPrefix(f) <= k ==> k[23..] in m)
  }

  /** The records of domain names are exactly those of this map. */
  ghost predicate DomainsRefine(store: map<string, Value>, m: map<string, Value>) {
    && (forall name :: name in m ==> KEY_DOMAIN_NAME + name in store && store[KEY_DOMAIN_NAME + name] == m[name])
    && (forall k :: k in store && KEY_DOMAIN_NAME <= k ==> k[21..] in m)
  }

  ghost predicate RefinesAll(store: map<string, Value>, t: Tables) {
    && Refines(store, t.listens) && DomainsRefine(store, t.domains)
    && forall f {:trigger TableHolds(store, t, f)} :: TableHolds(store, t, f)
  }

  ghost predicate TableHolds(store: map<string, Value>, t: Tables, f: Family) {
    f != ClientListens ==> FamilyRefines(store, f, TableOf(t, f))
  }

  /** Everything that the nodes write. */
  datatype Write =
    | PutClient(f: Family, id: string, v: Value)   // an online record, a tunnel or its reservation, a client record
    | DropClient(f: Family, id: string)            // also when a lease ends
    | PutListen(l: Listen)
    | PutDomain(rest: string, v: Value)            // a domain name, or a domain of a client
    | DropDomain(rest: string)                     // a reservation whose lease ends
    | PutNode(id: string, v: Value)
    | PutSignKey(v: Value)

  predicate WriteOk(w: Write) {
    w.PutClient? || w.DropClient? ==> w.f != ClientListens
  }

  function WriteTo(store: map<string, Value>, w: Write): map<string, Value> {
    match w
    case PutClient(f, id, v) => store[FamilyPrefix(f) + id := v]
    case DropClient(f, id) => store - {FamilyPrefix(f) + id}
    case PutListen(l) => store[ListenKey(l.listenClientId, l.listenAddr) := ListenValue(l)]
    case PutDomain(rest, v) => store[KEY_DOMAIN + rest := v]
    case DropDomain(rest) => store - {KEY_DOMAIN + rest}
    case PutNode(id, v) => store[KEY_NODE + id := v]
    case PutSignKey(v) => store[KEY_JWT := v]
  }

  /** A record under a domain key is that of a domain name if it is filed under "list/". */
  function PutName(m: map<string, Value>, rest: string, v: Value): map<string, Value> {
    if "list/" <= rest then m[rest[5..] := v] else m
  }

  function DropName(m: map<string, Value>, rest: string): map<string, Value> {
    if "list/" <= rest then m - {rest[5..]} else m
  }

  /** The same write on the maps; nodes and the signing key are no business of theirs. */
  function WriteTables(t: Tables, w: Write): Tables
    requires WriteOk(w)
  {
    match w
    case PutClient(f, id, v) => WithTable(t, f, TableOf(t, f)[id := v])
    case DropClient(f, id) => WithTable(t, f, TableOf(t, f) - {id})
    case PutListen(l) => t.(listens := AddTo(t.listens, l))
    case PutDomain(rest, v) => t.(domains := PutName(t.domains, rest, v))
    case DropDomain(rest) => t.(domains := DropName(t.domains, rest))
    case _ => t
  }

  function WritesTo(store: map<string, Value>, ws: seq<Write>): map<string, Value>
    decreases |ws|
  {
    if ws == [] then store else WritesTo(WriteTo(store, ws[0]), ws[1..])
  }

  function WritesTables(t: Tables, ws: seq<Write>): Tables
    requires forall w :: w in ws ==> WriteOk(w)
    decreases |ws|
  {
    if ws == [] then t else WritesTables(WriteTables(t, ws[0]), ws[1..])
  }

  /** The clients that listens are written for. */
  function Listeners(ws: seq<Write>): set<string> {
    set w | w in ws && w.PutListen? :: w.l.listenClientId
  }

  lemma FamilyKeyElsewhere(store: map<string, Value>, f: Family, m: map<string, Value>, k: string, v: Value)
    requires FamilyRefines(store, f, m) && !(FamilyPrefix(f) <= k)
    ensures FamilyRefines(store[k := v], f, m) && FamilyRefines(store - {k}, f, m)
  {
    forall id | id in m ensures FamilyPrefix(f) + id != k {
      assert FamilyPrefix(f) <= FamilyPrefix(f) + id;
    }
  }

  lemma FamilyKeyWritten(store: map<string, Value>, f: Family, m: map<string, Value>, id: string, v: Value)
    requires FamilyRefines(store, f, m)
    ensures FamilyRefines(store[FamilyPrefix(f) + id := v], f, m[id := v])
    ensures FamilyRefines(store - {FamilyPrefix(f) + id}, f, m - {id})
  {
    var key := FamilyPrefix(f) + id;
    assert key[23..] == id;
    forall x | FamilyPrefix(f) + x == key ensures x == id {
      FamiliesAreDisjoint(f, f, x, id);
    }
    forall k | k in store && FamilyPrefix(f) <= k && k != key ensures k[23..] != id {
      assert k == FamilyPrefix(f) + k[23..];
    }
  }

  lemma DropElsewhereRefines(store: map<string, Value>, m: Nested, k: string)
    requires Refines(store, m) && !(KEY_LISTEN <= k)
    ensures Refines(store - {k}, m)
  {
    forall c, a | c in m && a in m[c] ensures ListenKey(c, a) != k {
      assert KEY_LISTEN <= ListenKey(c, a);
    }
  }

  lemma NamesElsewhere(store: map<string, Value>, m: map<string, Value>, k: string, v: Value)
    requires DomainsRefine(store, m) && !(KEY_DOMAIN_NAME <= k)
    ensures DomainsRefine(store[k := v], m) && DomainsRefine(store - {k}, m)
  {
    forall name | name in m ensures KEY_DOMAIN_NAME + name != k {
      assert KEY_DOMAIN_NAME <= KEY_DOMAIN_NAME + name;
    }
  }

  lemma NameWritten(store: map<string, Value>, m: map<string, Value>, name: string, v: Value)
    requires DomainsRefine(store, m)
    ensures DomainsRefine(store[KEY_DOMAIN_NAME + name := v], m[name := v])
    ensures DomainsRefine(store - {KEY_DOMAIN_NAME + name}, m - {name})
  {
    var key := KEY_DOMAIN_NAME + name;
    assert key[21..] == name;
    forall x | KEY_DOMAIN_NAME + x == key ensures x == name {
      assert x == (KEY_DOMAIN_NAME + x)[21..];
    }
    forall k | k in store && KEY_DOMAIN_NAME <= k && k != key ensures k[21..] != name {
      assert k == KEY_DOMAIN_NAME + k[21..];
    }
  }

  /** Domain keys are those of domain names exactly if they go on with "list/". */
  lemma NameKey(rest: string)
    ensures KEY_DOMAIN_NAME <= KEY_DOMAIN + rest <==> "list/" <= rest
    ensures "list/" <= rest ==> KEY_DOMAIN + rest == KEY_DOMAIN_NAME + rest[5..]
  {
    var k := KEY_DOMAIN + rest;
    assert KEY_DOMAIN_NAME == KEY_DOMAIN + "list/" && k[16..] == rest;
    if KEY_DOMAIN_NAME <= k {
      assert k[16..21] == "list/";
    }
    if "list/" <= rest {
      assert rest == "list/" + rest[5..];
    }
  }

  /** A write under a domain key is done on the names right there. */
  lemma NamesFollow(store: map<string, Value>, m: map<string, Value>, rest: string, v: Value)
    requires DomainsRefine(store, m)
    ensures DomainsRefine(store[KEY_DOMAIN + rest := v], PutName(m, rest, v))
    ensures DomainsRefine(store - {KEY_DOMAIN + rest}, DropName(m, rest))
  {
    NameKey(rest);
    if "list/" <= rest {
      NameWritten(store, m, rest[5..], v);
    } else {
      NamesElsewhere(store, m, KEY_DOMAIN + rest, v);
    }
  }

  lemma NoName(f: Family, x: string)
    ensures !(KEY_DOMAIN_NAME <= FamilyPrefix(f) + x) && !(KEY_DOMAIN_NAME <= KEY_NODE + x) && !(KEY_DOMAIN_NAME <= KEY_JWT)
  {
    assert (FamilyPrefix(f) + x)[9] == 'c' && KEY_DOMAIN_NAME[9] == 'd' && (KEY_NODE + x)[9] == 'n' && KEY_JWT[9] == 'j';
  }

  /** A key outside a family leaves its map alone. */
  lemma TableStays(store: map<string, Value>, t: Tables, g: Family, k: string, v: Value, t': Tables)
    requires RefinesAll(store, t) && (g != ClientListens ==> TableOf(t', g) == TableOf(t, g))
    requires !(FamilyPrefix(g) <= k)
    ensures TableHolds(store[k := v], t', g) && TableHolds(store - {k}, t', g)
  {
    assert TableHolds(store, t, g);
    if g != ClientListens {
      FamilyKeyElsewhere(store, g, TableOf(t, g), k, v);
    }
  }

  /** A key outside the client families does not concern the listens. */
  lemma OutsideListens(store: map<string, Value>, m: Nested, k: string, v: Value)
    requires Refines(store, m) && !(FamilyPrefix(ClientListens) <= k)
    ensures Refines(store[k := v], m) && Refines(store - {k}, m)
  {
    PutElsewhereRefines(store, m, k, v);
    DropElsewhereRefines(store, m, k);
  }

  /** A key that is no domain name either touches none of the maps. */
  lemma ForeignKeeps(store: map<string, Value>, t: Tables, k: string, v: Value)
    requires RefinesAll(store, t) && (forall f: Family :: !(FamilyPrefix(f) <= k)) && !(KEY_DOMAIN_NAME <= k)
    ensures RefinesAll(store[k := v], t)
  {
    OutsideListens(store, t.listens, k, v);
    NamesElsewhere(store, t.domains, k, v);
    var put := store[k := v];
    forall f: Family ensures TableHolds(put, t, f) {
      TableStays(store, t, f, k, v, t);
    }
  }

  lemma DomainWriteRefines(store: map<string, Value>, t: Tables, rest: string, v: Value)
    requires RefinesAll(store, t)
    ensures RefinesAll(store[KEY_DOMAIN + rest := v], t.(domains := PutName(t.domains, rest, v)))
    ensures RefinesAll(store - {KEY_DOMAIN + rest}, t.(domains := DropName(t.domains, rest)))
  {
    OutsideTheFamilies(rest);
    OutsideListens(store, t.listens, KEY_DOMAIN + rest, v);
    NamesFollow(store, t.domains, rest, v);
    var put, dropped := store[KEY_DOMAIN + rest := v], store - {KEY_DOMAIN + rest};
    var t1, t2 := t.(domains := PutName(t.domains, rest, v)), t.(domains := DropName(t.domains, rest));
    forall f: Family ensures TableHolds(put, t1, f) {
      TableStays(store, t, f, KEY_DOMAIN + rest, v, t1);
    }
    forall f: Family ensures TableHolds(dropped, t2, f) {
      TableStays(store, t, f, KEY_DOMAIN + rest, v, t2);
    }
  }

  lemma OtherFamily(f: Family, g: Family, id: string)
    requires f != g
    ensures !(FamilyPrefix(g) <= FamilyPrefix(f) + id)
  {
    FamiliesAreDisjoint(g, f, "", id);
    assert FamilyPrefix(g) + "" == FamilyPrefix(g);
  }

  lemma OtherStays(store: map<string, Value>, t: Tables, f: Family, id: string, v: Value, g: Family, t': Tables)
    requires RefinesAll(store, t) && f != g && (g != ClientListens ==> TableOf(t', g) == TableOf(t, g))
    ensures TableHolds(store[FamilyPrefix(f) + id := v], t', g) && TableHolds(store - {FamilyPrefix(f) + id}, t', g)
  {
    OtherFamily(f, g, id);
    TableStays(store, t, g, FamilyPrefix(f) + id, v, t');
  }

  lemma ListensStay(store: map<string, Value>, t: Tables, f: Family, id: string, v: Value)
    requires RefinesAll(store, t) && f != ClientListens
    ensures Refines(store[FamilyPrefix(f) + id := v], t.listens) && Refines(store - {FamilyPrefix(f) + id}, t.listens)
  {
    OtherFamily(f, ClientListens, id);
    PutElsewhereRefines(store, t.listens, FamilyPrefix(f) + id, v);
    DropElsewhereRefines(store, t.listens, FamilyPrefix(f) + id);
  }

  lemma NamesStay(store: map<string, Value>, m: map<string, Value>, f: Family, id: string, v: Value)
    requires DomainsRefine(store, m)
    ensures DomainsRefine(store[FamilyPrefix(f) + id := v], m) && DomainsRefine(store - {FamilyPrefix(f) + id}, m)
  {
    NoName(f, id);
    NamesElsewhere(store, m, FamilyPrefix(f) + id, v);
  }

  lemma OwnTable(store: map<string, Value>, t: Tables, f: Family, id: string, v: Value)
    requires RefinesAll(store, t) && f != ClientListens
    ensures TableHolds(store[FamilyPrefix(f) + id := v], WithTable(t, f, TableOf(t, f)[id := v]), f)
    ensures TableHolds(store - {FamilyPrefix(f) + id}, WithTable(t, f, TableOf(t, f) - {id}), f)
  {
    assert TableHolds(store, t, f);
    FamilyKeyWritten(store, f, TableOf(t, f), id, v);
  }

  /** A write to one family is done right there and leaves the others and the listens alone. */
  lemma ClientPutRefines(store: map<string, Value>, t: Tables, f: Family, id: string, v: Value)
    requires RefinesAll(store, t) && f != ClientListens
    ensures RefinesAll(store[FamilyPrefix(f) + id := v], WithTable(t, f, TableOf(t, f)[id := v]))
  {
    var put, t1 := store[FamilyPrefix(f) + id := v], WithTable(t, f, TableOf(t, f)[id := v]);
    ListensStay(store, t, f, id, v);
    NamesStay(store, t.domains, f, id, v);
    OwnTable(store, t, f, id, v);
    forall g: Family ensures TableHolds(put, t1, g) {
      if g != f {
        OtherStays(store, t, f, id, v, g, t1);
      }
    }
  }

  lemma ClientDropRefines(store: map<string, Value>, t: Tables, f: Family, id: string)
    requires RefinesAll(store, t) && f != ClientListens
    ensures RefinesAll(store - {FamilyPrefix(f) + id}, WithTable(t, f, TableOf(t, f) - {id}))
  {
    var dropped, t1 := store - {FamilyPrefix(f) + id}, WithTable(t, f, TableOf(t, f) - {id});
    ListensStay(store, t, f, id, OtherValue);
    NamesStay(store, t.domains, f, id, OtherValue);
    OwnTable(store, t, f, id, OtherValue);
    forall g: Family ensures TableHolds(dropped, t1, g) {
      if g != f {
        OtherStays(store, t, f, id, OtherValue, g, t1);
      }
    }
  }

  lemma ListenKeyHasFamily(c: string, addr: string)
    ensures ListenKey(c, addr) == FamilyPrefix(ClientListens) + (c + ARROW + addr)
  {
    assert KEY_LISTEN + c + ARROW + addr == KEY_LISTEN + (c + ARROW + addr);
  }

  lemma ListenLeavesTables(store: map<string, Value>, t: Tables, l: Listen, t': Tables, f: Family)
    requires RefinesAll(store, t) && (f != ClientListens ==> TableOf(t', f) == TableOf(t, f))
    ensures TableHolds(store[ListenKey(l.listenClientId, l.listenAddr) := ListenValue(l)], t', f)
  {
    ListenKeyHasFamily(l.listenClientId, l.listenAddr);
    if f != ClientListens {
      OtherStays(store, t, ClientListens, l.listenClientId + ARROW + l.listenAddr, ListenValue(l), f, t');
    }
  }

  lemma ListenWriteRefines(store: map<string, Value>, t: Tables, l: Listen)
    requires RefinesAll(store, t) && AllApart(t.listens.Keys + {l.listenClientId})
    ensures RefinesAll(store[ListenKey(l.listenClientId, l.listenAddr) := ListenValue(l)],
                       t.(listens := AddTo(t.listens, l)))
  {
    PutListenRefines(store, t.listens, l);
    ListenKeyHasFamily(l.listenClientId, l.listenAddr);
    NamesStay(store, t.domains, ClientListens, l.listenClientId + ARROW + l.listenAddr, ListenValue(l));
    var t1 := t.(listens := AddTo(t.listens, l));
    var put := store[ListenKey(l.listenClientId, l.listenAddr) := ListenValue(l)];
    forall f: Family ensures TableHolds(put, t1, f) {
      ListenLeavesTables(store, t, l, t1, f);
    }
  }

  lemma OutsideTheFamilies(y: string)
    ensures forall f: Family :: !(FamilyPrefix(f) <= KEY_DOMAIN + y) && !(FamilyPrefix(f) <= KEY_NODE + y)
    ensures forall f: Family :: !(FamilyPrefix(f) <= KEY_JWT)
  {
    forall f: Family
      ensures !(FamilyPrefix(f) <= KEY_DOMAIN + y) && !(FamilyPrefix(f) <= KEY_NODE + y) && !(FamilyPrefix(f) <= KEY_JWT)
    {
      ClientKeysAreApart(f, "", y);
      assert FamilyPrefix(f) + "" == FamilyPrefix(f);
    }
  }

  lemma WriteRefines(store: map<string, Value>, t: Tables, w: Write)
    requires RefinesAll(store, t) && WriteOk(w) && AllApart(t.listens.Keys + Listeners([w]))
    ensures RefinesAll(WriteTo(store, w), WriteTables(t, w))
  {
    match w
    case PutClient(f, id, v) => ClientPutRefines(store, t, f, id, v);
    case DropClient(f, id) => ClientDropRefines(store, t, f, id);
    case PutListen(l) =>
      assert w in [w];
      ListenWriteRefines(store, t, l);
    case PutDomain(rest, v) => DomainWriteRefines(store, t, rest, v);
    case DropDomain(rest) => DomainWriteRefines(store, t, rest, OtherValue);
    case PutNode(id, v) =>
      OutsideTheFamilies(id);
      NoName(OnlineClients, id);
      ForeignKeeps(store, t, KEY_NODE + id, v);
    case PutSignKey(v) =>
      OutsideTheFamilies("");
      NoName(OnlineClients, "");
      ForeignKeeps(store, t, KEY_JWT, v);
  }

  /**
   After any writes of all kinds, in any order, the flat store stands for the
   maps that the same writes have made: no write to one family shows up in
   another one, and each listen is filed under its client and address, the last
   write winning.
   */
  lemma {:induction false} WritesRefine(store: map<string, Value>, t: Tables, ws: seq<Write>)
    requires RefinesAll(store, t) && (forall w :: w in ws ==> WriteOk(w))
    requires AllApart(t.listens.Keys + Listeners(ws))
    ensures RefinesAll(WritesTo(store, ws), WritesTables(t, ws))
    decreases |ws|
  {
    if ws != [] {
      var t1 := WriteTables(t, ws[0]);
      assert Listeners([ws[0]]) <= Listeners(ws);
      assert Listeners(ws[1..]) <= Listeners(ws);
      assert t1.listens.Keys <= t.listens.Keys + Listeners(ws);
      WriteRefines(store, t, ws[0]);
      WritesRefine(WriteTo(store, ws[0]), t1, ws[1..]);
    }
  }

  /** The store starts out empty, and so do the maps. */
  lemma StoreFollowsTables(ws: seq<Write>)
    requires (forall w :: w in ws ==> WriteOk(w)) && AllApart(Listeners(ws))
    ensures RefinesAll(WritesTo(map[], ws), WritesTables(NO_TABLES, ws))
  {
    var none: Nested := map[];
    assert none.Keys + Listeners(ws) == Listeners(ws);
    WritesRefine(map[], NO_TABLES, ws);
  }

  // ---------- reading what was written ----------

  function ReadAt(store: map<string, Value>, k: string): Option<Value> {
    if k in store then Some(store[k]) else None
  }

  /** The key that a write is about, and what it leaves there. */
  function KeyOf(w: Write): string {
    match w
    case PutClient(f, id, _) => FamilyPrefix(f) + id
    case DropClient(f, id) => FamilyPrefix(f) + id
    case PutListen(l) => ListenKey(l.listenClientId, l.listenAddr)
    case PutDomain(rest, _) => KEY_DOMAIN + rest
    case DropDomain(rest) => KEY_DOMAIN + rest
    case PutNode(id, _) => KEY_NODE + id
    case PutSignKey(_) => KEY_JWT
  }

  function Left(w: Write): Option<Value> {
    match w
    case PutClient(_, _, v) => Some(v)
    case PutListen(l) => Some(ListenValue(l))
    case PutDomain(_, v) => Some(v)
    case PutNode(_, v) => Some(v)
    case PutSignKey(v) => Some(v)
    case _ => None
  }

  /** The formats, spelled out. */
  lemma KeyFormats(id: string, l: Listen, v: Value)
    ensures KeyOf(PutClient(OnlineClients, id, v)) == KeyOf(DropClient(OnlineClients, id)) == "/zhangyu/client/online/" + id
    ensures KeyOf(PutClient(ClientTunnels, id, v)) == KeyOf(DropClient(ClientTunnels, id)) == "/zhangyu/client/tunnel/" + id
    ensures KeyOf(PutClient(ClientRecords, id, v)) == KeyOf(DropClient(ClientRecords, id)) == "/zhangyu/client/record/" + id
    ensures KeyOf(PutListen(l)) == "/zhangyu/client/listen/" + l.listenClientId + "=>" + l.listenAddr
    ensures KeyOf(PutDomain("list/" + id, v)) == KeyOf(DropDomain("list/" + id)) == "/zhangyu/domain/list/" + id
    ensures KeyOf(PutNode(id, v)) == "/zhangyu/node/online/" + id && KeyOf(PutSignKey(v)) == "/zhangyu/jwt/sign"
  {
    assert KEY_DOMAIN + ("list/" + id) == KEY_DOMAIN + "list/" + id;
  }

  lemma WriteAt(store: map<string, Value>, w: Write, k: string)
    ensures ReadAt(WriteTo(store, w), k) == if k == KeyOf(w) then Left(w) else ReadAt(store, k)
  {
  }

  /** No write from position i on is about the key. */
  ghost predicate NoneOf(ws: seq<Write>, i: nat, k: string) {
    forall j :: i <= j < |ws| ==> KeyOf(ws[j]) != k
  }

  lemma {:induction false} ReadStays(store: map<string, Value>, ws: seq<Write>, k: string)
    requires NoneOf(ws, 0, k)
    ensures ReadAt(WritesTo(store, ws), k) == ReadAt(store, k)
    decreases |ws|
  {
    if ws != [] {
      WriteAt(store, ws[0], k);
      ReadStays(WriteTo(store, ws[0]), ws[1..], k);
    }
  }

  /**
   A read gives what the last write to its key has left, whatever was written to
   other keys; a key that nobody has written reads as before.
   */
  lemma {:induction false} ReadsLastWrite(store: map<string, Value>, ws: seq<Write>, k: string)
    ensures NoneOf(ws, 0, k) ==> ReadAt(WritesTo(store, ws), k) == ReadAt(store, k)
    ensures forall i: nat :: i < |ws| && KeyOf(ws[i]) == k && NoneOf(ws, i + 1, k) ==>
      ReadAt(WritesTo(store, ws), k) == Left(ws[i])
    decreases |ws|
  {
    if NoneOf(ws, 0, k) {
      ReadStays(store, ws, k);
    }
    forall i: nat | i < |ws| && KeyOf(ws[i]) == k && NoneOf(ws, i + 1, k)
      ensures ReadAt(WritesTo(store, ws), k) == Left(ws[i])
    {
      var s1 := WriteTo(store, ws[0]);
      if i == 0 {
        WriteAt(store, ws[0], k);
        ReadStays(s1, ws[1..], k);
      } else {
        ReadsLastWrite(s1, ws[1..], k);
        assert ws[1..][i - 1] == ws[i] && NoneOf(ws[1..], i, k);
      }
    }
  }

  /** A host name is served by the listen that was filed for it last. */
  lemma HostReadsLastListen(store: map<string, Value>, ws: seq<Write>, host: string, i: nat, l: Listen)
    requires i < |ws| && ws[i] == PutDomain("list/" + host, ListenValue(l))
    requires NoneOf(ws, i + 1, "/zhangyu/domain/list/" + host)
    ensures DomainInfo(WritesTo(store, ws), host) == Some(l)
  {
    KeyFormats(host, l, ListenValue(l));
    ReadsLastWrite(store, ws, "/zhangyu/domain/list/" + host);
  }

  // ---------- the client of the store ----------

  function TunnelIdIn(store: map<string, Value>, clientId: string): string {
    var key := KEY_RECORD + clientId;
    if key in store && store[key].ClientValue? then store[key].tunnelId else ""
  }

  function TerminalIn(store: map<string, Value>, tunnelId: string): string {
    var key := KEY_TUNNEL + tunnelId;
    if key in store && store[key].TunnelValue? then store[key].terminalId else ""
  }

  const EMPTY_LISTEN := Listen("", "", "", "", "", "")

  /** GetDomainInfo: the record of a host name; one that is no listen reads as an empty one. */
  function DomainInfo(store: map<string, Value>, host: string): Option<Listen> {
    ListenOf(ReadAt(store, KEY_DOMAIN_NAME + host))
  }

  function ListenOf(v: Option<Value>): Option<Listen> {
    match v
    case None => None
    case Some(x) => Some(if x.ListenValue? then x.l else EMPTY_LISTEN)
  }

  function ListenIn(m: map<string, Value>, name: string): Option<Listen> {
    ListenOf(ReadAt(m, name))
  }

  lemma NameGet(store: map<string, Value>, m: map<string, Value>, name: string)
    requires DomainsRefine(store, m)
    ensures ReadAt(store, KEY_DOMAIN_NAME + name) == ReadAt(m, name)
  {
    assert (KEY_DOMAIN_NAME + name)[21..] == name;
  }

  /** The ids of tunnel and terminal are those of the records, and empty where there is none. */
  lemma IdsInRecords(store: map<string, Value>, id: string, x: string)
    ensures ReadAt(store, "/zhangyu/client/record/" + id) == Some(ClientValue(x)) ==> TunnelIdIn(store, id) == x
    ensures ReadAt(store, "/zhangyu/client/record/" + id) in {None, Some(OtherValue)} ==> TunnelIdIn(store, id) == ""
    ensures ReadAt(store, "/zhangyu/client/tunnel/" + id) == Some(TunnelValue(x)) ==> TerminalIn(store, id) == x
    ensures ReadAt(store, "/zhangyu/client/tunnel/" + id) in {None, Some(OtherValue)} ==> TerminalIn(store, id) == ""
  {
  }

  function TunnelIdOf(t: Tables, clientId: string): string {
    if clientId in t.records && t.records[clientId].ClientValue? then t.records[clientId].tunnelId else ""
  }

  function TerminalOf(t: Tables, tunnelId: string): string {
    if tunnelId in t.tunnels && t.tunnels[tunnelId].TunnelValue? then t.tunnels[tunnelId].terminalId else ""
  }

  /** What GetClientRec and GetTunnel read is what the maps say. */
  lemma ReadsFollowTables(store: map<string, Value>, t: Tables, clientId: string, tunnelId: string)
    requires RefinesAll(store, t)
    ensures TunnelIdIn(store, clientId) == TunnelIdOf(t, clientId)
    ensures TerminalIn(store, tunnelId) == TerminalOf(t, tunnelId)
  {
    assert TableHolds(store, t, ClientRecords) && TableHolds(store, t, ClientTunnels);
    FamilyGet(store, ClientRecords, t.records, clientId);
    FamilyGet(store, ClientTunnels, t.tunnels, tunnelId);
  }

  /** A key of the family reads as the entry of the map. */
  lemma FamilyGet(store: map<string, Value>, f: Family, m: map<string, Value>, id: string)
    requires FamilyRefines(store, f, m)
    ensures FamilyPrefix(f) + id in store <==> id in m
    ensures id in m ==> store[FamilyPrefix(f) + id] == m[id]
  {
    assert (FamilyPrefix(f) + id)[23..] == id;
  }

  /** The listen has been put under its client and address, under its address too if that is a domain name, and nowhere else. */
  ghost predicate Filed(before: map<string, Value>, after: map<string, Value>, l: Listen, isDomain: bool) {
    var listenKey := "/zhangyu/client/listen/" + l.listenClientId + "=>" + l.listenAddr;
    var nameKey := "/zhangyu/domain/list/" + l.listenAddr;
    && ReadAt(after, listenKey) == Some(ListenValue(l))
    && ReadAt(after, nameKey) == (if isDomain then Some(ListenValue(l)) else ReadAt(before, nameKey))
    && forall k :: k != listenKey && k != nameKey ==> ReadAt(after, k) == ReadAt(before, k)
  }

  lemma ListenKeyIsNoName(c: string, addr: string, name: string)
    ensures ListenKey(c, addr) != KEY_DOMAIN_NAME + name
  {
    assert ListenKey(c, addr)[9] == 'c' && (KEY_DOMAIN_NAME + name)[9] == 'd';
  }

  /** Whatever has done that, the maps follow: that listen, and that name, are set and nothing else. */
  lemma FiledRefines(before: map<string, Value>, after: map<string, Value>, t: Tables, l: Listen, isDomain: bool)
    requires RefinesAll(before, t) && AllApart(t.listens.Keys + {l.listenClientId}) && Filed(before, after, l, isDomain)
    ensures RefinesAll(after, FiledTables(t, l, isDomain))
  {
    var put := before[ListenKey(l.listenClientId, l.listenAddr) := ListenValue(l)];
    var t1 := t.(listens := AddTo(t.listens, l));
    ListenWriteRefines(before, t, l);
    ListenKeyIsNoName(l.listenClientId, l.listenAddr, l.listenAddr);
    FiledIs(before, after, l, isDomain);
    if isDomain {
      var rest := "list/" + l.listenAddr;
      assert KEY_DOMAIN + rest == KEY_DOMAIN_NAME + l.listenAddr && rest[5..] == l.listenAddr;
      DomainWriteRefines(put, t1, rest, ListenValue(l));
    }
  }

  lemma FiledIs(before: map<string, Value>, after: map<string, Value>, l: Listen, isDomain: bool)
    requires Filed(before, after, l, isDomain)
    ensures var put := before[ListenKey(l.listenClientId, l.listenAddr) := ListenValue(l)];
      after == if isDomain then put[KEY_DOMAIN_NAME + l.listenAddr := ListenValue(l)] else put
  {
    var put := before[ListenKey(l.listenClientId, l.listenAddr) := ListenValue(l)];
    var all := if isDomain then put[KEY_DOMAIN_NAME + l.listenAddr := ListenValue(l)] else put;
    ListenKeyIsNoName(l.listenClientId, l.listenAddr, l.listenAddr);
    forall k ensures ReadAt(after, k) == ReadAt(all, k) {
    }
    SameReads(after, all);
  }

  lemma SameReads(s: map<string, Value>, t: map<string, Value>)
    requires forall k :: ReadAt(s, k) == ReadAt(t, k)
    ensures s == t
  {
    forall k ensures (k in s <==> k in t) && (k in s ==> s[k] == t[k]) {
      assert ReadAt(s, k) == ReadAt(t, k);
    }
  }

  function FiledTables(t: Tables, l: Listen, isDomain: bool): Tables {
    t.(listens := AddTo(t.listens, l), domains := if isDomain then t.domains[l.listenAddr := ListenValue(l)] else t.domains)
  }

  /** The listens among the pairs of a response. */
  function Listens(kvs: seq<(string, Value)>): seq<Listen> {
    if kvs == [] then []
    else
      var last := |kvs| - 1;
      Listens(kvs[..last]) + if kvs[last].1.ListenValue? then [kvs[last].1.l] else []
  }

  /** Listen l stands under some key that the scan for this client meets. */
  ghost predicate Met(store: map<string, Value>, clientId: string, l: Listen) {
    exists k :: k in store && ListenKey(clientId, "") <= k && store[k] == ListenValue(l)
  }

  lemma {:induction false} ListensMembers(kvs: seq<(string, Value)>, l: Listen)
    ensures l in Listens(kvs) <==> exists i :: 0 <= i < |kvs| && kvs[i].1 == ListenValue(l)
  {
    if kvs != [] {
      var last := |kvs| - 1;
      ListensMembers(kvs[..last], l);
      if i :| 0 <= i < last && kvs[..last][i].1 == ListenValue(l) {
        assert kvs[i].1 == ListenValue(l);
      }
      if i :| 0 <= i < |kvs| && kvs[i].1 == ListenValue(l) {
        assert i < last ==> kvs[..last][i].1 == ListenValue(l);
      }
    }
  }

  lemma {:induction false} AllListens(kvs: seq<(string, Value)>)
    requires forall i :: 0 <= i < |kvs| ==> kvs[i].1.ListenValue?
    ensures |Listens(kvs)| == |kvs| && forall i :: 0 <= i < |kvs| ==> Listens(kvs)[i] == kvs[i].1.l
  {
    if kvs != [] {
      AllListens(kvs[..|kvs| - 1]);
    }
  }

  lemma ScanMeets(store: map<string, Value>, c: string, kvs: seq<(string, Value)>)
    requires IsRange(store, ListenKey(c, ""), kvs)
    ensures forall l :: l in Listens(kvs) <==> Met(store, c, l)
  {
    forall l ensures l in Listens(kvs) <==> Met(store, c, l) {
      ListensMembers(kvs, l);
      if i :| 0 <= i < |kvs| && kvs[i].1 == ListenValue(l) {
        assert store[kvs[i].0] == ListenValue(l);
      }
      if k :| k in store && ListenKey(c, "") <= k && store[k] == ListenValue(l) {
        var i :| 0 <= i < |kvs| && kvs[i].0 == k;
        assert kvs[i].1 == ListenValue(l);
      }
    }
  }

  /** For ids that are apart the scan lists each listen of the client once, and nothing else. */
  lemma ScanLists(store: map<string, Value>, m: Nested, c: string, kvs: seq<(string, Value)>) returns (addrs: seq<string>)
    requires Refines(store, m) && AllApart(m.Keys + {c}) && IsRange(store, ListenKey(c, ""), kvs)
    ensures Lists(ListensOf(m, c), addrs, Listens(kvs))
  {
    addrs := DecodedAddrs(store, m, c, kvs);
    AllListens(kvs);
    ScanIsComplete(store, m, c, kvs, addrs);
  }

  ghost predicate InScan(store: map<string, Value>, c: string, kv: (string, Value)) {
    kv.0 in store && ListenKey(c, "") <= kv.0 && store[kv.0] == kv.1
  }

  /** The pair of this key is the listen of client c at address a. */
  ghost predicate ListenAt(m: Nested, c: string, kv: (string, Value), a: string) {
    kv.1.ListenValue? && Decoded(m, c, kv, a, kv.1.l)
  }

  lemma DecodedAddr(store: map<string, Value>, m: Nested, c: string, kv: (string, Value)) returns (a: string)
    requires Refines(store, m) && AllApart(m.Keys + {c}) && InScan(store, c, kv)
    ensures ListenAt(m, c, kv, a)
  {
    a := ScannedAddr(store, m, c, kv.0);
  }

  ghost function AddrOf(m: Nested, c: string, kv: (string, Value)): string
    requires exists a :: ListenAt(m, c, kv, a)
  {
    var a :| ListenAt(m, c, kv, a);
    a
  }

  lemma DecodedAddrs(store: map<string, Value>, m: Nested, c: string, kvs: seq<(string, Value)>)
    returns (addrs: seq<string>)
    requires Refines(store, m) && AllApart(m.Keys + {c}) && forall i :: 0 <= i < |kvs| ==> InScan(store, c, kvs[i])
    ensures |addrs| == |kvs| && forall i :: 0 <= i < |kvs| ==> ListenAt(m, c, kvs[i], addrs[i])
  {
    forall i | 0 <= i < |kvs| ensures exists a :: ListenAt(m, c, kvs[i], a) {
      var a := DecodedAddr(store, m, c, kvs[i]);
    }
    addrs := seq(|kvs|, i requires 0 <= i < |kvs| => AddrOf(m, c, kvs[i]));
  }

  class EtcdClient {
    var store: map<string, Value>

    constructor ()
      ensures store == map[] && RefinesAll(store, NO_TABLES)
    {
      store := map[];
    }

    /** isHttp says whether the target address has the scheme http or https; t are the maps that the store stands for. */
    method AddListenWithTunnel(targetTunnelId: string, listenClientId: string, listenAddr: string,
                               targetAddr: string, isHttp: bool, ghost t: Tables)
      returns (listen: Listen)
      modifies this
      ensures listen == Listen(listenClientId, TunnelIdIn(old(store), listenClientId),
                               TerminalIn(old(store), targetTunnelId), targetTunnelId, listenAddr, targetAddr)
      ensures Filed(old(store), store, listen, isHttp && targetAddr != "")
      ensures RefinesAll(old(store), t) && AllApart(t.listens.Keys + {listenClientId}) ==>
        && RefinesAll(store, FiledTables(t, listen, isHttp && targetAddr != ""))
        && listen.listenTunnelId == TunnelIdOf(t, listenClientId)
        && listen.targetClientId == TerminalOf(t, targetTunnelId)
    {
      var listenTunnelId, targetClientId := LookUp(listenClientId, targetTunnelId);
      listen := Listen(listenClientId, listenTunnelId, targetClientId, targetTunnelId, listenAddr, targetAddr);
      ghost var before := store;
      store := store[ListenKey(listenClientId, listenAddr) := ListenValue(listen)];
      if targetAddr != "" && isHttp {
        store := store[KEY_DOMAIN_NAME + listenAddr := ListenValue(listen)];
      }
      ListenKeyIsNoName(listenClientId, listenAddr, listenAddr);
      assert Filed(before, store, listen, isHttp && targetAddr != "");
      if RefinesAll(before, t) && AllApart(t.listens.Keys + {listenClientId}) {
        ReadsFollowTables(before, t, listenClientId, targetTunnelId);
        FiledRefines(before, store, t, listen, isHttp && targetAddr != "");
      }
    }

    /** The listen of a host name; whatever else stands under its key reads as an empty listen. */
    method GetDomainInfo(domainName: string, ghost t: Tables) returns (listen: Option<Listen>)
      ensures listen == DomainInfo(store, domainName)
      ensures listen == None <==> "/zhangyu/domain/list/" + domainName !in store
      ensures RefinesAll(store, t) ==> listen == ListenIn(t.domains, domainName)
    {
      var key := KEY_DOMAIN_NAME + domainName;
      if RefinesAll(store, t) {
        NameGet(store, t.domains, domainName);
      }
      if key !in store {
        return None;
      }
      listen := Some(if store[key].ListenValue? then store[key].l else EMPTY_LISTEN);
    }

    /** GetClientRec and GetTunnel. */
    method LookUp(clientId: string, tunnelId: string) returns (tunnelOf: string, terminalOf: string)
      ensures tunnelOf == TunnelIdIn(store, clientId) && terminalOf == TerminalIn(store, tunnelId)
    {
      tunnelOf, terminalOf := "", "";
      var clientKey := KEY_RECORD + clientId;
      if clientKey in store && store[clientKey].ClientValue? {
        tunnelOf := store[clientKey].tunnelId;
      }
      var tunnelKey := KEY_TUNNEL + tunnelId;
      if tunnelKey in store && store[tunnelKey].TunnelValue? {
        terminalOf := store[tunnelKey].terminalId;
      }
    }

    /** kvs is the response of the store to the prefix scan, m the map that the store's listens stand for. */
    method GetTransferList(clientId: string, kvs: seq<(string, Value)>, ghost m: Nested) returns (list: seq<Listen>)
      requires IsRange(store, ListenKey(clientId, ""), kvs)
      ensures forall l :: l in list <==> Met(store, clientId, l)
      ensures Refines(store, m) && AllApart(m.Keys + {clientId}) ==>
        exists addrs :: Lists(ListensOf(m, clientId), addrs, list)
    {
      list := [];
      for i := 0 to |kvs|
        invariant list == Listens(kvs[..i])
      {
        var kv := kvs[i];
        assert kvs[..i + 1][..i] == kvs[..i];
        if kv.1.ListenValue? {
          list := list + [kv.1.l];
        }
      }
      assert kvs[..|kvs|] == kvs;
      ScanMeets(store, clientId, kvs);
      if Refines(store, m) && AllApart(m.Keys + {clientId}) {
        ghost var addrs := ScanLists(store, m, clientId, kvs);
      }
    }
  }

  lemma ScanIsComplete(store: map<string, Value>, m: Nested, c: string, kvs: seq<(string, Value)>, addrs: seq<string>)
    requires Refines(store, m) && AllApart(m.Keys + {c}) && IsRange(store, ListenKey(c, ""), kvs) && |addrs| == |kvs|
    requires forall j :: 0 <= j < |kvs| ==> Decoded(m, c, kvs[j], addrs[j], kvs[j].1.l)
    ensures forall i, j :: 0 <= i < j < |addrs| ==> addrs[i] != addrs[j]
    ensures forall a :: a in ListensOf(m, c) <==> a in addrs
  {
    forall a | a in ListensOf(m, c) ensures a in addrs {
      ListenScan(c, c, a);
      assert ListenKey(c, a) in store;
      var i :| 0 <= i < |kvs| && kvs[i].0 == ListenKey(c, a);
      assert IsListen(m, kvs[i].0, c, addrs[i]);
      ListenKeyInjective(c, a, c, addrs[i]);
    }
    forall i, j | 0 <= i < j < |addrs| ensures addrs[i] != addrs[j] {
      assert IsListen(m, kvs[i].0, c, addrs[i]) && IsListen(m, kvs[j].0, c, addrs[j]);
    }
    forall a | a in addrs ensures a in ListensOf(m, c) {
      var i :| 0 <= i < |addrs| && addrs[i] == a;
      assert IsListen(m, kvs[i].0, c, addrs[i]);
    }
  }
}
