/** The relay's list of agents per token: registration, routing and cleanup. */
module Registry {
  import opened Options

  type Token = string

  /** `key` is the identity of the connection; keys grow with registration order. */
  datatype Peer = Peer(key: nat, id: string, session: string)

  type Agents = map<Token, seq<Peer>>

  function List(m: Agents, t: Token): seq<Peer> { if t in m then m[t] else [] }

  predicate Taken(m: Agents, id: string) {
    exists t | t in m :: exists i | 0 <= i < |m[t]| :: m[t][i].id == id
  }

  /** The id a new agent gets: its own, or with a time stamp, or with a random suffix as well. */
  function AssignedId(m: Agents, id: string, stamp: string, random: string): string {
    if !Taken(m, id) then id
    else if !Taken(m, id + "-" + stamp) then id + "-" + stamp
    else id + "-" + stamp + "-" + random
  }

  function Add(m: Agents, t: Token, p: Peer): Agents {
    m[t := List(m, t) + [p]]
  }

  /** `retain` every other connection, and forget a token whose list became empty. */
  function Drop(m: Agents, t: Token, key: nat): Agents {
    if t !in m then m
    else
      var rest := Others(m[t], key);
      if rest == [] then m - {t} else m[t := rest]
  }

  function Others(ps: seq<Peer>, key: nat): seq<Peer> {
    if ps == [] then [] else (if ps[0].key == key then [] else [ps[0]]) + Others(ps[1..], key)
  }

  function FirstMatch(ps: seq<Peer>, target: string, idToo: bool): Option<Peer> {
    if ps == [] then None
    else if ps[0].session == target || (idToo && ps[0].id == target) then Some(ps[0])
    else FirstMatch(ps[1..], target, idToo)
  }

  /** Where a request of a bridge goes. */
  function Route(m: Agents, t: Token, target: Option<string>, session: Option<string>): Option<Peer> {
    var ps := List(m, t);
    if target.Some? then FirstMatch(ps, target.value, true)
    else if session.Some? then FirstMatch(ps, session.value, false)
    else if ps == [] then None else Some(ps[|ps| - 1])
  }

  // ----- the invariant

  ghost predicate Ascending(ps: seq<Peer>) {
    forall i, j | 0 <= i < j < |ps| :: ps[i].key < ps[j].key
  }

  ghost predicate InList(m: Agents, t: Token, key: nat) {
    exists p :: p in List(m, t) && p.key == key
  }

  /** `live` says which connections are up and with which token. */
  ghost predicate RegistryOk(m: Agents, live: map<nat, Token>, next: nat) {
    && (forall t | t in m :: m[t] != [] && Ascending(m[t]))
    && (forall key | key in live :: key < next)
    && (forall t: Token, key: nat :: InList(m, t, key) <==> key in live && live[key] == t)
  }

  ghost predicate DistinctIds(m: Agents) {
    forall t, u, p, q | t in m && u in m && p in m[t] && q in m[u] && p.id == q.id :: t == u && p == q
  }

  lemma TakenMeans(m: Agents, id: string)
    ensures Taken(m, id) <==> exists t, p :: t in m && p in m[t] && p.id == id
  {
    if t, p :| t in m && p in m[t] && p.id == id {
      var i :| 0 <= i < |m[t]| && m[t][i] == p;
      assert m[t][i].id == id;
    }
  }

  /** Every id a connecting agent could be given belongs to a connected agent already. */
  predicate AllTaken(m: Agents, id: string, stamp: string, random: string) {
    Taken(m, id) && Taken(m, id + "-" + stamp) && Taken(m, id + "-" + stamp + "-" + random)
  }

  lemma AssignedIdFreshIff(m: Agents, id: string, stamp: string, random: string)
    ensures Taken(m, AssignedId(m, id, stamp, random)) <==> AllTaken(m, id, stamp, random)
  {
  }

  /** The first candidate that nobody holds, in this order; the last one regardless. */
  lemma AssignedIdFirstFree(m: Agents, id: string, stamp: string, random: string)
    ensures var r, stamped := AssignedId(m, id, stamp, random), id + "-" + stamp;
      && (r == id <==> !Taken(m, id))
      && (r == stamped <==> Taken(m, id) && !Taken(m, stamped))
      && (r == stamped + "-" + random <==> Taken(m, id) && Taken(m, stamped))
  {
    var stamped := id + "-" + stamp;
    assert |id| < |stamped| < |stamped + "-" + random|;
  }

  lemma AddMember(m: Agents, t: Token, p: Peer, u: Token, x: Peer)
    ensures x in List(Add(m, t, p), u) <==> x in List(m, u) || (u == t && x == p)
  {
  }

  lemma AddValid(m: Agents, live: map<nat, Token>, next: nat, t: Token, p: Peer)
    requires RegistryOk(m, live, next) && p.key == next
    ensures RegistryOk(Add(m, t, p), live[next := t], next + 1)
  {
    var m' := Add(m, t, p);
    forall q | q in List(m, t) ensures q.key < next {
      assert InList(m, t, q.key);
    }
    forall u: Token, key: nat ensures InList(m', u, key) <==> key in live[next := t] && live[next := t][key] == u {
      AddInList(m, t, p, u, key);
      assert InList(m, u, key) <==> key in live && live[key] == u;
    }
  }

  lemma AddInList(m: Agents, t: Token, p: Peer, u: Token, key: nat)
    ensures InList(Add(m, t, p), u, key) <==> InList(m, u, key) || (u == t && key == p.key)
  {
    if x :| x in List(m, u) && x.key == key {
      AddMember(m, t, p, u, x);
    }
    if u == t && key == p.key {
      AddMember(m, t, p, u, p);
    }
    if x :| x in List(Add(m, t, p), u) && x.key == key {
      AddMember(m, t, p, u, x);
    }
  }

  lemma AddDistinct(m: Agents, t: Token, p: Peer)
    requires DistinctIds(m) && !Taken(m, p.id)
    ensures DistinctIds(Add(m, t, p))
  {
    var m' := Add(m, t, p);
    TakenMeans(m, p.id);
    forall a: Token, b: Token, x: Peer, y: Peer | a in m' && b in m' && x in m'[a] && y in m'[b] && x.id == y.id
      ensures a == b && x == y
    {
      AddMember(m, t, p, a, x);
      AddMember(m, t, p, b, y);
    }
  }

  lemma AddTaken(m: Agents, live: map<nat, Token>, next: nat, t: Token, p: Peer)
    requires RegistryOk(m, live, next) && p.key == next && Taken(m, p.id)
    ensures !DistinctIds(Add(m, t, p))
  {
    TakenMeans(m, p.id);
    var u, q :| u in m && q in m[u] && q.id == p.id;
    assert InList(m, u, q.key);
    AddMember(m, t, p, u, q);
    AddMember(m, t, p, t, p);
    SharedId(Add(m, t, p), t, p, u, q);
  }

  lemma SharedId(m: Agents, t: Token, p: Peer, u: Token, q: Peer)
    requires p in List(m, t) && q in List(m, u) && p.id == q.id && p != q
    ensures !DistinctIds(m)
  {
  }

  /** A connection keeps the ids distinct exactly unless all three of its candidates are taken. */
  lemma ConnectDistinctIff(m: Agents, live: map<nat, Token>, next: nat, t: Token, p: Peer,
                           id: string, stamp: string, random: string)
    requires RegistryOk(m, live, next) && DistinctIds(m)
    requires p.key == next && p.id == AssignedId(m, id, stamp, random)
    ensures DistinctIds(Add(m, t, p)) <==> !AllTaken(m, id, stamp, random)
  {
    AssignedIdFreshIff(m, id, stamp, random);
    if Taken(m, p.id) {
      AddTaken(m, live, next, t, p);
    } else {
      AddDistinct(m, t, p);
    }
  }

  /** Three agents under the names a fourth could get: it is given an id in use. */
  lemma SuffixCollides(m: Agents, p: Peer)
    requires m == map["t" := [Peer(0, "a", "x"), Peer(1, "a-1", "y"), Peer(2, "a-1-r", "z")]]
    requires p == Peer(3, AssignedId(m, "a", "1", "r"), "w")
    ensures p.id == "a-1-r" && !DistinctIds(Add(m, "t", p))
  {
    var ps := m["t"];
    assert "a" + "-" + "1" == "a-1" && "a-1" + "-" + "r" == "a-1-r";
    assert ps[0].id == "a" && ps[1].id == "a-1";
    AddMember(m, "t", p, "t", p);
    AddMember(m, "t", p, "t", ps[2]);
    SharedId(Add(m, "t", p), "t", p, "t", ps[2]);
  }

  lemma {:induction false} OthersMember(ps: seq<Peer>, key: nat)
    ensures forall x :: x in Others(ps, key) <==> x in ps && x.key != key
  {
    if ps == [] {
    } else {
      OthersMember(ps[1..], key);
    }
  }

  lemma {:induction false} OthersAscending(ps: seq<Peer>, key: nat)
    requires Ascending(ps)
    ensures Ascending(Others(ps, key))
  {
    if ps == [] {
    } else {
      OthersAscending(ps[1..], key);
      OthersMember(ps[1..], key);
      var rest := Others(ps[1..], key);
      forall j | 0 <= j < |rest| ensures ps[0].key < rest[j].key {
        assert rest[j] in ps[1..];
      }
    }
  }

  lemma DropInList(m: Agents, t: Token, key: nat, u: Token, k: nat)
    ensures InList(Drop(m, t, key), u, k) <==> InList(m, u, k) && !(u == t && k == key)
  {
    if t in m {
      OthersMember(m[t], key);
    }
    if x :| x in List(m, u) && x.key == k {
      if !(u == t && k == key) {
        assert x in List(Drop(m, t, key), u);
      }
    }
    if x :| x in List(Drop(m, t, key), u) && x.key == k {
      assert x in List(m, u);
    }
  }

  lemma DropValid(m: Agents, live: map<nat, Token>, next: nat, t: Token, key: nat)
    requires RegistryOk(m, live, next) && key in live && live[key] == t
    ensures RegistryOk(Drop(m, t, key), live - {key}, next)
  {
    var m', live' := Drop(m, t, key), live - {key};
    if t in m {
      OthersAscending(m[t], key);
    }
    forall u: Token, k: nat ensures InList(m', u, k) <==> k in live' && live'[k] == u {
      DropInList(m, t, key, u, k);
      assert InList(m, u, k) <==> k in live && live[k] == u;
    }
  }

  lemma DropDistinct(m: Agents, t: Token, key: nat)
    requires DistinctIds(m)
    ensures DistinctIds(Drop(m, t, key))
  {
    if t in m {
      OthersMember(m[t], key);
    }
  }

  // ----- routing

  lemma {:induction false} FirstMatchMember(ps: seq<Peer>, target: string, idToo: bool)
    ensures var r := FirstMatch(ps, target, idToo);
      if r.Some? then r.value in ps && (r.value.session == target || (idToo && r.value.id == target))
      else forall p | p in ps :: p.session != target && (idToo ==> p.id != target)
  {
    if ps == [] {
    } else {
      FirstMatchMember(ps[1..], target, idToo);
    }
  }

  /**
    A request reaches only a live agent of its own token: the newest one when it
    names none, one it names otherwise, and none exactly when there is no such agent.
   */
  lemma RouteSound(m: Agents, live: map<nat, Token>, next: nat, t: Token,
                   target: Option<string>, session: Option<string>)
    requires RegistryOk(m, live, next)
    ensures var r := Route(m, t, target, session);
      && (r.Some? ==> r.value.key in live && live[r.value.key] == t)
      && (target.None? && session.None? ==>
            && (r.None? <==> forall key | key in live :: live[key] != t)
            && (r.Some? ==> forall key | key in live && live[key] == t :: key <= r.value.key))
      && (target.None? && session.Some? ==>
            if r.Some? then r.value.session == session.value
            else forall p | p in List(m, t) :: p.session != session.value)
      && (target.Some? && r.Some? ==> r.value.id == target.value || r.value.session == target.value)
      && (target.Some? && r.None? ==> forall p | p in List(m, t) :: p.id != target.value && p.session != target.value)
  {
    var ps, r := List(m, t), Route(m, t, target, session);
    if target.Some? {
      FirstMatchMember(ps, target.value, true);
    } else if session.Some? {
      FirstMatchMember(ps, session.value, false);
    } else {
      forall key | key in live && live[key] == t ensures ps != [] && key <= ps[|ps| - 1].key {
        assert InList(m, t, key);
        var p :| p in ps && p.key == key;
        var i :| 0 <= i < |ps| && ps[i] == p;
      }
    }
    if r.Some? {
      assert InList(m, t, r.value.key);
    }
  }

  lemma {:induction false} FirstMatchAppend(ps: seq<Peer>, p: Peer, target: string, idToo: bool)
    requires p.session == target || (idToo && p.id == target)
    ensures FirstMatch(ps + [p], target, idToo)
         == if FirstMatch(ps, target, idToo).Some? then FirstMatch(ps, target, idToo) else Some(p)
  {
    if ps == [] {
      assert [p][1..] == [];
    } else {
      FirstMatchAppend(ps[1..], p, target, idToo);
      assert (ps + [p])[1..] == ps[1..] + [p];
    }
  }

  // ----- any connects and disconnects

  datatype Hub = Hub(agents: Agents, live: map<nat, Token>, next: nat)

  datatype Event =
    | Connect(token: Token, id: string, stamp: string, random: string, nonce: string)
    | Disconnect(key: nat)

  function NewPeer(h: Hub, e: Event): Peer
    requires e.Connect?
  {
    var id := AssignedId(h.agents, e.id, e.stamp, e.random);
    Peer(h.next, id, id + "-" + e.nonce)
  }

  function After(h: Hub, e: Event): Hub {
    match e
    case Connect(t, _, _, _, _) => Hub(Add(h.agents, t, NewPeer(h, e)), h.live[h.next := t], h.next + 1)
    case Disconnect(key) =>
      if key in h.live then Hub(Drop(h.agents, h.live[key], key), h.live - {key}, h.next) else h
  }

  /**
    Who connects under a name that nobody holds is reached by that name, unless it
    is the session of another agent of the token, and by its session likewise; and
    without any name until the next one connects.
   */
  lemma NewAgentReached(h: Hub, e: Event)
    requires RegistryOk(h.agents, h.live, h.next) && e.Connect?
    ensures var m', p := After(h, e).agents, NewPeer(h, e);
      && (!Taken(h.agents, e.id) ==>
            && p.id == e.id
            && (Route(m', e.token, Some(e.id), None) == Some(p)
                <==> forall q | q in List(h.agents, e.token) :: q.session != e.id))
      && (Route(m', e.token, None, Some(p.session)) == Some(p)
          <==> forall q | q in List(h.agents, e.token) :: q.session != p.session)
      && Route(m', e.token, None, None) == Some(p)
  {
    var ps, p := List(h.agents, e.token), NewPeer(h, e);
    forall q | q in ps ensures q != p {
      assert InList(h.agents, e.token, q.key);
    }
    if !Taken(h.agents, e.id) {
      TakenMeans(h.agents, e.id);
      FirstMatchAppend(ps, p, e.id, true);
      FirstMatchMember(ps, e.id, true);
    }
    FirstMatchAppend(ps, p, p.session, false);
    FirstMatchMember(ps, p.session, false);
  }

  ghost function AfterAll(h: Hub, es: seq<Event>): Hub
    decreases es
  {
    if es == [] then h else AfterAll(After(h, es[0]), es[1..])
  }

  /** Whenever an id and its time-stamped form were taken, the random suffix gave a new one. */
  ghost predicate SuffixesFresh(h: Hub, es: seq<Event>)
    decreases es
  {
    es == [] || (
      && (es[0].Connect? ==> !AllTaken(h.agents, es[0].id, es[0].stamp, es[0].random))
      && SuffixesFresh(After(h, es[0]), es[1..])
    )
  }

  ghost predicate AlwaysDistinct(h: Hub, es: seq<Event>)
    decreases es
  {
    DistinctIds(h.agents) && (es == [] || AlwaysDistinct(After(h, es[0]), es[1..]))
  }

  /**
    Each live agent is listed once, under its own token only. Ids are distinct
    all the way exactly if every random suffix that was needed was fresh.
   */
  lemma {:induction false} RegistryOverRuns(h: Hub, es: seq<Event>)
    requires RegistryOk(h.agents, h.live, h.next)
    ensures var h' := AfterAll(h, es); RegistryOk(h'.agents, h'.live, h'.next)
    ensures DistinctIds(h.agents) ==> (AlwaysDistinct(h, es) <==> SuffixesFresh(h, es))
    decreases es
  {
    if es == [] {
    } else {
      EventKeeps(h, es[0]);
      RegistryOverRuns(After(h, es[0]), es[1..]);
    }
  }

  lemma EventKeeps(h: Hub, e: Event)
    requires RegistryOk(h.agents, h.live, h.next)
    ensures var h' := After(h, e);
      && RegistryOk(h'.agents, h'.live, h'.next)
      && (DistinctIds(h.agents) ==>
            (DistinctIds(h'.agents) <==> e.Connect? ==> !AllTaken(h.agents, e.id, e.stamp, e.random)))
  {
    match e {
      case Connect(t, id, stamp, random, _) =>
        AddValid(h.agents, h.live, h.next, t, NewPeer(h, e));
        if DistinctIds(h.agents) {
          ConnectDistinctIff(h.agents, h.live, h.next, t, NewPeer(h, e), id, stamp, random);
        }
      case Disconnect(key) =>
        if key in h.live {
          DropValid(h.agents, h.live, h.next, h.live[key], key);
          if DistinctIds(h.agents) {
            DropDistinct(h.agents, h.live[key], key);
          }
        }
    }
  }

  /** Event k is the connection that gave `p` its place under `t`. */
  ghost predicate Joined(h: Hub, es: seq<Event>, k: nat, t: Token, p: Peer) {
    k < |es| && es[k].Connect? && es[k].token == t && p == NewPeer(AfterAll(h, es[..k]), es[k])
  }

  lemma {:induction false} ListedJoined(h: Hub, es: seq<Event>, t: Token, p: Peer)
    requires p in List(AfterAll(h, es).agents, t)
    ensures p in List(h.agents, t) || exists k: nat :: Joined(h, es, k, t, p)
    decreases es
  {
    if es == [] {
    } else {
      ListedJoined(After(h, es[0]), es[1..], t, p);
      if k: nat :| Joined(After(h, es[0]), es[1..], k, t, p) {
        assert es[..k + 1][0] == es[0] && es[..k + 1][1..] == es[1..][..k];
        assert Joined(h, es, k + 1, t, p);
      } else {
        ListedBefore(h, es[0], t, p);
        assert es[..0] == [];
        assert p in List(h.agents, t) || Joined(h, es, 0, t, p);
      }
    }
  }

  lemma ListedBefore(h: Hub, e: Event, t: Token, p: Peer)
    requires p in List(After(h, e).agents, t)
    ensures p in List(h.agents, t) || (e.Connect? && e.token == t && p == NewPeer(h, e))
  {
    if e.Connect? {
      AddMember(h.agents, e.token, NewPeer(h, e), t, p);
    } else if e.key in h.live && h.live[e.key] in h.agents {
      OthersMember(h.agents[h.live[e.key]], e.key);
    }
  }

  /**
    Over any connects and disconnects, a live agent goes by the name it gave when it
    connected exactly if no agent that was live then held that name.
   */
  lemma NamesKept(es: seq<Event>, t: Token, p: Peer)
    requires p in List(AfterAll(Hub(map[], map[], 0), es).agents, t)
    ensures exists k: nat :: Joined(Hub(map[], map[], 0), es, k, t, p)
              && (p.id == es[k].id <==> !Taken(AfterAll(Hub(map[], map[], 0), es[..k]).agents, es[k].id))
  {
    var h := Hub(map[], map[], 0);
    ListedJoined(h, es, t, p);
    var k: nat :| Joined(h, es, k, t, p);
    AssignedIdFirstFree(AfterAll(h, es[..k]).agents, es[k].id, es[k].stamp, es[k].random);
  }

  // ----- the relay object

  class Relay {
    var agents: Agents
    var nextKey: nat
    ghost var live: map<nat, Token>

    ghost predicate Valid()
      reads this
    {
      RegistryOk(agents, live, nextKey)
    }

    constructor ()
      ensures Valid() && agents == map[] && live == map[]
    {
      agents, nextKey, live := map[], 0, map[];
    }

    /** `stamp` and the random strings come from the clock and the generator. */
    method RegisterAgent(token: Token, id: string, stamp: string, random: string, nonce: string) returns (peer: Peer)
      requires Valid()
      modifies this
      ensures Valid() && live == old(live)[old(nextKey) := token]
      ensures peer.id == AssignedId(old(agents), id, stamp, random) && agents == Add(old(agents), token, peer)
      ensures peer.id == id <==> !Taken(old(agents), id)
      ensures peer.key == old(nextKey) < nextKey && peer.session == peer.id + "-" + nonce
      ensures DistinctIds(old(agents)) ==> (DistinctIds(agents) <==> !AllTaken(old(agents), id, stamp, random))
    {
      var newId := id;
      if Taken(agents, newId) {
        newId := id + "-" + stamp;
        if Taken(agents, newId) {
          newId := id + "-" + stamp + "-" + random;
        }
      }
      AssignedIdFirstFree(agents, id, stamp, random);
      peer := Peer(nextKey, newId, newId + "-" + nonce);
      AddValid(agents, live, nextKey, token, peer);
      if DistinctIds(agents) {
        ConnectDistinctIff(agents, live, nextKey, token, peer, id, stamp, random);
      }
      agents := agents[token := List(agents, token) + [peer]];
      live := live[nextKey := token];
      nextKey := nextKey + 1;
    }

    /** Cleanup when the agent's read loop ends; true when it was still listed. */
    method UnregisterAgent(token: Token, key: nat) returns (removed: bool)
      requires Valid() && key in live && live[key] == token
      modifies this
      ensures Valid() && live == old(live) - {key} && agents == Drop(old(agents), token, key)
      ensures removed && (DistinctIds(old(agents)) ==> DistinctIds(agents))
    {
      DropValid(agents, live, nextKey, token, key);
      if DistinctIds(agents) {
        DropDistinct(agents, token, key);
      }
      assert InList(agents, token, key);
      OthersShorter(List(agents, token), key);
      removed := false;
      if token in agents {
        var list := Others(agents[token], key);
        removed := |list| < |agents[token]|;
        agents := if list == [] then agents - {token} else agents[token := list];
      }
      live := live - {key};
    }
  }

  lemma {:induction false} OthersShorter(ps: seq<Peer>, key: nat)
    ensures |Others(ps, key)| <= |ps|
    ensures (exists p :: p in ps && p.key == key) ==> |Others(ps, key)| < |ps|
  {
    if ps == [] {
    } else {
      OthersShorter(ps[1..], key);
      if p :| p in ps && p.key == key {
        assert p == ps[0] || p in ps[1..];
      }
    }
  }
}
