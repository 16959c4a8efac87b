/**
  A bridge, the relay and the agents, over FIFO links that may be cut at any time.

  Requests may be reordered freely (the agents run them concurrently anyway);
  answers keep the order of each link. A connection number names one WebSocket,
  so it is never reused. `shared` says that a second bridge uses the same token.
 */
module Rpc {
  import opened RpcClient

  datatype Request = Request(conn: nat, id: nat)

  datatype Delivery = Delivery(agent: nat, id: nat)

  /** An agent task, what its handler produced, and the answers it has still to send. */
  datatype Task = Task(agent: nat, waited: bool, result: string, plan: seq<string>)

  /** `dispatch` answers once; a waited command has by then answered by itself already. */
  function AnswersOf(waited: bool, result: string): seq<string> {
    if waited then [result, "null"] else [result]
  }

  datatype State = State(
    shared: bool,
    calls: Calls,
    unsent: set<nat>,                  // entered in the pending map, frame not written yet
    conn: nat, dialing: bool, reading: bool, sinkOpen: bool,
    up: set<Request>,                  // bridge to relay
    down: map<nat, seq<Reply>>,        // relay to bridge, per connection
    registered: set<nat>,              // connections in the relay's bridge list
    nextAgent: nat,
    inbox: set<Delivery>,              // relay to agents
    outbox: map<nat, seq<Reply>>,      // agents to relay, per live agent connection
    tasks: map<nat, Task>,
    // what happened, kept for the statements only
    chan: map<nat, nat>,               // connection each request was written to
    gap: set<nat>,                     // requests written after that connection's read loop had ended
    owner: map<nat, nat>,              // agent each request was routed to
    refused: set<nat>,                 // requests the relay answered itself
    sent: map<nat, seq<string>>)       // answers each request's task sent, in order

  datatype Step =
    | StartCall
    | WriteFrame(id: nat)
    | AbortCall(id: nat)               // offline, send error or timeout
    | Route(req: Request, agent: nat)
    | Refuse(req: Request)
    | StartTask(d: Delivery, waited: bool, result: string)
    | Answer(id: nat)
    | Forward(agent: nat)
    | Receive
    | EndReadLoop
    | CloseSink
    | Dial
    | Connected(skipped: nat)          // frames before the acknowledgement are skipped
    | DropBridge(conn: nat)
    | AgentUp
    | AgentDown(agent: nat)
    | ForeignReply(reply: Reply)       // answer to the other bridge's request

  function Queue(m: map<nat, seq<Reply>>, k: nat): seq<Reply> { if k in m then m[k] else [] }

  function Bodies(m: map<nat, seq<string>>, id: nat): seq<string> { if id in m then m[id] else [] }

  /** Push a reply to every registered bridge connection. */
  function Broadcast(down: map<nat, seq<Reply>>, to: set<nat>, r: Reply): map<nat, seq<Reply>> {
    map c | c in down.Keys + to :: if c in to then Queue(down, c) + [r] else Queue(down, c)
  }

  ghost predicate Enabled(s: State, step: Step) {
    match step
    case StartCall => true
    case WriteFrame(id) => id in s.unsent && s.sinkOpen
    case AbortCall(id) => id in s.calls.pending || id in s.unsent
    case Route(req, agent) => req in s.up && req.conn in s.registered && agent in s.outbox
    case Refuse(req) => req in s.up && req.conn in s.registered
    case StartTask(d, _, _) => d in s.inbox && d.agent in s.outbox
    case Answer(id) => id in s.tasks && s.tasks[id].plan != [] && s.tasks[id].agent in s.outbox
    case Forward(agent) => agent in s.outbox && s.outbox[agent] != []
    case Receive => s.reading && Queue(s.down, s.conn) != []
    case EndReadLoop => s.reading
    case CloseSink => !s.reading && s.sinkOpen
    case Dial => !s.reading && !s.sinkOpen
    case Connected(skipped) => s.dialing && !s.reading && !s.sinkOpen && skipped <= |Queue(s.down, s.conn)|
    case DropBridge(c) => c in s.registered
    case AgentUp => true
    case AgentDown(agent) => agent in s.outbox
    case ForeignReply(r) => s.shared && r.fromAgent
  }

  ghost function Do(s: State, step: Step): State
    requires Enabled(s, step)
  {
    match step
    case StartCall =>
      s.(calls := Start(s.calls), unsent := s.unsent + {s.calls.nextId})
    case WriteFrame(id) =>
      s.(unsent := s.unsent - {id}, up := s.up + {Request(s.conn, id)}, chan := s.chan[id := s.conn],
         gap := if s.reading then s.gap else s.gap + {id})
    case AbortCall(id) =>
      s.(calls := End(s.calls, id, Failed), unsent := s.unsent - {id})
    case Route(req, agent) =>
      s.(up := s.up - {req}, inbox := s.inbox + {Delivery(agent, req.id)}, owner := s.owner[req.id := agent])
    case Refuse(req) =>
      s.(up := s.up - {req}, refused := s.refused + {req.id},
         down := s.down[req.conn := Queue(s.down, req.conn) + [Reply(req.id, false, "agent is not connected")]])
    case StartTask(d, waited, result) =>
      s.(inbox := s.inbox - {d}, tasks := s.tasks[d.id := Task(d.agent, waited, result, AnswersOf(waited, result))])
    case Answer(id) =>
      var task := s.tasks[id];
      s.(tasks := s.tasks[id := task.(plan := task.plan[1..])],
         outbox := s.outbox[task.agent := s.outbox[task.agent] + [Reply(id, true, task.plan[0])]],
         sent := s.sent[id := Bodies(s.sent, id) + [task.plan[0]]])
    case Forward(agent) =>
      s.(outbox := s.outbox[agent := s.outbox[agent][1..]],
         down := Broadcast(s.down, s.registered, s.outbox[agent][0]))
    case Receive =>
      var r := s.down[s.conn][0];
      s.(down := s.down[s.conn := s.down[s.conn][1..]], calls := End(s.calls, r.id, Answered(r)))
    case EndReadLoop =>
      s.(reading := false, calls := EndAll(s.calls))
    case CloseSink =>
      s.(sinkOpen := false)
    case Dial =>
      s.(conn := s.conn + 1, dialing := true, registered := s.registered + {s.conn + 1},
         down := s.down[s.conn + 1 := []])
    case Connected(skipped) =>
      s.(dialing := false, reading := true, sinkOpen := true,
         down := s.down[s.conn := Queue(s.down, s.conn)[skipped..]])
    case DropBridge(c) =>
      s.(registered := s.registered - {c})
    case AgentUp =>
      s.(nextAgent := s.nextAgent + 1, outbox := s.outbox[s.nextAgent := []])
    case AgentDown(agent) =>
      s.(outbox := s.outbox - {agent})
    case ForeignReply(r) =>
      s.(down := Broadcast(s.down, s.registered, r))
  }

  ghost predicate Init(s: State) {
    && s.calls == Calls(1, {}, map[]) && s.unsent == {} && !s.dialing && !s.reading && !s.sinkOpen
    && s.up == {} && s.down == map[] && s.registered == {} && s.inbox == {} && s.outbox == map[]
    && s.tasks == map[] && s.chan == map[] && s.gap == {} && s.owner == map[] && s.refused == {} && s.sent == map[]
  }

  ghost predicate Runs(s: State, steps: seq<Step>)
    decreases |steps|
  {
    steps == [] || (Enabled(s, steps[0]) && Runs(Do(s, steps[0]), steps[1..]))
  }

  ghost function Exec(s: State, steps: seq<Step>): State
    requires Runs(s, steps)
    decreases |steps|
  {
    if steps == [] then s else Exec(Do(s, steps[0]), steps[1..])
  }

  ghost predicate Reachable(s: State) {
    exists s0, steps :: Init(s0) && Runs(s0, steps) && Exec(s0, steps) == s
  }

  // ----- the invariant, one id at a time

  /** The agent answers to `id` on a link, oldest first. */
  ghost function Of(rs: seq<Reply>, id: nat): seq<string> {
    if rs == [] then []
    else (if rs[0].fromAgent && rs[0].id == id then [rs[0].body] else []) + Of(rs[1..], id)
  }

  /** A request exists in at most one place, and only after it was written. */
  ghost predicate PlaceOk(s: State, id: nat) {
    && (id in s.unsent ==> id !in s.chan && 1 <= id < s.calls.nextId)
    && (id in s.chan ==> id < s.calls.nextId && s.chan[id] <= s.conn)
    && (forall req | req in s.up && req.id == id ::
          id in s.chan && s.chan[id] == req.conn && id !in s.owner && id !in s.refused)
    && (id in s.owner ==> id in s.chan && id !in s.refused && s.owner[id] < s.nextAgent)
    && (id in s.refused ==> id in s.chan)
    && (forall d | d in s.inbox && d.id == id :: id in s.owner && s.owner[id] == d.agent && id !in s.tasks)
    && (id in s.tasks ==>
          && id in s.owner && s.owner[id] == s.tasks[id].agent
          && Bodies(s.sent, id) + s.tasks[id].plan == AnswersOf(s.tasks[id].waited, s.tasks[id].result))
    && (id in s.sent ==> id in s.tasks)
    && (id in s.gap ==> id in s.chan)
  }

  /** Answers on any link belong to requests that were routed, or refused by the relay. */
  ghost predicate AgentLinkOk(s: State, a: nat) {
    a in s.outbox ==>
      && a < s.nextAgent
      && forall k | 0 <= k < |s.outbox[a]| ::
           var r := s.outbox[a][k]; r.fromAgent && r.id in s.owner && s.owner[r.id] == a
  }

  ghost predicate BridgeLinkOk(s: State, c: nat) {
    && (c in s.registered || c in s.down ==> c <= s.conn)
    && forall r | r in Queue(s.down, c) :: if r.fromAgent then s.shared || r.id in s.owner else r.id in s.refused
  }

  /** For a waiting call written while its connection was read: nothing was lost out of order. */
  ghost predicate InOrder(s: State, id: nat) {
    id in s.calls.pending && id in s.chan && id !in s.gap ==>
      && s.reading && s.chan[id] == s.conn
      && Of(Queue(s.down, s.conn), id) <= Bodies(s.sent, id)
      && (s.conn in s.registered && id in s.owner && s.owner[id] in s.outbox ==>
            Of(Queue(s.down, s.conn), id) + Of(s.outbox[s.owner[id]], id) == Bodies(s.sent, id))
  }

  ghost predicate EndedOk(s: State, id: nat) {
    id in s.calls.ended && s.calls.ended[id].Answered? ==>
      var r := s.calls.ended[id].reply;
      r.id == id && if r.fromAgent then s.shared || id in s.owner else id in s.refused
  }

  /** An answer from an agent is the result of the call's own request. */
  ghost predicate ResultOk(s: State, id: nat) {
    id in s.calls.ended && s.calls.ended[id].Answered? && s.calls.ended[id].reply.fromAgent ==>
      id in s.tasks && s.calls.ended[id].reply.body == s.tasks[id].result
  }

  ghost predicate IdOk(s: State, id: nat) {
    && PlaceOk(s, id) && EndedOk(s, id)
    && (!s.shared ==> InOrder(s, id) && (id !in s.gap ==> ResultOk(s, id)))
  }

  ghost predicate Inv(s: State) {
    && 1 <= s.calls.nextId && CallsOk(s.calls)
    && (forall id: nat :: IdOk(s, id))
    && (forall a: nat :: AgentLinkOk(s, a))
    && (forall c: nat :: BridgeLinkOk(s, c))
  }

  // ----- facts about links

  lemma {:induction false} OfAppend(rs: seq<Reply>, r: Reply, id: nat)
    ensures Of(rs + [r], id) == Of(rs, id) + (if r.fromAgent && r.id == id then [r.body] else [])
  {
    var all := rs + [r];
    if rs == [] {
      assert all == [r] && all[1..] == [];
    } else {
      OfAppend(rs[1..], r, id);
      assert all[0] == rs[0] && all[1..] == rs[1..] + [r];
      var head := if rs[0].fromAgent && rs[0].id == id then [rs[0].body] else [];
      var tail := if r.fromAgent && r.id == id then [r.body] else [];
      assert (head + Of(rs[1..], id)) + tail == head + (Of(rs[1..], id) + tail);
    }
  }

  lemma OfSkip(rs: seq<Reply>, r: Reply, id: nat)
    requires !(r.fromAgent && r.id == id)
    ensures Of(rs + [r], id) == Of(rs, id)
  {
    OfAppend(rs, r, id);
    assert Of(rs, id) + [] == Of(rs, id);
  }

  lemma {:induction false} OfNone(rs: seq<Reply>, id: nat)
    requires forall r | r in rs :: !(r.fromAgent && r.id == id)
    ensures Of(rs, id) == []
  {
    if rs == [] {
    } else {
      OfNone(rs[1..], id);
    }
  }

  /** A request that was not routed has no agent answer on any link. */
  lemma NoReplies(s: State, id: nat, c: nat)
    requires Inv(s) && id !in s.owner && !s.shared
    ensures Of(Queue(s.down, c), id) == [] && Bodies(s.sent, id) == []
    ensures forall a | a in s.outbox :: Of(s.outbox[a], id) == []
  {
    assert BridgeLinkOk(s, c);
    OfNone(Queue(s.down, c), id);
    assert IdOk(s, id);
    forall a | a in s.outbox ensures Of(s.outbox[a], id) == [] {
      assert AgentLinkOk(s, a);
      OfNone(s.outbox[a], id);
    }
  }

  // ----- steps that move no answer

  lemma CallStepInv(s: State, step: Step)
    requires Inv(s) && Enabled(s, step) && (step.StartCall? || step.EndReadLoop? || step.CloseSink?)
    ensures Inv(Do(s, step))
  {
    var s' := Do(s, step);
    StartOk(s.calls);
    EndAllOk(s.calls);
    forall id: nat ensures IdOk(s', id) {
      assert IdOk(s, id);
    }
    forall a: nat ensures AgentLinkOk(s', a) {
      assert AgentLinkOk(s, a);
    }
    forall c: nat ensures BridgeLinkOk(s', c) {
      assert BridgeLinkOk(s, c);
    }
  }

  lemma AbortCallInv(s: State, id: nat)
    requires Inv(s) && Enabled(s, AbortCall(id))
    ensures Inv(Do(s, AbortCall(id)))
  {
    var s' := Do(s, AbortCall(id));
    EndOk(s.calls, id, Failed);
    forall x: nat ensures IdOk(s', x) {
      assert IdOk(s, x);
    }
    forall a: nat ensures AgentLinkOk(s', a) {
      assert AgentLinkOk(s, a);
    }
    forall c: nat ensures BridgeLinkOk(s', c) {
      assert BridgeLinkOk(s, c);
    }
  }

  lemma WriteFrameInv(s: State, id: nat)
    requires Inv(s) && Enabled(s, WriteFrame(id))
    ensures Inv(Do(s, WriteFrame(id)))
  {
    var s' := Do(s, WriteFrame(id));
    assert IdOk(s, id);
    if !s.shared {
      NoReplies(s, id, s.conn);
    }
    forall x: nat ensures IdOk(s', x) {
      assert IdOk(s, x);
    }
    forall a: nat ensures AgentLinkOk(s', a) {
      assert AgentLinkOk(s, a);
    }
    forall c: nat ensures BridgeLinkOk(s', c) {
      assert BridgeLinkOk(s, c);
    }
  }

  lemma RouteInv(s: State, req: Request, agent: nat)
    requires Inv(s) && Enabled(s, Route(req, agent))
    ensures Inv(Do(s, Route(req, agent)))
  {
    var s' := Do(s, Route(req, agent));
    assert IdOk(s, req.id) && AgentLinkOk(s, agent);
    if !s.shared {
      NoReplies(s, req.id, s.conn);
    }
    forall x: nat ensures IdOk(s', x) {
      assert IdOk(s, x);
    }
    forall a: nat ensures AgentLinkOk(s', a) {
      assert AgentLinkOk(s, a);
    }
    forall c: nat ensures BridgeLinkOk(s', c) {
      assert BridgeLinkOk(s, c);
    }
  }

  lemma StartTaskInv(s: State, d: Delivery, waited: bool, result: string)
    requires Inv(s) && Enabled(s, StartTask(d, waited, result))
    ensures Inv(Do(s, StartTask(d, waited, result)))
  {
    var s' := Do(s, StartTask(d, waited, result));
    assert IdOk(s, d.id);
    assert Bodies(s.sent, d.id) == [];
    assert [] + AnswersOf(waited, result) == AnswersOf(waited, result);
    forall x: nat ensures IdOk(s', x) {
      assert IdOk(s, x);
    }
    forall a: nat ensures AgentLinkOk(s', a) {
      assert AgentLinkOk(s, a);
    }
    forall c: nat ensures BridgeLinkOk(s', c) {
      assert BridgeLinkOk(s, c);
    }
  }

  // ----- steps that move answers

  lemma RefuseInOrder(s: State, req: Request, x: nat)
    requires Inv(s) && Enabled(s, Refuse(req)) && !s.shared
    ensures InOrder(Do(s, Refuse(req)), x)
  {
    assert IdOk(s, x);
    OfSkip(Queue(s.down, req.conn), Reply(req.id, false, "agent is not connected"), x);
    assert Of(Queue(Do(s, Refuse(req)).down, s.conn), x) == Of(Queue(s.down, s.conn), x);
  }

  lemma RefuseInv(s: State, req: Request)
    requires Inv(s) && Enabled(s, Refuse(req))
    ensures Inv(Do(s, Refuse(req)))
  {
    var s' := Do(s, Refuse(req));
    assert IdOk(s, req.id);
    forall x: nat ensures IdOk(s', x) {
      assert IdOk(s, x);
      if !s.shared {
        RefuseInOrder(s, req, x);
      }
    }
    forall a: nat ensures AgentLinkOk(s', a) {
      assert AgentLinkOk(s, a);
    }
    forall c: nat ensures BridgeLinkOk(s', c) {
      assert BridgeLinkOk(s, c);
    }
  }

  lemma AnswerInOrder(s: State, id: nat, x: nat)
    requires Inv(s) && Enabled(s, Answer(id)) && !s.shared
    ensures InOrder(Do(s, Answer(id)), x)
  {
    var a0, body := s.tasks[id].agent, s.tasks[id].plan[0];
    assert IdOk(s, id) && IdOk(s, x);
    if x == id {
      AnswerAppends(Of(Queue(s.down, s.conn), x), s.outbox[a0], Bodies(s.sent, x), id, body);
    } else {
      OfSkip(s.outbox[a0], Reply(id, true, body), x);
    }
  }

  /** A further answer goes behind the ones already on the link. */
  lemma AnswerAppends(d: seq<string>, out: seq<Reply>, sent: seq<string>, id: nat, body: string)
    ensures d <= sent ==> d <= sent + [body]
    ensures d + Of(out, id) == sent ==> d + Of(out + [Reply(id, true, body)], id) == sent + [body]
  {
    OfAppend(out, Reply(id, true, body), id);
    assert d + (Of(out, id) + [body]) == (d + Of(out, id)) + [body];
  }

  /** The answer moves from the task's plan to what it has sent. */
  lemma AnswerPlace(s: State, id: nat, x: nat)
    requires Inv(s) && Enabled(s, Answer(id))
    ensures PlaceOk(Do(s, Answer(id)), x)
  {
    assert IdOk(s, id) && IdOk(s, x);
    var plan, done := s.tasks[id].plan, Bodies(s.sent, id);
    assert done + plan == (done + [plan[0]]) + plan[1..];
  }

  lemma AnswerInv(s: State, id: nat)
    requires Inv(s) && Enabled(s, Answer(id))
    ensures Inv(Do(s, Answer(id)))
  {
    var s' := Do(s, Answer(id));
    assert IdOk(s, id);
    forall x: nat ensures IdOk(s', x) {
      assert IdOk(s, x);
      AnswerPlace(s, id, x);
      if !s.shared {
        AnswerInOrder(s, id, x);
      }
    }
    forall a: nat ensures AgentLinkOk(s', a) {
      assert AgentLinkOk(s, a);
    }
    forall c: nat ensures BridgeLinkOk(s', c) {
      assert BridgeLinkOk(s, c);
    }
  }

  /** Forwarding moves the oldest answer of a link behind those already on the way. */
  lemma ForwardShift(d: seq<string>, out: seq<Reply>, sent: seq<string>, x: nat)
    requires out != [] && d + Of(out, x) == sent
    ensures var r := out[0];
      var d' := d + (if r.fromAgent && r.id == x then [r.body] else []);
      d' + Of(out[1..], x) == sent && d' <= sent
  {
    var r := out[0];
    if r.fromAgent && r.id == x {
      assert d + ([r.body] + Of(out[1..], x)) == (d + [r.body]) + Of(out[1..], x);
    } else {
      assert Of(out, x) == Of(out[1..], x);
      assert d + [] == d;
    }
  }

  /** The connection being read is listed: the answer joins the end of its queue. */
  lemma ForwardListed(s: State, agent: nat, x: nat)
    requires Inv(s) && Enabled(s, Forward(agent)) && !s.shared && s.conn in s.registered
    ensures InOrder(Do(s, Forward(agent)), x)
  {
    var s', r := Do(s, Forward(agent)), s.outbox[agent][0];
    assert IdOk(s, x) && AgentLinkOk(s, agent);
    var d := Of(Queue(s.down, s.conn), x);
    assert Queue(s'.down, s.conn) == Queue(s.down, s.conn) + [r];
    if r.id == x {
      OfAppend(Queue(s.down, s.conn), r, x);
      if d + Of(s.outbox[agent], x) == Bodies(s.sent, x) {
        ForwardShift(d, s.outbox[agent], Bodies(s.sent, x), x);
      }
    } else {
      OfSkip(Queue(s.down, s.conn), r, x);
      assert Of(s.outbox[agent], x) == Of(s.outbox[agent][1..], x);
    }
  }

  lemma ForwardInOrder(s: State, agent: nat, x: nat)
    requires Inv(s) && Enabled(s, Forward(agent)) && !s.shared
    ensures InOrder(Do(s, Forward(agent)), x)
  {
    if s.conn in s.registered {
      ForwardListed(s, agent, x);
    } else {
      assert IdOk(s, x);
      assert Queue(Do(s, Forward(agent)).down, s.conn) == Queue(s.down, s.conn);
    }
  }

  lemma ForwardInv(s: State, agent: nat)
    requires Inv(s) && Enabled(s, Forward(agent))
    ensures Inv(Do(s, Forward(agent)))
  {
    var s' := Do(s, Forward(agent));
    assert AgentLinkOk(s, agent);
    forall x: nat ensures IdOk(s', x) {
      assert IdOk(s, x);
      if !s.shared {
        ForwardInOrder(s, agent, x);
      }
    }
    forall a: nat ensures AgentLinkOk(s', a) {
      assert AgentLinkOk(s, a);
    }
    forall c: nat ensures BridgeLinkOk(s', c) {
      assert BridgeLinkOk(s, c);
    }
  }

  /** The oldest answer on its way to a waiting call is its own result. */
  lemma HeadIsResult(s: State, x: nat)
    requires Inv(s) && Enabled(s, Receive) && !s.shared && x in s.calls.pending && x !in s.gap
    requires var r := s.down[s.conn][0]; r.fromAgent && r.id == x
    ensures x in s.tasks && s.down[s.conn][0].body == s.tasks[x].result
  {
    var r, answers := s.down[s.conn][0], Bodies(s.sent, x);
    assert BridgeLinkOk(s, s.conn) && r in Queue(s.down, s.conn);
    assert IdOk(s, x);
    assert Of(Queue(s.down, s.conn), x)[0] == r.body;
    assert answers[0] == r.body && (answers + s.tasks[x].plan)[0] == answers[0];
  }

  lemma ReceiveInOrder(s: State, x: nat)
    requires Inv(s) && Enabled(s, Receive) && !s.shared
    ensures InOrder(Do(s, Receive), x)
  {
    var rs := s.down[s.conn];
    assert IdOk(s, x);
    assert rs[0].id != x ==> Of(rs, x) == Of(rs[1..], x);
  }

  lemma ReceiveId(s: State, x: nat)
    requires Inv(s) && Enabled(s, Receive)
    ensures IdOk(Do(s, Receive), x)
  {
    var r := s.down[s.conn][0];
    assert BridgeLinkOk(s, s.conn) && r in Queue(s.down, s.conn);
    assert IdOk(s, x);
    if !s.shared {
      ReceiveInOrder(s, x);
      if r.fromAgent && r.id == x && x in s.calls.pending && x !in s.gap {
        HeadIsResult(s, x);
      }
    }
  }

  lemma ReceiveInv(s: State)
    requires Inv(s) && Enabled(s, Receive)
    ensures Inv(Do(s, Receive))
  {
    var s', r := Do(s, Receive), s.down[s.conn][0];
    EndOk(s.calls, r.id, Answered(r));
    forall x: nat ensures IdOk(s', x) {
      ReceiveId(s, x);
    }
    forall a: nat ensures AgentLinkOk(s', a) {
      assert AgentLinkOk(s, a);
    }
    forall c: nat ensures BridgeLinkOk(s', c) {
      assert BridgeLinkOk(s, c);
    }
  }

  lemma ConnectionInv(s: State, step: Step)
    requires Inv(s) && Enabled(s, step) && (step.Dial? || step.Connected? || step.DropBridge?)
    ensures Inv(Do(s, step))
  {
    var s' := Do(s, step);
    forall x: nat ensures IdOk(s', x) {
      assert IdOk(s, x);
    }
    forall a: nat ensures AgentLinkOk(s', a) {
      assert AgentLinkOk(s, a);
    }
    forall c: nat ensures BridgeLinkOk(s', c) {
      assert BridgeLinkOk(s, c);
    }
  }

  lemma AgentUpId(s: State, x: nat)
    requires Inv(s)
    ensures IdOk(Do(s, AgentUp), x)
  {
    assert IdOk(s, x);
  }

  lemma AgentUpInv(s: State)
    requires Inv(s)
    ensures Inv(Do(s, AgentUp))
  {
    var s' := Do(s, AgentUp);
    forall x: nat ensures IdOk(s', x) {
      AgentUpId(s, x);
    }
    forall a: nat ensures AgentLinkOk(s', a) {
      assert AgentLinkOk(s, a);
    }
    forall c: nat ensures BridgeLinkOk(s', c) {
      assert BridgeLinkOk(s, c);
    }
  }

  lemma AgentDownId(s: State, agent: nat, x: nat)
    requires Inv(s) && Enabled(s, AgentDown(agent))
    ensures IdOk(Do(s, AgentDown(agent)), x)
  {
    assert IdOk(s, x);
  }

  lemma AgentDownInv(s: State, agent: nat)
    requires Inv(s) && Enabled(s, AgentDown(agent))
    ensures Inv(Do(s, AgentDown(agent)))
  {
    var s' := Do(s, AgentDown(agent));
    forall x: nat ensures IdOk(s', x) {
      AgentDownId(s, agent, x);
    }
    forall a: nat ensures AgentLinkOk(s', a) {
      assert AgentLinkOk(s, a);
    }
    forall c: nat ensures BridgeLinkOk(s', c) {
      assert BridgeLinkOk(s, c);
    }
  }

  lemma ForeignReplyInv(s: State, r: Reply)
    requires Inv(s) && Enabled(s, ForeignReply(r))
    ensures Inv(Do(s, ForeignReply(r)))
  {
    var s' := Do(s, ForeignReply(r));
    forall x: nat ensures IdOk(s', x) {
      assert IdOk(s, x);
    }
    forall a: nat ensures AgentLinkOk(s', a) {
      assert AgentLinkOk(s, a);
    }
    forall c: nat ensures BridgeLinkOk(s', c) {
      assert BridgeLinkOk(s, c);
    }
  }

  lemma StepInv(s: State, step: Step)
    requires Inv(s) && Enabled(s, step)
    ensures Inv(Do(s, step))
  {
    match step
    case WriteFrame(id) => WriteFrameInv(s, id);
    case Route(req, agent) => RouteInv(s, req, agent);
    case Refuse(req) => RefuseInv(s, req);
    case StartTask(d, waited, result) => StartTaskInv(s, d, waited, result);
    case Answer(id) => AnswerInv(s, id);
    case Forward(agent) => ForwardInv(s, agent);
    case Receive => ReceiveInv(s);
    case StartCall => CallStepInv(s, step);
    case AbortCall(id) => AbortCallInv(s, id);
    case EndReadLoop => CallStepInv(s, step);
    case CloseSink => CallStepInv(s, step);
    case AgentUp => AgentUpInv(s);
    case AgentDown(agent) => AgentDownInv(s, agent);
    case ForeignReply(r) => ForeignReplyInv(s, r);
    case _ => ConnectionInv(s, step);
  }

  lemma {:induction false} RunInv(s: State, steps: seq<Step>)
    requires Inv(s) && Runs(s, steps)
    ensures Inv(Exec(s, steps)) && Later(s.calls, Exec(s, steps).calls) && Exec(s, steps).shared == s.shared
    decreases |steps|
  {
    if steps == [] {
    } else {
      StepInv(s, steps[0]);
      StepCalls(s, steps[0]);
      RunInv(Do(s, steps[0]), steps[1..]);
    }
  }

  lemma InitInv(s: State)
    requires Init(s)
    ensures Inv(s)
  {
  }

  // ----- what callers get

  lemma StepCalls(s: State, step: Step)
    requires 1 <= s.calls.nextId && CallsOk(s.calls) && Enabled(s, step)
    ensures var s' := Do(s, step);
      1 <= s'.calls.nextId && CallsOk(s'.calls) && Later(s.calls, s'.calls) && s'.shared == s.shared
  {
    StartOk(s.calls);
    EndAllOk(s.calls);
    match step
    case AbortCall(id) => EndOk(s.calls, id, Failed);
    case Receive => EndOk(s.calls, s.down[s.conn][0].id, Answered(s.down[s.conn][0]));
    case _ =>
  }

  /** Over any run, cut links and second bridges included: every call is pending or ended, and ends once. */
  lemma {:induction false} CallsEndOnce(s: State, steps: seq<Step>)
    requires 1 <= s.calls.nextId && CallsOk(s.calls) && Runs(s, steps)
    ensures CallsOk(Exec(s, steps).calls) && Later(s.calls, Exec(s, steps).calls)
    decreases |steps|
  {
    if steps == [] {
    } else {
      StepCalls(s, steps[0]);
      CallsEndOnce(Do(s, steps[0]), steps[1..]);
    }
  }

  /** A call that is given up, or waits when its read loop ends, has failed for good, whatever arrives later. */
  lemma FailedForGood(s: State, id: nat, step: Step, steps: seq<Step>)
    requires Reachable(s) && Enabled(s, step) && id in s.calls.pending && (step == AbortCall(id) || step.EndReadLoop?)
    requires Runs(Do(s, step), steps)
    ensures var c := Exec(Do(s, step), steps).calls; id !in c.pending && id in c.ended && c.ended[id] == Failed
  {
    ReachableInv(s);
    StepCalls(s, step);
    CallsEndOnce(Do(s, step), steps);
  }

  /**
    With one bridge per token: a call whose frame was written while its
    connection was being read gets the result of its own request, or the relay's
    own answer when no agent ever saw the request. The null that follows a waited
    command's result, and answers that arrive late, end no call.
   */
  lemma FirstAnswerWins(s: State, id: nat)
    requires Reachable(s) && !s.shared && id !in s.gap
    requires id in s.calls.ended && s.calls.ended[id].Answered?
    ensures var r := s.calls.ended[id].reply;
      && r.id == id
      && (if r.fromAgent then id in s.tasks && r.body == s.tasks[id].result else id !in s.owner)
  {
    ReachableInv(s);
    assert IdOk(s, id);
  }

  lemma {:induction false} RunsSnoc(s: State, steps: seq<Step>, step: Step)
    requires Runs(s, steps) && Enabled(Exec(s, steps), step)
    ensures Runs(s, steps + [step]) && Exec(s, steps + [step]) == Do(Exec(s, steps), step)
    decreases |steps|
  {
    if steps == [] {
      assert [] + [step] == [step];
      assert ([step])[1..] == [];
      assert Runs(Do(s, step), []);
    } else {
      RunsSnoc(Do(s, steps[0]), steps[1..], step);
      assert (steps + [step])[1..] == steps[1..] + [step];
    }
  }

  lemma ReachStep(s: State, step: Step)
    requires Reachable(s) && Enabled(s, step)
    ensures Reachable(Do(s, step))
  {
    var s0, steps :| Init(s0) && Runs(s0, steps) && Exec(s0, steps) == s;
    RunsSnoc(s0, steps, step);
  }

  /** A bridge and one agent are connected, no call has been made. */
  lemma ConnectedStart(shared: bool) returns (s: State)
    ensures Reachable(s) && s.shared == shared && s.reading && s.sinkOpen && s.conn == 1 && s.registered == {1}
    ensures s.calls == Calls(1, {}, map[]) && s.unsent == {} && s.up == {} && s.down == map[1 := []]
    ensures s.outbox == map[0 := []] && s.inbox == {} && s.tasks == map[] && s.sent == map[] && s.gap == {}
  {
    var s0 := State(shared, Calls(1, {}, map[]), {}, 0, false, false, false, {}, map[], {}, 0, {}, map[], map[],
                    map[], {}, map[], {}, map[]);
    var s1 := Do(s0, Dial);
    var s2 := Do(s1, Connected(0));
    s := Do(s2, AgentUp);
    RunsCons(s2, AgentUp, []);
    RunsCons(s1, Connected(0), [AgentUp]);
    RunsCons(s0, Dial, [Connected(0)] + [AgentUp]);
    assert Init(s0) && Runs(s0, [Dial] + ([Connected(0)] + [AgentUp]));
  }

  // ----- exactly which written calls can be answered by something else

  /** The call was not answered yet, or by its own result, or by the relay when no agent saw the request. */
  ghost predicate OwnAnswer(s: State, id: nat) {
    id in s.calls.ended && s.calls.ended[id].Answered? ==>
      var r := s.calls.ended[id].reply;
      && r.id == id
      && (if r.fromAgent then id in s.tasks && r.body == s.tasks[id].result else id !in s.owner)
  }

  /** However the run goes on. */
  ghost predicate Safe(s: State, id: nat) {
    forall steps | Runs(s, steps) :: OwnAnswer(Exec(s, steps), id)
  }

  /** The frame is on a connection that no relay task reads any more. */
  ghost predicate Undeliverable(s: State, id: nat) {
    id in s.chan && s.chan[id] !in s.registered && id !in s.owner && id !in s.refused
  }

  lemma WrittenStep(s: State, step: Step, id: nat)
    requires Inv(s) && Enabled(s, step) && id in s.chan
    ensures var s' := Do(s, step);
      && id in s'.chan && (id in s'.gap ==> id in s.gap)
      && (Undeliverable(s, id) ==> Undeliverable(s', id))
  {
    assert IdOk(s, id);
  }

  lemma {:induction false} WrittenRun(s: State, steps: seq<Step>, id: nat)
    requires Inv(s) && Runs(s, steps) && id in s.chan
    ensures var s' := Exec(s, steps);
      (id in s'.gap ==> id in s.gap) && (Undeliverable(s, id) ==> Undeliverable(s', id))
    decreases |steps|
  {
    if steps == [] {
    } else {
      WrittenStep(s, steps[0], id);
      StepInv(s, steps[0]);
      WrittenRun(Do(s, steps[0]), steps[1..], id);
    }
  }

  /** A request that was not written has no agent task and no answer of the relay. */
  lemma UnwrittenFacts(s: State, id: nat)
    requires Inv(s) && id in s.unsent
    ensures id !in s.tasks && id !in s.owner && id !in s.refused && id !in s.gap
    ensures id in s.calls.pending || id in s.calls.ended
    ensures !s.shared && id in s.calls.ended ==> s.calls.ended[id].Failed?
    ensures id in s.calls.ended && s.calls.ended[id].Answered? ==> !OwnAnswer(s, id)
  {
    assert IdOk(s, id);
  }

  /** The agent's task sends its next answer and the relay passes it to every registered connection. */
  lemma AnswerAndForward(s: State, id: nat) returns (steps: seq<Step>)
    requires id in s.tasks && s.tasks[id].plan != [] && Queue(s.outbox, s.tasks[id].agent) == []
    requires s.tasks[id].agent in s.outbox
    ensures Runs(s, steps)
    ensures var task := s.tasks[id];
      Exec(s, steps) == s.(tasks := s.tasks[id := task.(plan := task.plan[1..])],
                           sent := s.sent[id := Bodies(s.sent, id) + [task.plan[0]]],
                           down := Broadcast(s.down, s.registered, Reply(id, true, task.plan[0])))
  {
    var task := s.tasks[id];
    var r, answer, forward := Reply(id, true, task.plan[0]), Answer(id), Forward(task.agent);
    var s1 := Do(s, answer);
    assert s1.outbox[task.agent] == [r] && [r][1..] == [];
    assert s1.outbox[task.agent := []] == s.outbox;
    RunsCons(s1, forward, []);
    RunsCons(s, answer, [forward]);
    steps := [answer] + [forward];
  }

  lemma RunsCons(s: State, step: Step, rest: seq<Step>)
    requires Enabled(s, step) && Runs(Do(s, step), rest)
    ensures Runs(s, [step] + rest) && Exec(s, [step] + rest) == Exec(Do(s, step), rest)
  {
    assert ([step] + rest)[1..] == rest;
  }

  lemma {:induction false} RunsConcat(s: State, a: seq<Step>, b: seq<Step>)
    requires Runs(s, a) && Runs(Exec(s, a), b)
    ensures Runs(s, a + b) && Exec(s, a + b) == Exec(Exec(s, a), b)
    decreases |a|
  {
    if a == [] {
      assert a + b == b;
    } else {
      RunsConcat(Do(s, a[0]), a[1..], b);
      assert (a + b)[0] == a[0] && (a + b)[1..] == a[1..] + b;
    }
  }

  /** The sink is cleared and the bridge connects again. */
  lemma Redial(s: State) returns (steps: seq<Step>)
    requires !s.reading && s.sinkOpen
    ensures Runs(s, steps)
    ensures Exec(s, steps) == s.(dialing := false, reading := true, sinkOpen := true, conn := s.conn + 1,
                                 registered := s.registered + {s.conn + 1}, down := s.down[s.conn + 1 := []])
  {
    var s1 := Do(s, CloseSink);
    var s2 := Do(s1, Dial);
    RunsCons(s2, Connected(0), []);
    RunsCons(s1, Dial, [Connected(0)]);
    RunsCons(s, CloseSink, [Dial] + [Connected(0)]);
    steps := [CloseSink] + ([Dial] + [Connected(0)]);
  }

  /** A new agent gets the request and starts a task for it. */
  lemma StartOnAgent(s: State, id: nat, waited: bool, result: string) returns (steps: seq<Step>)
    requires Request(s.conn, id) in s.up && s.conn in s.registered
    ensures Runs(s, steps)
    ensures var s', a := Exec(s, steps), s.nextAgent;
      && s'.tasks == s.tasks[id := Task(a, waited, result, AnswersOf(waited, result))]
      && a in s'.outbox && s'.outbox[a] == []
      && s'.calls == s.calls && s'.reading == s.reading && s'.sinkOpen == s.sinkOpen && s'.gap == s.gap
      && s'.conn == s.conn && s'.registered == s.registered && s'.shared == s.shared
  {
    var a := s.nextAgent;
    var route, begin := Route(Request(s.conn, id), a), StartTask(Delivery(a, id), waited, result);
    var s1 := Do(s, AgentUp);
    var s2 := Do(s1, route);
    RunsCons(s2, begin, []);
    RunsCons(s1, route, [begin]);
    RunsCons(s, AgentUp, [route] + [begin]);
    steps := [AgentUp] + ([route] + [begin]);
  }

  /** The result goes to the connection nobody reads, the second answer to the next one. */
  lemma SecondAnswerArrives(s: State, id: nat) returns (steps: seq<Step>)
    requires id in s.calls.pending && !s.reading && s.sinkOpen
    requires id in s.tasks && s.tasks[id].result == "result" && s.tasks[id].plan == ["result", "null"]
    requires s.tasks[id].agent in s.outbox && s.outbox[s.tasks[id].agent] == []
    ensures Runs(s, steps) && !OwnAnswer(Exec(s, steps), id)
  {
    var first := AnswerAndForward(s, id);
    var s1 := Exec(s, first);
    var dial := Redial(s1);
    var s2 := Exec(s1, dial);
    assert s2.tasks[id].plan == ["null"];
    var second := AnswerAndForward(s2, id);
    var s3 := Exec(s2, second);
    assert Queue(s3.down, s3.conn) == [Reply(id, true, "null")];
    RunsCons(s3, Receive, []);
    RunsConcat(s2, second, [Receive]);
    RunsConcat(s1, dial, second + [Receive]);
    RunsConcat(s, first, dial + (second + [Receive]));
    steps := first + (dial + (second + [Receive]));
  }

  /**
    With one bridge: from the moment its frame is written, a call can only get its
    own answer if and only if its connection is being read, or is gone from the
    relay's list, or the call is over. Otherwise it can end with the second answer
    of a waited command.
   */
  lemma OwnAnswerIff(s: State, id: nat)
    requires Reachable(s) && !s.shared && Enabled(s, WriteFrame(id))
    ensures Safe(Do(s, WriteFrame(id)), id) <==> s.reading || s.conn !in s.registered || id !in s.calls.pending
  {
    ReachableInv(s);
    var s1 := Do(s, WriteFrame(id));
    if s.reading || s.conn !in s.registered || id !in s.calls.pending {
      UnwrittenFacts(s, id);
      StepInv(s, WriteFrame(id));
      forall steps | Runs(s1, steps) ensures OwnAnswer(Exec(s1, steps), id) {
        RunInv(s1, steps);
        WrittenRun(s1, steps, id);
        assert IdOk(Exec(s1, steps), id);
      }
    } else {
      var a := StartOnAgent(s1, id, true, "result");
      var b := SecondAnswerArrives(Exec(s1, a), id);
      RunsConcat(s1, a, b);
      assert !OwnAnswer(Exec(s1, a + b), id);
    }
  }

  lemma ReachableInv(s: State)
    requires Reachable(s)
    ensures Inv(s) && CallsOk(s.calls)
  {
    var s0, steps :| Init(s0) && Runs(s0, steps) && Exec(s0, steps) == s;
    InitInv(s0);
    RunInv(s0, steps);
  }

  /** The read loop of a bridge ends, and a call is made before its sink is cleared. */
  lemma GapReachable() returns (s: State)
    ensures Reachable(s) && !s.shared && Enabled(s, WriteFrame(1)) && !Safe(Do(s, WriteFrame(1)), 1)
  {
    var a := ConnectedStart(false);
    var b := Do(a, EndReadLoop);
    ReachStep(a, EndReadLoop);
    s := Do(b, StartCall);
    ReachStep(b, StartCall);
    OwnAnswerIff(s, 1);
  }

  // ----- what is cut stays cut

  /** The connection left the relay's list; numbers are never used again. */
  ghost predicate Delisted(s: State, c: nat) { c <= s.conn && c !in s.registered }

  lemma DelistedStep(s: State, step: Step, c: nat)
    requires Enabled(s, step) && Delisted(s, c)
    ensures Delisted(Do(s, step), c)
    ensures forall r | r in Queue(Do(s, step).down, c) :: r in Queue(s.down, c)
  {
  }

  lemma {:induction false} DelistedRun(s: State, steps: seq<Step>, c: nat)
    requires Runs(s, steps) && Delisted(s, c)
    ensures forall r | r in Queue(Exec(s, steps).down, c) :: r in Queue(s.down, c)
    decreases |steps|
  {
    if steps == [] {
    } else {
      DelistedStep(s, steps[0], c);
      DelistedRun(Do(s, steps[0]), steps[1..], c);
    }
  }

  /** Once the relay has dropped a bridge connection, nothing is ever queued on it again. */
  lemma DroppedIsSilent(s: State, c: nat, steps: seq<Step>)
    requires Reachable(s) && Enabled(s, DropBridge(c)) && Runs(Do(s, DropBridge(c)), steps)
    ensures forall r | r in Queue(Exec(Do(s, DropBridge(c)), steps).down, c) :: r in Queue(s.down, c)
  {
    ReachableInv(s);
    assert BridgeLinkOk(s, c);
    DelistedRun(Do(s, DropBridge(c)), steps, c);
  }

  lemma DownStep(s: State, step: Step, agent: nat)
    requires Enabled(s, step) && agent < s.nextAgent && agent !in s.outbox
    ensures agent !in Do(s, step).outbox && agent < Do(s, step).nextAgent
  {
    match step
    case AgentUp =>
    case Answer(_) =>
    case Forward(_) =>
    case AgentDown(_) =>
    case _ => assert Do(s, step).outbox == s.outbox;
  }

  lemma {:induction false} DownRun(s: State, steps: seq<Step>, agent: nat)
    requires Runs(s, steps) && agent < s.nextAgent && agent !in s.outbox
    ensures agent !in Exec(s, steps).outbox
    decreases |steps|
  {
    if steps == [] {
    } else {
      DownStep(s, steps[0], agent);
      DownRun(Do(s, steps[0]), steps[1..], agent);
    }
  }

  /** Once an agent's connection is down, its tasks can never answer again, nor can what they sent be forwarded. */
  lemma DownIsSilent(s: State, agent: nat, id: nat, steps: seq<Step>)
    requires Reachable(s) && Enabled(s, AgentDown(agent)) && Runs(Do(s, AgentDown(agent)), steps)
    ensures var s' := Exec(Do(s, AgentDown(agent)), steps);
      && !Enabled(s', Forward(agent))
      && (id in s'.tasks && s'.tasks[id].agent == agent ==> !Enabled(s', Answer(id)))
  {
    ReachableInv(s);
    assert AgentLinkOk(s, agent);
    DownRun(Do(s, AgentDown(agent)), steps, agent);
  }

  // ----- calls do get their answers

  /** Reading on ends a waiting call with a queued answer that bears its id. */
  lemma {:induction false} ReadEnds(s: State, id: nat) returns (steps: seq<Step>)
    requires id in s.calls.pending && s.reading && !Unqueued(s, id)
    ensures Runs(s, steps)
    ensures var s' := Exec(s, steps);
      && id in s'.calls.ended && s'.calls.ended[id].Answered?
      && s'.calls.ended[id].reply in Queue(s.down, s.conn) && s'.calls.ended[id].reply.id == id
      && s'.shared == s.shared && s'.tasks == s.tasks && s'.refused == s.refused && s'.gap == s.gap
    decreases |Queue(s.down, s.conn)|
  {
    var rs := s.down[s.conn];
    var s1, rest := Do(s, Receive), [];
    if rs[0].id != id {
      assert forall r | r in rs[1..] :: r in rs;
      var r :| r in rs && r.id == id;
      assert r in rs[1..];
      rest := ReadEnds(s1, id);
    }
    RunsCons(s, Receive, rest);
    steps := [Receive] + rest;
  }

  /** The task's first answer goes all the way to the caller. */
  lemma AnswerArrives(s: State, id: nat) returns (steps: seq<Step>)
    requires id in s.calls.pending && s.reading && s.conn in s.registered
    requires id in s.tasks && s.tasks[id].plan != []
    requires s.tasks[id].agent in s.outbox && s.outbox[s.tasks[id].agent] == []
    ensures Runs(s, steps)
    ensures var s' := Exec(s, steps);
      && id in s'.calls.ended && s'.calls.ended[id].Answered?
      && s'.shared == s.shared && s'.gap == s.gap && s'.refused == s.refused
      && id in s'.tasks && s'.tasks[id].result == s.tasks[id].result
  {
    var send := AnswerAndForward(s, id);
    var s1 := Exec(s, send);
    var r := Reply(id, true, s.tasks[id].plan[0]);
    assert Queue(s1.down, s.conn) == Queue(s.down, s.conn) + [r];
    assert r in Queue(s1.down, s.conn);
    var read := ReadEnds(s1, id);
    RunsConcat(s, send, read);
    steps := send + read;
  }

  /**
    A waiting call on a connection that is read and listed can be carried out by an
    agent, as a waited command or not and with any result, and then ends with it.
   */
  lemma CallCanSucceed(s: State, id: nat, waited: bool, result: string) returns (steps: seq<Step>)
    requires Reachable(s) && !s.shared && Enabled(s, WriteFrame(id)) && id in s.calls.pending
    requires s.reading && s.conn in s.registered
    ensures var s1 := Do(s, WriteFrame(id));
      && Runs(s1, steps)
      && var ended := Exec(s1, steps).calls.ended; id in ended && ended[id] == Answered(Reply(id, true, result))
  {
    ReachableInv(s);
    UnwrittenFacts(s, id);
    var s1 := Do(s, WriteFrame(id));
    StepInv(s, WriteFrame(id));
    var begin := StartOnAgent(s1, id, waited, result);
    var s2 := Exec(s1, begin);
    var answer := AnswerArrives(s2, id);
    RunsConcat(s1, begin, answer);
    steps := begin + answer;
    RunInv(s1, steps);
    assert IdOk(Exec(s1, steps), id);
  }

  /** And it can be refused by the relay, which then ends it too. */
  lemma CallCanBeRefused(s: State, id: nat) returns (steps: seq<Step>)
    requires Reachable(s) && !s.shared && Enabled(s, WriteFrame(id)) && id in s.calls.pending
    requires s.reading && s.conn in s.registered
    ensures var s1 := Do(s, WriteFrame(id));
      && Runs(s1, steps)
      && var ended := Exec(s1, steps).calls.ended; id in ended && ended[id].Answered? && !ended[id].reply.fromAgent
  {
    ReachableInv(s);
    UnwrittenFacts(s, id);
    var s1, refuse := Do(s, WriteFrame(id)), Refuse(Request(s.conn, id));
    StepInv(s, WriteFrame(id));
    var s2 := Do(s1, refuse);
    StepInv(s1, refuse);
    assert Reply(id, false, "agent is not connected") in Queue(s2.down, s.conn);
    assert IdOk(s2, id) && BridgeLinkOk(s2, s.conn);
    var read := ReadEnds(s2, id);
    RunsCons(s1, refuse, read);
    steps := [refuse] + read;
  }

  // ----- two bridges on one token

  /** Nothing on the connection being read can end this call, and nothing more will come on it. */
  ghost predicate Mute(s: State, id: nat) {
    || (id in s.calls.ended && s.calls.ended[id].Failed?)
    || (id in s.calls.pending && s.reading && s.conn !in s.registered && Unqueued(s, id))
  }

  ghost predicate Unqueued(s: State, id: nat) { forall r | r in Queue(s.down, s.conn) :: r.id != id }

  lemma MuteStep(s: State, step: Step, id: nat)
    requires Enabled(s, step) && CallsOk(s.calls) && Mute(s, id)
    ensures Mute(Do(s, step), id)
  {
    var s' := Do(s, step);
    if id in s.calls.pending && s'.reading {
      assert forall r | r in Queue(s'.down, s.conn) :: r in Queue(s.down, s.conn);
    }
  }

  lemma {:induction false} MuteRun(s: State, steps: seq<Step>, id: nat)
    requires 1 <= s.calls.nextId && CallsOk(s.calls) && Runs(s, steps) && Mute(s, id)
    ensures Mute(Exec(s, steps), id) && CallsOk(Exec(s, steps).calls)
    decreases |steps|
  {
    if steps == [] {
    } else {
      MuteStep(s, steps[0], id);
      StepCalls(s, steps[0]);
      MuteRun(Do(s, steps[0]), steps[1..], id);
    }
  }

  /** The other bridge's answer with the same number comes in, if none is queued already. */
  lemma ForeignEnds(s: State, id: nat) returns (steps: seq<Step>)
    requires Inv(s) && s.shared && s.reading && id in s.calls.pending && id !in s.tasks && id !in s.refused
    requires s.conn in s.registered || !Unqueued(s, id)
    ensures Runs(s, steps) && !OwnAnswer(Exec(s, steps), id)
  {
    assert BridgeLinkOk(s, s.conn);
    if !Unqueued(s, id) {
      steps := ReadEnds(s, id);
    } else {
      var other := Reply(id, true, "other");
      var s1 := Do(s, ForeignReply(other));
      assert Queue(s1.down, s.conn) == Queue(s.down, s.conn) + [other];
      assert other in Queue(s1.down, s.conn);
      var rest := ReadEnds(s1, id);
      RunsCons(s, ForeignReply(other), rest);
      steps := [ForeignReply(other)] + rest;
    }
  }

  lemma SharedUnsafe(s: State, id: nat) returns (steps: seq<Step>)
    requires Inv(s) && s.shared && Enabled(s, WriteFrame(id)) && id in s.calls.pending
    requires s.reading ==> s.conn in s.registered || !Unqueued(s, id)
    ensures var s1 := Do(s, WriteFrame(id)); Runs(s1, steps) && !OwnAnswer(Exec(s1, steps), id)
  {
    var s1 := Do(s, WriteFrame(id));
    UnwrittenFacts(s, id);
    StepInv(s, WriteFrame(id));
    var dial := [];
    if !s.reading {
      dial := Redial(s1);
    }
    RunInv(s1, dial);
    var s2 := Exec(s1, dial);
    var rest := ForeignEnds(s2, id);
    RunsConcat(s1, dial, rest);
    steps := dial + rest;
  }

  /**
    With a second bridge on the token, both number their calls from 1. A written
    call can only get its own answer if and only if it has failed already, or it
    waits on a connection that left the relay's list with no answer bearing its
    id still to be read: then it will fail.
   */
  lemma SharedOwnAnswerIff(s: State, id: nat)
    requires Reachable(s) && s.shared && Enabled(s, WriteFrame(id))
    ensures Safe(Do(s, WriteFrame(id)), id) <==> Mute(s, id)
  {
    ReachableInv(s);
    UnwrittenFacts(s, id);
    var s1 := Do(s, WriteFrame(id));
    if Mute(s, id) {
      forall steps | Runs(s1, steps) ensures OwnAnswer(Exec(s1, steps), id) {
        assert Mute(s1, id);
        MuteRun(s1, steps, id);
      }
    } else {
      var steps: seq<Step> := [];
      if id in s.calls.pending {
        steps := SharedUnsafe(s, id);
      }
      assert Runs(s1, steps) && !OwnAnswer(Exec(s1, steps), id);
    }
  }

  /** A first call on a shared token, connected and read, may get the other bridge's answer. */
  lemma SharedTokenMixesAnswers() returns (s: State)
    ensures Reachable(s) && s.shared && s.reading && s.conn in s.registered
    ensures Enabled(s, WriteFrame(1)) && !Safe(Do(s, WriteFrame(1)), 1)
  {
    var a := ConnectedStart(true);
    s := Do(a, StartCall);
    ReachStep(a, StartCall);
    SharedOwnAnswerIff(s, 1);
  }
}
