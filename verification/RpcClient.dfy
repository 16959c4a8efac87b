/** The bridge's side of a call: request ids, the pending map and how each call ends. */
module RpcClient {

  /** A response frame; the relay answers by itself when it cannot route a request. */
  datatype Reply = Reply(id: nat, fromAgent: bool, body: string)

  datatype Ending = Answered(reply: Reply) | Failed

  /** `pending` are the calls waiting in the map, `ended` the ones whose caller has an answer. */
  datatype Calls = Calls(nextId: nat, pending: set<nat>, ended: map<nat, Ending>)

  function Start(c: Calls): Calls {
    c.(nextId := c.nextId + 1, pending := c.pending + {c.nextId})
  }

  function End(c: Calls, id: nat, e: Ending): Calls {
    if id in c.pending then c.(pending := c.pending - {id}, ended := c.ended[id := e]) else c
  }

  /** `ended` after the calls in `failed` were answered with an error. */
  function FailThese(ended: map<nat, Ending>, failed: set<nat>): map<nat, Ending> {
    ended + map id | id in failed :: Failed
  }

  function EndAll(c: Calls): Calls {
    c.(pending := {}, ended := FailThese(c.ended, c.pending))
  }

  /** Every issued id is in exactly one of pending and ended, no other id in either. */
  ghost predicate CallsOk(c: Calls) {
    && c.pending !! c.ended.Keys
    && forall id: nat :: (id in c.pending || id in c.ended) <==> 1 <= id < c.nextId
  }

  ghost predicate Later(c: Calls, c': Calls) {
    && c.nextId <= c'.nextId
    && forall id | id in c.ended :: id in c'.ended && c'.ended[id] == c.ended[id]
  }

  lemma StartOk(c: Calls)
    requires CallsOk(c) && 1 <= c.nextId
    ensures CallsOk(Start(c)) && Later(c, Start(c)) && c.nextId !in c.pending + c.ended.Keys
  {
    assert c.nextId !in c.pending && c.nextId !in c.ended;
  }

  lemma EndOk(c: Calls, id: nat, e: Ending)
    requires CallsOk(c)
    ensures CallsOk(End(c, id, e)) && Later(c, End(c, id, e))
  {
  }

  lemma EndAllOk(c: Calls)
    requires CallsOk(c)
    ensures CallsOk(EndAll(c)) && Later(c, EndAll(c))
  {
  }

  class AgentClient {
    var nextId: nat
    var pending: set<nat>
    var ended: map<nat, Ending>

    ghost function View(): Calls
      reads this
    {
      Calls(nextId, pending, ended)
    }

    ghost predicate Valid()
      reads this
    {
      1 <= nextId && CallsOk(View())
    }

    constructor ()
      ensures Valid() && View() == Calls(1, {}, map[])
    {
      nextId, pending, ended := 1, {}, map[];
    }

    /** Take the next id and enter it in the pending map. */
    method StartCall() returns (id: nat)
      requires Valid()
      modifies this
      ensures Valid() && View() == Start(old(View())) && id == old(nextId)
    {
      StartOk(View());
      id := nextId;
      nextId := nextId + 1;
      pending := pending + {id};
    }

    /** A send that failed, a timeout, or a response: the first of them ends the call. */
    method EndCall(id: nat, e: Ending)
      requires Valid()
      modifies this
      ensures Valid() && View() == End(old(View()), id, e)
    {
      EndOk(View(), id, e);
      if id in pending {
        pending := pending - {id};
        ended := ended[id := e];
      }
    }

    /** The read loop ended: take the whole map and fail every call in it. */
    method FailPending()
      requires Valid()
      modifies this
      ensures Valid() && View() == EndAll(old(View()))
    {
      EndAllOk(View());
      var left := pending;
      pending := {};
      SendErrors(left);
    }

    method SendErrors(failed: set<nat>)
      modifies this`ended
      ensures ended == FailThese(old(ended), failed)
    {
      var left := failed;
      while left != {}
        invariant left <= failed && ended == FailThese(old(ended), failed - left)
        decreases |left|
      {
        var id :| id in left;
        left := left - {id};
        assert failed - left == (failed - left - {id}) + {id};
        ended := ended[id := Failed];
      }
      assert failed - {} == failed;
    }
  }
}
