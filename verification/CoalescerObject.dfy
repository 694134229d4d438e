/**
 * The coalescer as an object (internal/middleware/cache.go): the sections that `responseCoalescer.Do` runs
 * under its mutex, and the reading of a published call, each tied to one step of atomic single flight.
 * The response is a value here; its copying is modelled in the module Recorded.
 */
module CoalescerObject {
  import opened Wire
  import SF = SingleFlight

  class InflightResponse {
    ghost const leader: nat
    var done: bool
    var resp: Option<Response>
    var err: Option<string>

    constructor (ghost leader: nat)
      ensures this.leader == leader && !done && resp == None && err == None
    {
      this.leader := leader;
      done, resp, err := false, None, None;
    }
  }

  /** What a call object holds at the stage its leader has reached. */
  ghost predicate Fits(pc: SF.Pc, call: InflightResponse)
    reads call
  {
    match pc
    case Leading => !call.done
    case Executed(_) => !call.done
    case Done(Led(result)) => call.done && result == Result(call.resp, call.err)
    case _ => false
  }

  /** Every call object is in step with its leader, which it names. */
  ghost predicate AllFit(callers: seq<SF.Caller>, objects: map<nat, InflightResponse>)
    reads objects.Values
  {
    forall t :: t in objects ==> t < |callers| && objects[t].leader == t && Fits(callers[t].pc, objects[t])
  }

  /** A caller that leads nothing may move freely, and a leader as long as its object keeps up. */
  lemma FitElsewhere(callers: seq<SF.Caller>, objects: map<nat, InflightResponse>, t: nat, c: SF.Caller)
    requires AllFit(callers, objects) && t < |callers|
    requires t !in objects || Fits(c.pc, objects[t])
    ensures AllFit(callers[t := c], objects)
  {
  }

  /** A caller that becomes a leader brings an object of its own. */
  lemma FitNew(
    callers: seq<SF.Caller>, objects: map<nat, InflightResponse>, t: nat, c: SF.Caller, call: InflightResponse)
    requires AllFit(callers, objects) && t < |callers| && call.leader == t && Fits(c.pc, call)
    ensures AllFit(callers[t := c], objects[t := call])
  {
  }

  /** Every call object but one leader's is in step with its leader. */
  ghost predicate OthersFit(callers: seq<SF.Caller>, objects: map<nat, InflightResponse>, t: nat)
    reads objects.Values
  {
    forall u :: u in objects && u != t ==>
      u < |callers| && objects[u].leader == u && Fits(callers[u].pc, objects[u])
  }

  /** A leader that brings its object along completes the others. */
  lemma FitPublished(
    callers: seq<SF.Caller>, objects: map<nat, InflightResponse>, t: nat, c: SF.Caller, call: InflightResponse)
    requires OthersFit(callers, objects, t) && t < |callers|
    requires t in objects && objects[t] == call && call.leader == t && Fits(c.pc, call)
    ensures AllFit(callers[t := c], objects)
  {
  }

  /** The map of calls is the specification's map of leaders, by the objects of those leaders. */
  ghost predicate Named(
    calls: map<string, InflightResponse>, inflight: map<string, nat>, objects: map<nat, InflightResponse>)
  {
    && calls.Keys == inflight.Keys
    && (forall k :: k in calls ==> inflight[k] in objects && objects[inflight[k]] == calls[k])
  }

  lemma NamedLater(
    calls: map<string, InflightResponse>, inflight: map<string, nat>, objects: map<nat, InflightResponse>,
    key: string, t: nat, call: InflightResponse)
    requires Named(calls, inflight, objects) && (t in objects ==> objects[t] == call)
    ensures Named(calls[key := call], inflight[key := t], objects[t := call])
    ensures Named(calls - {key}, inflight - {key}, objects)
  {
  }

  /** A caller that leads is registered under its key until it publishes. */
  ghost predicate Registered(f: SF.State) {
    forall t :: 0 <= t < |f.callers| && (f.callers[t].pc.Leading? || f.callers[t].pc.Executed?) ==>
      f.callers[t].key in f.inflight && f.inflight[f.callers[t].key] == t
  }

  /** Every step of single flight keeps the leaders registered. */
  lemma RegisteredStep(f: SF.State, step: SF.Label)
    requires Registered(f) && SF.Enabled(f, step)
    ensures Registered(SF.Apply(f, step))
  {
  }

  /** Publishing, once the result is in the call object, leaves every object in step and every leader registered. */
  lemma PublishedFits(
    f: SF.State, objects: map<nat, InflightResponse>, t: nat, key: string, call: InflightResponse, result: Result)
    requires Registered(f) && OthersFit(f.callers, objects, t) && t in objects && objects[t] == call && call.leader == t
    requires t < |f.callers| && f.callers[t].key == key && f.callers[t].pc == SF.Executed(result)
    requires call.done && Result(call.resp, call.err) == result
    ensures AllFit(SF.Apply(f, SF.Publish(t)).callers, objects) && Registered(SF.Apply(f, SF.Publish(t)))
    ensures SF.Apply(f, SF.Publish(t)).inflight == f.inflight - {key}
  {
    FitPublished(f.callers, objects, t, SF.Caller(key, SF.Done(SF.Led(result)), f.callers[t].cancelled), call);
    RegisteredStep(f, SF.Publish(t));
  }

  class ResponseCoalescer {
    var calls: map<string, InflightResponse>
    ghost var flight: SF.State
    ghost var objects: map<nat, InflightResponse>

    ghost predicate Valid()
      reads this, objects.Values
    {
      && Named(calls, flight.inflight, objects)
      && AllFit(flight.callers, objects)
      && Registered(flight)
    }

    constructor (ghost callers: seq<SF.Caller>)
      requires forall t :: 0 <= t < |callers| ==> callers[t].pc == SF.Idle
      ensures Valid() && flight == SF.State(callers, map[])
    {
      calls, objects := map[], map[];
      flight := SF.State(callers, map[]);
    }

    /** The first section: join the call under the key, or make one and lead it. */
    method Enter(ghost t: nat, key: string) returns (call: InflightResponse, joins: bool)
      requires Valid() && t < |flight.callers| && flight.callers[t].key == key && flight.callers[t].pc == SF.Idle
      modifies this
      ensures Valid() && call.leader in objects && objects[call.leader] == call
      ensures joins <==> key in old(flight).inflight
      ensures SF.Enabled(old(flight), if joins then SF.Join(t) else SF.Lead(t))
      ensures flight == SF.Apply(old(flight), if joins then SF.Join(t) else SF.Lead(t))
      ensures joins ==> flight.callers[t].pc == SF.Joined(call.leader)
      ensures !joins ==> call.leader == t && fresh(call)
    {
      if key in calls {
        call, joins := calls[key], true;
        FitElsewhere(flight.callers, objects, t, SF.Apply(flight, SF.Join(t)).callers[t]);
        RegisteredStep(flight, SF.Join(t));
        flight := SF.Apply(flight, SF.Join(t));
      } else {
        call := Register(t, key);
        joins := false;
      }
    }

    method Register(ghost t: nat, key: string) returns (call: InflightResponse)
      requires Valid() && t < |flight.callers| && flight.callers[t].key == key && flight.callers[t].pc == SF.Idle
      requires key !in calls
      modifies this
      ensures Valid() && t in objects && objects[t] == call && call.leader == t && fresh(call)
      ensures flight == SF.Apply(old(flight), SF.Lead(t))
    {
      call := new InflightResponse(t);
      FitNew(flight.callers, objects, t, SF.Caller(key, SF.Leading, flight.callers[t].cancelled), call);
      NamedLater(calls, flight.inflight, objects, key, t, call);
      RegisteredStep(flight, SF.Lead(t));
      calls := calls[key := call];
      objects := objects[t := call];
      flight := SF.Apply(flight, SF.Lead(t));
    }

    /** Between the sections, without the mutex, the leader's function returns. */
    ghost method Execute(t: nat, result: Result)
      requires Valid() && t < |flight.callers| && flight.callers[t].pc == SF.Leading
      modifies this`flight
      ensures Valid() && flight == SF.Apply(old(flight), SF.Execute(t, result))
    {
      FitElsewhere(flight.callers, objects, t, SF.Apply(flight, SF.Execute(t, result)).callers[t]);
      RegisteredStep(flight, SF.Execute(t, result));
      flight := SF.Apply(flight, SF.Execute(t, result));
    }

    /** The last section: write the result, close the channel, take the leader's entry out. */
    method Publish(ghost t: nat, key: string, call: InflightResponse, result: Result)
      requires Valid() && t in objects && objects[t] == call
      requires t < |flight.callers| && flight.callers[t].key == key && flight.callers[t].pc == SF.Executed(result)
      modifies this`calls, this`flight, call
      ensures Valid()
      ensures flight == SF.Apply(old(flight), SF.Publish(t))
      ensures call.done && Result(call.resp, call.err) == result
    {
      ghost var before, all := flight, objects;
      Finish(before.callers, all, t, call, result);
      PublishedFits(before, all, t, key, call, result);
      NamedLater(calls, before.inflight, all, key, t, call);
      calls := calls - {key};
      flight := SF.Apply(before, SF.Publish(t));
    }

    /** Writes the result into the leader's call and closes its channel; no other call notices. */
    static method Finish(
      ghost callers: seq<SF.Caller>, ghost all: map<nat, InflightResponse>, ghost t: nat, call: InflightResponse,
      result: Result)
      requires AllFit(callers, all) && t in all && all[t] == call
      modifies call
      ensures OthersFit(callers, all, t)
      ensures call.done && Result(call.resp, call.err) == result
    {
      call.resp := result.resp;
      call.err := result.err;
      call.done := true;
    }

    /** What a waiter reads once the channel is closed. */
    method Receive(ghost t: nat, call: InflightResponse) returns (result: Result)
      requires Valid() && t < |flight.callers| && flight.callers[t].pc == SF.Joined(call.leader)
      requires call.leader in objects && objects[call.leader] == call && call.done
      modifies this`flight
      ensures Valid()
      ensures SF.Enabled(old(flight), SF.Deliver(t)) && flight == SF.Apply(old(flight), SF.Deliver(t))
      ensures flight.callers[t].pc == SF.Done(SF.Shared(call.leader, result))
    {
      result := Result(call.resp, call.err);
      FitElsewhere(flight.callers, objects, t, SF.Apply(flight, SF.Deliver(t)).callers[t]);
      RegisteredStep(flight, SF.Deliver(t));
      flight := SF.Apply(flight, SF.Deliver(t));
    }
  }
}
