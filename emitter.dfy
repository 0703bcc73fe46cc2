/**
  The stream emitter of membrane/src/emitter.rs: a shared `is_done` flag and
  finalizer slot behind a port. `EmitterData` pushes until it is done; the one-shot
  `Handle` marks itself done after its first successful push; the abort handle sets
  the flag and runs the finalizer.

  Sending on the Dart port is recorded in an outbox, and a finalizer closure is
  named by an identifier; running it is recorded in a log of finalizer calls.
 */
module Emitter {
  import opened Wrappers

  /** The `Ended` error of a push on a finished stream. */
  datatype Ended = Ended

  /** What an emitter's shared state holds at one moment. */
  datatype State<T> = State(done: bool, finalizer: Option<nat>, sent: seq<T>, finalized: seq<nat>)

  /** `new`: not done, no finalizer, nothing sent. */
  function Fresh<T>(): State<T>
  {
    State(false, None, [], [])
  }

  /** `EmitterData::push`: a done emitter refuses without sending; otherwise it sends once. */
  function PushStep<T>(s: State<T>, value: T): (out: (State<T>, Result<(), Ended>))
    ensures s.done <==> out.1.Err?
    ensures s.done ==> out.0 == s
    ensures !s.done ==> out.0.sent == s.sent + [value]
    ensures out.0.done == s.done && out.0.finalizer == s.finalizer && out.0.finalized == s.finalized
  {
    if s.done then (s, Err(Ended)) else (s.(sent := s.sent + [value]), Ok(()))
  }

  /** `Handle::push`: the emitter's push, after which a successful handle is done. */
  function HandlePushStep<T>(s: State<T>, value: T): (out: (State<T>, Result<(), Ended>))
    ensures out.1 == PushStep(s, value).1
    ensures out.0.sent == PushStep(s, value).0.sent
    ensures out.0.done
    ensures out.0.finalizer == s.finalizer && out.0.finalized == s.finalized
  {
    var (next, result) := PushStep(s, value);
    if result.Ok? then (next.(done := true), result) else (next, result)
  }

  /** `on_done`: the finalizer slot now holds this callback, whatever it held before. */
  function OnDoneStep<T>(s: State<T>, callback: nat): (t: State<T>)
    ensures t.finalizer == Some(callback)
    ensures t.done == s.done && t.sent == s.sent && t.finalized == s.finalized
  {
    s.(finalizer := Some(callback))
  }

  /** The closure `abort_handle` returns: sets the flag and runs the finalizer, if one is registered. */
  function AbortStep<T>(s: State<T>): (t: State<T>)
    ensures t.done
    ensures t.finalized == s.finalized + (if s.finalizer.Some? then [s.finalizer.value] else [])
    ensures t.sent == s.sent && t.finalizer == s.finalizer
  {
    s.(done := true, finalized := s.finalized + (if s.finalizer.Some? then [s.finalizer.value] else []))
  }

  /** One call on an emitter or its abort handle. */
  datatype Op<T> = PushOp(value: T) | OnDoneOp(callback: nat) | AbortOp | IsDoneOp

  /** The state after a sequence of calls, for a streaming emitter or (oneShot) a `Handle`. */
  function Run<T>(s: State<T>, ops: seq<Op<T>>, oneShot: bool): State<T>
    decreases |ops|
  {
    if ops == [] then s
    else
      var next := match ops[0]
        case PushOp(v) => if oneShot then HandlePushStep(s, v).0 else PushStep(s, v).0
        case OnDoneOp(c) => OnDoneStep(s, c)
        case AbortOp => AbortStep(s)
        case IsDoneOp => s;
      Run(next, ops[1..], oneShot)
  }

  /** Once done, an emitter stays done and sends nothing more, whatever is called on it. */
  lemma {:induction false} DoneIsFinal<T>(s: State<T>, ops: seq<Op<T>>, oneShot: bool)
    requires s.done
    ensures Run(s, ops, oneShot).done
    ensures Run(s, ops, oneShot).sent == s.sent
    decreases |ops|
  {
    if ops != [] {
      DoneIsFinal(if ops[0].OnDoneOp? then OnDoneStep(s, ops[0].callback)
                  else if ops[0].AbortOp? then AbortStep(s) else s, ops[1..], oneShot);
    }
  }

  /** Sending only ever appends: earlier messages are never withdrawn or reordered. */
  lemma {:induction false} SentGrows<T>(s: State<T>, ops: seq<Op<T>>, oneShot: bool)
    ensures |s.sent| <= |Run(s, ops, oneShot).sent|
    ensures Run(s, ops, oneShot).sent[..|s.sent|] == s.sent
    decreases |ops|
  {
    if ops != [] {
      var next := match ops[0]
        case PushOp(v) => if oneShot then HandlePushStep(s, v).0 else PushStep(s, v).0
        case OnDoneOp(c) => OnDoneStep(s, c)
        case AbortOp => AbortStep(s)
        case IsDoneOp => s;
      assert next.sent[..|s.sent|] == s.sent;
      SentGrows(next, ops[1..], oneShot);
      assert Run(s, ops, oneShot) == Run(next, ops[1..], oneShot);
    }
  }

  /** A one-shot handle sends at most one message over its whole life. */
  lemma {:induction false} HandleSendsAtMostOnce<T>(s: State<T>, ops: seq<Op<T>>)
    requires |s.sent| == 0 || s.done
    requires |s.sent| <= 1
    ensures |Run(s, ops, true).sent| <= 1
    decreases |ops|
  {
    if ops != [] {
      var next := match ops[0]
        case PushOp(v) => HandlePushStep(s, v).0
        case OnDoneOp(c) => OnDoneStep(s, c)
        case AbortOp => AbortStep(s)
        case IsDoneOp => s;
      HandleSendsAtMostOnce(next, ops[1..]);
    }
  }

  /** The finalizer runs once per abort, and only when one is registered. */
  lemma AbortRunsFinalizer<T>(s: State<T>, callback: nat)
    ensures AbortStep(OnDoneStep(s, callback)).finalized == s.finalized + [callback]
    ensures AbortStep(s).finalized == s.finalized <==> s.finalizer.None?
  {
  }

  /** The shared flag and finalizer slot of `EmitterData`, with the port's outbox. */
  class EmitterData<T> {
    const port: int
    var done: bool
    var finalizer: Option<nat>
    var sent: seq<T>
    var finalized: seq<nat>

    function Snapshot(): State<T>
      reads this
    {
      State(done, finalizer, sent, finalized)
    }

    /** `EmitterData::new`. */
    constructor (port: int)
      ensures this.port == port && Snapshot() == Fresh()
    {
      this.port := port;
      done := false;
      finalizer := None;
      sent := [];
      finalized := [];
    }

    /** `EmitterData::is_done`: reads the flag and changes nothing. */
    method IsDone() returns (d: bool)
      ensures d == done
    {
      d := done;
    }

    /** `EmitterData::push`. */
    method Push(value: T) returns (r: Result<(), Ended>)
      modifies this
      ensures (Snapshot(), r) == PushStep(old(Snapshot()), value)
    {
      var d := IsDone();
      if d {
        return Err(Ended);
      }
      sent := sent + [value];
      r := Ok(());
    }

    /** `EmitterData::on_done`. */
    method OnDone(callback: nat)
      modifies this
      ensures Snapshot() == OnDoneStep(old(Snapshot()), callback)
    {
      finalizer := Some(callback);
    }

    /** Calling the closure `abort_handle` returns. */
    method Abort()
      modifies this
      ensures Snapshot() == AbortStep(old(Snapshot()))
    {
      done := true;
      if finalizer.Some? {
        finalized := finalized + [finalizer.value];
      }
    }
  }

  /** The one-shot `Handle`, wrapping an `EmitterData`. */
  class Handle<T> {
    const inner: EmitterData<T>

    /** `Handle::new`. */
    constructor (port: int)
      ensures fresh(inner) && inner.port == port && inner.Snapshot() == Fresh()
    {
      inner := new EmitterData(port);
    }

    /** `Handle::push`: the inner push, then the flag is set when it succeeded. */
    method Push(value: T) returns (r: Result<(), Ended>)
      modifies inner
      ensures (inner.Snapshot(), r) == HandlePushStep(old(inner.Snapshot()), value)
    {
      r := inner.Push(value);
      if r.Ok? {
        inner.done := true;
      }
    }

    /** `Handle::is_done`, `Handle::on_done` and `Handle::abort_handle` delegate to the inner emitter. */
    method IsDone() returns (d: bool)
      ensures d == inner.done
    {
      d := inner.IsDone();
    }

    method OnDone(callback: nat)
      modifies inner
      ensures inner.Snapshot() == OnDoneStep(old(inner.Snapshot()), callback)
    {
      inner.OnDone(callback);
    }

    method Abort()
      modifies inner
      ensures inner.Snapshot() == AbortStep(old(inner.Snapshot()))
    {
      inner.Abort();
    }
  }

  /** A fresh handle takes the first push and refuses the second with `Ended`, sending once. */
  method PushTwice<T>(port: int, first: T, second: T) returns (r1: Result<(), Ended>, r2: Result<(), Ended>, sent: seq<T>)
    ensures r1 == Ok(()) && r2 == Err(Ended)
    ensures sent == [first]
  {
    var handle := new Handle(port);
    r1 := handle.Push(first);
    r2 := handle.Push(second);
    sent := handle.inner.sent;
  }
}
