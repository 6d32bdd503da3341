/** The channel over whole runs of its two goroutines, and the state they share. */
module ChannelRuns {
  import opened Wrappers
  import opened Channel

  function Empty<T>(): DimChannel<T> {
    DimChannel([], Receiving, [], Ready, [])
  }

  /** `missedWake`: the notification may come between the pusher's look and its wait. */
  ghost predicate Moved<T(!new)>(missedWake: bool, c: DimChannel<T>, c': DimChannel<T>) {
    || (c.puller.Receiving? && exists v :: c' == c.Receive(v))
    || (c.puller.Pulled? && c' == c.Append())
    || (c.puller.Notifying? && (c.pusher.SawEmpty? ==> missedWake) && c' == c.Wake())
    || (c.pusher.Ready? && c' == c.Look())
    || (c.pusher.SawEmpty? && c' == c.Sleep())
    || (c.pusher.Pushing? && c' == c.Deliver())
  }

  ghost predicate IsRun<T(!new)>(missedWake: bool, run: seq<DimChannel<T>>) {
    && run != []
    && run[0] == Empty()
    && forall j, k :: 0 <= j && k == j + 1 && k < |run| ==> Moved(missedWake, run[j], run[k])
  }

  lemma MoveKeepsFifo<T(!new)>(missedWake: bool, c: DimChannel<T>, c': DimChannel<T>)
    requires c.Fifo() && Moved(missedWake, c, c')
    ensures c'.Fifo()
  {
    if v :| c.puller.Receiving? && c' == c.Receive(v) {
      c.ReceiveKeepsFifo(v);
    } else if c.puller.Pulled? && c' == c.Append() {
      c.AppendKeepsFifo();
    } else if c.pusher.Ready? && c' == c.Look() {
      c.LookKeepsFifo();
    } else if c.pusher.Pushing? && c' == c.Deliver() {
      c.DeliverKeepsFifo();
    }
  }

  lemma {:induction false} RunIsFifo<T(!new)>(missedWake: bool, run: seq<DimChannel<T>>, k: nat)
    requires IsRun(missedWake, run) && k < |run|
    ensures run[k].Fifo() && (!missedWake ==> run[k].WakesUp())
    decreases k
  {
    if k > 0 {
      var c, c' := run[k - 1], run[k];
      RunIsFifo(missedWake, run, k - 1);
      assert Moved(missedWake, c, c');
      MoveKeepsFifo(missedWake, c, c');
    }
  }

  /** However the two goroutines interleave, what came out is a prefix of what went in, and what is missing is
      in their hands or in the buffer. */
  lemma DeliversInOrder<T(!new)>(missedWake: bool, run: seq<DimChannel<T>>, k: nat)
    requires IsRun(missedWake, run) && k < |run|
    ensures var c := run[k]; c.delivered <= c.received
    ensures var c := run[k]; |c.received| - |c.delivered| <= |c.buffer| + 2
  {
    RunIsFifo(missedWake, run, k);
    run[k].DeliveredIsPrefix();
    var c := run[k];
    assert |c.received| == |c.delivered| + |c.InPushersHand()| + |c.buffer| + |c.InPullersHand()|;
  }

  lemma Extended<T(!new)>(missedWake: bool, run: seq<DimChannel<T>>, c: DimChannel<T>) returns (longer: seq<DimChannel<T>>)
    requires IsRun(missedWake, run) && Moved(missedWake, run[|run| - 1], c)
    ensures IsRun(missedWake, longer) && longer[|longer| - 1] == c
  {
    longer := run + [c];
    forall j, k | 0 <= j && k == j + 1 && k < |longer|
      ensures Moved(missedWake, longer[j], longer[k])
    {
      if k < |run| {
        assert Moved(missedWake, run[j], run[k]);
      }
    }
  }

  /** The pusher sees an empty buffer; the value comes and its notification finds nobody waiting; the pusher waits. */
  lemma MissedWakeRun<T(!new)>(v: T) returns (run: seq<DimChannel<T>>)
    ensures IsRun(true, run) && run[|run| - 1].Stuck()
  {
    var c: DimChannel<T> := Empty();
    run := [c];
    run := Extended(true, run, c.Look());
    run := Extended(true, run, c.Look().Receive(v));
    run := Extended(true, run, c.Look().Receive(v).Append());
    run := Extended(true, run, c.Look().Receive(v).Append().Wake());
    run := Extended(true, run, c.Look().Receive(v).Append().Wake().Sleep());
  }

  ghost predicate NeverSleepsOnValues<T(!new)>(missedWake: bool, v: T) {
    forall run: seq<DimChannel<T>> :: IsRun(missedWake, run) ==> !run[|run| - 1].Stuck()
  }

  /** The pusher never sleeps on a value exactly when no notification comes between its look and its wait. */
  lemma NeverSleepsIff<T(!new)>(missedWake: bool, v: T)
    ensures NeverSleepsOnValues(missedWake, v) <==> !missedWake
  {
    if missedWake {
      var run := MissedWakeRun(v);
    } else {
      forall run: seq<DimChannel<T>> | IsRun(missedWake, run)
        ensures !run[|run| - 1].Stuck()
      {
        RunIsFifo(missedWake, run, |run| - 1);
      }
    }
  }

  /** What the goroutines share: the buffer under its mutex, and the notifier the pusher may be waiting on. */
  class Shared<T> {
    var buffer: seq<T>
    var waiting: bool
    const maxBufferElements: int

    constructor (maxBufferElements: int)
      ensures buffer == [] && !waiting && this.maxBufferElements == maxBufferElements
    {
      buffer, waiting := [], false;
      this.maxBufferElements := maxBufferElements;
    }

    /** The fields stand for a channel. */
    ghost predicate Is(c: DimChannel<T>)
      reads this
    {
      c.buffer == buffer && (c.pusher.Asleep? <==> waiting)
    }

    /** The puller's turn: the value is kept even when the buffer is over its size. */
    method Append(ghost c: DimChannel<T>, v: T) returns (overflow: bool)
      requires Is(c) && c.puller == Pulled(v)
      modifies this
      ensures Is(c.Append())
      ensures overflow <==> |old(buffer)| + 1 > maxBufferElements
    {
      buffer := buffer + [v];
      overflow := |buffer| > maxBufferElements;
    }

    /** The puller's notification, which is dropped when nobody waits. */
    method Notify(ghost c: DimChannel<T>) returns (taken: bool)
      requires Is(c) && c.puller.Notifying?
      modifies this
      ensures Is(c.Wake())
      ensures taken <==> c.pusher != c.Wake().pusher
    {
      taken := waiting;
      if waiting {
        waiting := false;
      }
    }

    /** The pusher's turn: the first value, or nothing, and then it goes on to wait. */
    method Look(ghost c: DimChannel<T>) returns (v: Option<T>)
      requires Is(c) && c.pusher.Ready?
      modifies this
      ensures Is(c.Look())
      ensures c.Look().pusher == if v.Some? then Pushing(v.value) else SawEmpty
    {
      if |buffer| == 0 {
        return None;
      }
      v := Some(buffer[0]);
      if |buffer| == 1 {
        buffer := [];
      } else {
        buffer := buffer[1..];
      }
    }

    method Wait(ghost c: DimChannel<T>)
      requires Is(c) && c.pusher.SawEmpty?
      modifies this
      ensures Is(c.Sleep())
    {
      waiting := true;
    }
  }
}
