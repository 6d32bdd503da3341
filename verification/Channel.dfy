/** The unbounded channel between two goroutines: a puller that appends what it receives to a shared
    buffer and tries to wake the pusher, and a pusher that hands the front of the buffer out or sleeps. */
module Channel {

  /** Where the puller stands: waiting for a sender, with a value in hand, or about to notify without blocking. */
  datatype Puller<T> = Receiving | Pulled(value: T) | Notifying

  /** Where the pusher stands: about to look, between seeing an empty buffer and waiting, waiting for a
      notification, or with a value in hand. */
  datatype Pusher<T> = Ready | SawEmpty | Asleep | Pushing(value: T)

  /** `received` and `delivered` are the histories of the two ends. */
  datatype DimChannel<T> = DimChannel(
    received: seq<T>,
    puller: Puller<T>,
    buffer: seq<T>,
    pusher: Pusher<T>,
    delivered: seq<T>)
  {
    /** A sender meets the idle puller. */
    function Receive(v: T): DimChannel<T>
      requires puller.Receiving?
    {
      this.(received := received + [v], puller := Pulled(v))
    }

    function Append(): DimChannel<T>
      requires puller.Pulled?
    {
      this.(buffer := buffer + [puller.value], puller := Notifying)
    }

    /** The non-blocking notification: it reaches the pusher only if that is waiting already. */
    function Wake(): DimChannel<T>
      requires puller.Notifying?
    {
      this.(puller := Receiving, pusher := if pusher.Asleep? then Ready else pusher)
    }

    /** The pusher looks at the buffer under the mutex. */
    function Look(): DimChannel<T>
      requires pusher.Ready?
    {
      if buffer == [] then this.(pusher := SawEmpty)
      else this.(pusher := Pushing(buffer[0]), buffer := buffer[1..])
    }

    function Sleep(): DimChannel<T>
      requires pusher.SawEmpty?
    {
      this.(pusher := Asleep)
    }

    /** The pusher meets a receiver. */
    function Deliver(): DimChannel<T>
      requires pusher.Pushing?
    {
      this.(delivered := delivered + [pusher.value], pusher := Ready)
    }

    function InPullersHand(): seq<T> {
      if puller.Pulled? then [puller.value] else []
    }

    function InPushersHand(): seq<T> {
      if pusher.Pushing? then [pusher.value] else []
    }

    /** Nothing is lost, duplicated or reordered. */
    ghost predicate Fifo() {
      delivered + InPushersHand() + buffer + InPullersHand() == received
    }

    /** A pusher that saw nothing will be woken if there is something. */
    predicate WakesUp() {
      (pusher.SawEmpty? || pusher.Asleep?) && buffer != [] ==> puller.Notifying?
    }

    /** The pusher sleeps on a value, and nobody is about to wake it. */
    predicate Stuck() {
      pusher.Asleep? && buffer != [] && puller.Receiving?
    }

    lemma ReceiveKeepsFifo(v: T)
      requires Fifo() && puller.Receiving?
      ensures Receive(v).Fifo()
    {
      assert delivered + InPushersHand() + buffer + [v] == (delivered + InPushersHand() + buffer + []) + [v];
    }

    lemma AppendKeepsFifo()
      requires Fifo() && puller.Pulled?
      ensures Append().Fifo()
    {
      assert delivered + InPushersHand() + (buffer + [puller.value]) + []
          == delivered + InPushersHand() + buffer + [puller.value];
    }

    lemma LookKeepsFifo()
      requires Fifo() && pusher.Ready?
      ensures Look().Fifo()
    {
      if buffer != [] {
        assert buffer == [buffer[0]] + buffer[1..];
        assert delivered + [buffer[0]] + buffer[1..] + InPullersHand() == delivered + [] + buffer + InPullersHand();
      }
    }

    lemma DeliverKeepsFifo()
      requires Fifo() && pusher.Pushing?
      ensures Deliver().Fifo()
    {
      assert (delivered + [pusher.value]) + [] + buffer + InPullersHand()
          == delivered + [pusher.value] + buffer + InPullersHand();
    }

    lemma DeliveredIsPrefix()
      requires Fifo()
      ensures delivered <= received
      ensures pusher.Pushing? ==> delivered + [pusher.value] <= received
    {
      if pusher.Pushing? {
        assert delivered + [pusher.value] + (buffer + InPullersHand()) == received;
      } else {
        assert delivered + (buffer + InPullersHand()) == received;
      }
    }

    lemma EmptyMeansDelivered()
      requires Fifo() && !puller.Pulled? && buffer == [] && !pusher.Pushing?
      ensures delivered == received
    {
      assert delivered + [] + [] + [] == delivered;
    }
  }
}
