/** One node of the cache: its value and the flags that say what the key/value store still has to
    hear and whether the node may be dropped. */
module CacheEntry {
  import opened Wrappers

  newtype byte = x: int | 0 <= x < 256

  type Bytes = seq<byte>

  /** 0: in use, 1: to be purged, 2: may be purged. */
  datatype Purge = InUse | Ready | Confirmed

  /** `value` is None for a node that was deleted or is only on the way to longer keys.
      `syncNeeded`: the writer still has to put the value; `synced`: the store has echoed it. */
  datatype Entry = Entry(value: Option<Bytes>, purge: Purge, time: int, syncNeeded: bool, synced: bool) {

    function TryPurgeReady(): Entry {
      if purge.InUse? then this.(purge := Ready) else this
    }

    function TryPurgeConfirm(): Entry {
      if !syncNeeded && synced && purge.Ready? then this.(purge := Confirmed) else this
    }

    function Delete(updateInKv: bool, at: int): Entry {
      Entry(None, if updateInKv then Ready else Confirmed, at, updateInKv, !updateInKv)
    }

    /** The lazy writer meets a node that has nothing to write. */
    function Aged(threshold: int): Entry {
      if 0 < time <= threshold && purge.InUse? then TryPurgeReady().TryPurgeConfirm() else this
    }

    /** The lazy writer has put what it captured at time `captured`. */
    function Written(captured: int): Entry {
      if captured == time then this.(syncNeeded := false) else this
    }

    /** The store echoes the write of the node's own time. */
    function Echoed(): Entry {
      this.(synced := true).TryPurgeConfirm()
    }

    /** The store reports an empty record. */
    function Emptied(): Entry {
      this.(synced := true).TryPurgeReady().TryPurgeConfirm()
    }

    /** What a collector leaves of a node without children and subscribers. */
    function Collected(): Entry {
      if value.None? && synced then TryPurgeReady().TryPurgeConfirm() else this
    }

    predicate Droppable() {
      purge.Confirmed? && !syncNeeded && synced
    }

    /** A confirmed purge never hides a pending write. */
    predicate PurgeSafe() {
      purge.Confirmed? ==> !syncNeeded && synced
    }
  }

  /** A node that is given a value, new or not. */
  function Filled(value: Bytes, updateInKv: bool, at: int): Entry {
    Entry(Some(value), InUse, at, updateInKv, !updateInKv)
  }

  /** Every change of a node keeps a confirmed purge safe, so the collector's second look at the flags
      never stops it: a node is dropped exactly when its purge is confirmed. */
  lemma PurgeStaysSafe(e: Entry, value: Bytes, flag: bool, at: int)
    requires e.PurgeSafe()
    ensures forall f <- {Filled(value, flag, at), e.Delete(flag, at), e.TryPurgeReady(), e.TryPurgeConfirm(), e.Aged(at),
      e.Written(at), e.Echoed(), e.Emptied(), e.Collected()} :: f.PurgeSafe()
    ensures e.Droppable() <==> e.purge.Confirmed?
  {
  }

  /** A deleted node that the store has to hear of stays until it was written and echoed, and then is dropped; one that
      the store need not hear of is dropped at once. */
  lemma DeletedNodeGoes(e: Entry, at: int, other: int)
    ensures var d := e.Delete(true, at);
      && d.value.None? && d.time == at && d.syncNeeded && !d.Droppable()
      && !d.Echoed().Droppable() && !d.Emptied().Droppable() && !d.Written(at).Droppable()
      && (other != at ==> !d.Written(other).Echoed().Droppable())
      && d.Written(at).Echoed().Droppable() && d.Written(at).Emptied().Droppable()
    ensures e.Delete(false, at).value.None? && e.Delete(false, at).time == at && e.Delete(false, at).Droppable()
  {
  }

  /** A collector finds a node droppable when its purge is confirmed, or when it holds no value and has nothing to write. */
  lemma CollectedIff(e: Entry)
    requires e.PurgeSafe()
    ensures e.Collected().Droppable() <==> e.purge.Confirmed? || (e.value.None? && e.synced && !e.syncNeeded)
    ensures e.Collected().value == e.value && e.Collected().time == e.time
    ensures e.Collected().syncNeeded == e.syncNeeded && e.Collected().synced == e.synced
  {
  }

  class StoreValue {
    var value: Option<Bytes>
    var valueExists: bool
    var purgeState: int
    var valueUpdateTime: int
    var syncNeeded: bool
    var syncedWithKv: bool

    predicate Valid()
      reads this
    {
      (valueExists <==> value.Some?) && 0 <= purgeState <= 2
    }

    function Snapshot(): Entry
      requires Valid()
      reads this
    {
      Entry(value, if purgeState == 0 then InUse else if purgeState == 1 then Ready else Confirmed,
            valueUpdateTime, syncNeeded, syncedWithKv)
    }

    constructor (bytes: Bytes, updateInKv: bool, at: int)
      ensures Valid() && Snapshot() == Filled(bytes, updateInKv, at)
    {
      value, valueExists, purgeState := Some(bytes), true, 0;
      valueUpdateTime, syncNeeded, syncedWithKv := at, updateInKv, !updateInKv;
    }

    method Put(bytes: Bytes, updateInKv: bool, at: int)
      requires Valid()
      modifies this
      ensures Valid() && Snapshot() == Filled(bytes, updateInKv, at)
    {
      value := Some(bytes);
      valueExists := true;
      purgeState := 0;
      valueUpdateTime := at;
      syncNeeded := updateInKv;
      syncedWithKv := !updateInKv;
    }

    method Delete(updateInKv: bool, at: int)
      requires Valid()
      modifies this
      ensures Valid() && Snapshot() == old(Snapshot()).Delete(updateInKv, at)
    {
      value := None;
      valueExists := false;
      valueUpdateTime := at;
      if updateInKv {
        purgeState := 1;
        syncNeeded := true;
        syncedWithKv := false;
      } else {
        purgeState := 2;
        syncNeeded := false;
        syncedWithKv := true;
      }
    }

    method TryPurgeReady() returns (done: bool)
      requires Valid()
      modifies this`purgeState
      ensures Valid() && Snapshot() == old(Snapshot()).TryPurgeReady()
      ensures done <==> Snapshot() != old(Snapshot())
    {
      done := purgeState == 0;
      if done {
        purgeState := 1;
      }
    }

    method TryPurgeConfirm() returns (done: bool)
      requires Valid()
      modifies this`purgeState
      ensures Valid() && Snapshot() == old(Snapshot()).TryPurgeConfirm()
      ensures done <==> Snapshot() != old(Snapshot())
    {
      done := !syncNeeded && syncedWithKv && purgeState == 1;
      if done {
        purgeState := 2;
      }
    }

    /** The collector's decision about a node. */
    method CollectGarbage(children: bool, subscribed: bool) returns (drop: bool)
      requires Valid()
      modifies this`purgeState
      ensures Valid() && Snapshot() == if children then old(Snapshot()) else old(Snapshot()).Collected()
      ensures drop <==> Snapshot().Droppable() && !children && !subscribed
    {
      if !valueExists && !children && syncedWithKv {
        var _ := TryPurgeReady();
        var _ := TryPurgeConfirm();
      }
      drop := purgeState == 2 && !children && !syncNeeded && syncedWithKv && !subscribed;
    }

    /** The writer's look at a node: what to put into the store, if anything. */
    method Look(threshold: int) returns (captured: Option<(int, Option<Bytes>)>)
      requires Valid()
      modifies this`purgeState
      ensures Valid()
      ensures captured == if syncNeeded then Some((valueUpdateTime, value)) else None
      ensures Snapshot() == if syncNeeded then old(Snapshot()) else old(Snapshot()).Aged(threshold)
    {
      captured := None;
      if syncNeeded {
        captured := Some((valueUpdateTime, value));
      } else if valueUpdateTime > 0 && valueUpdateTime <= threshold && purgeState == 0 {
        var _ := TryPurgeReady();
        var _ := TryPurgeConfirm();
      }
    }

    method MarkWritten(captured: int)
      requires Valid()
      modifies this`syncNeeded
      ensures Valid() && Snapshot() == old(Snapshot()).Written(captured)
    {
      if captured == valueUpdateTime {
        syncNeeded := false;
      }
    }

    method Echo(empty: bool)
      requires Valid()
      modifies this`purgeState, this`syncedWithKv
      ensures Valid() && Snapshot() == if empty then old(Snapshot()).Emptied() else old(Snapshot()).Echoed()
    {
      syncedWithKv := true;
      if empty {
        var _ := TryPurgeReady();
      }
      var _ := TryPurgeConfirm();
    }
  }
}
