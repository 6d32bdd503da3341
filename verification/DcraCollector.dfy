/** The collecting goroutine of the root process, statement by statement, against the collector of the protocol. */
module DcraCollector {
  import opened PairGraph
  import opened Dcra

  /** A notification as the channel carries it: a mark of one byte, or the stored array of found objects. */
  datatype Value = Mark | Found(objects: seq<string>)

  /** The array a handler stores of what it found. */
  ghost predicate Lists(objects: seq<string>, found: set<string>) {
    forall o :: o in found <==> o in objects
  }

  class Aggregation {
    var pendingMap: map<Pair, bool>
    var resultObjects: seq<string>
    var replies: seq<set<string>>

    ghost function State(): Collector
      reads this
    {
      Collector(pendingMap, (set o | o in resultObjects), replies)
    }

    constructor ()
      ensures State() == Collector(map[], {}, [])
    {
      pendingMap, resultObjects, replies := map[], [], [];
    }

    /** Is no known pair pending? */
    method PendingDone() returns (pendingDone: bool)
      ensures pendingDone <==> forall k <- pendingMap :: !pendingMap[k]
    {
      pendingDone := true;
      var rest := pendingMap.Keys;
      while rest != {}
        invariant rest <= pendingMap.Keys
        invariant pendingDone <==> forall k <- pendingMap.Keys - rest :: !pendingMap[k]
        decreases |rest|
      {
        var k :| k in rest;
        if pendingMap[k] {
          pendingDone := false;
        }
        rest := rest - {k};
      }
    }

    /** The reply holds each found object once. */
    method ResultMap() returns (resultMap: map<string, bool>)
      ensures resultMap.Keys == State().results
    {
      resultMap := map[];
      for i := 0 to |resultObjects|
        invariant resultMap.Keys == set o | o in resultObjects[..i]
      {
        resultMap := resultMap[resultObjects[i] := true];
      }
      assert resultObjects[..|resultObjects|] == resultObjects;
    }

    /** One notification; `finished` when the goroutine replies and returns.  A mark makes only an unknown pair pending;
        an array adds its objects and makes the pair done.  Whatever set a handler found, its array is received as the
        protocol's done mark with that set. */
    method Receive(key: Pair, value: Value) returns (finished: bool)
      modifies this
      ensures value.Mark? ==> resultObjects == old(resultObjects) && replies == old(replies) && !finished
      ensures value.Mark? ==> pendingMap == if key in old(pendingMap) then old(pendingMap) else old(pendingMap)[key := true]
      ensures value.Found? ==> resultObjects == old(resultObjects) + value.objects && pendingMap == old(pendingMap)[key := false]
      ensures value.Found? ==> (finished <==> forall k <- pendingMap :: !pendingMap[k])
      ensures value.Found? ==> replies == old(replies) + if finished then [set o | o in resultObjects] else []
      ensures value.Mark? ==> State() == old(State()).Handle(Pending(key))
      ensures value.Found? ==> forall found :: Lists(value.objects, found) ==> State() == old(State()).Handle(Done(key, found))
    {
      finished := false;
      match value {
        case Mark =>
          if key !in pendingMap {
            pendingMap := pendingMap[key := true];
          }
        case Found(objects) =>
          pendingMap := pendingMap[key := false];
          resultObjects := resultObjects + objects;
          assert State().results == old(State()).results + set o | o in objects;
          finished := PendingDone();
          if finished {
            var resultMap := ResultMap();
            replies := replies + [resultMap.Keys];
          }
          forall found | Lists(objects, found)
            ensures State() == old(State()).Handle(Done(key, found))
          {
            assert found == set o | o in objects;
          }
      }
    }
  }
}
