/** The reference semantics of a path query: plain reachability on
    (object, remaining query) pairs.  Both message protocols are measured against it. */
module PairGraph {

  /** An object together with the part of the query still to be matched from it. */
  datatype Pair = Pair(obj: string, query: string)

  /** `expand[p]` is what one handler run on `p` computes: the matched target objects, each with
      the query to continue with; the empty query marks a target as a found object. */
  datatype System = System(expand: map<Pair, map<string, string>>, root: Pair)
  {
    /** The pairs the handler of `p` calls. */
    function Calls(p: Pair): set<Pair>
      requires p in expand
    {
      set o | o in expand[p] && expand[p][o] != "" :: Pair(o, expand[p][o])
    }

    /** The objects the handler of `p` finds by itself. */
    function Found(p: Pair): set<string>
      requires p in expand
    {
      set o | o in expand[p] && expand[p][o] == ""
    }

    /** The query is evaluated on a fixed finite graph: calls stay among the known pairs. */
    ghost predicate Valid() {
      && root in expand
      && forall p <- expand :: Calls(p) <= expand.Keys
    }

    /** `ps` leads from the root pair by calls. */
    ghost predicate IsPath(ps: seq<Pair>) {
      && ps != []
      && ps[0] == root
      && (forall k :: 0 <= k < |ps| ==> ps[k] in expand)
      && (forall k :: 0 < k < |ps| ==> ps[k] in Calls(ps[k - 1]))
    }

    ghost predicate Reachable(p: Pair) {
      exists ps :: IsPath(ps) && ps[|ps| - 1] == p
    }

    /** The answer of the query: every object found from some reachable pair. */
    ghost function Answer(): set<string> {
      set p, o | p in expand && Reachable(p) && o in Found(p) :: o
    }

    lemma RootReachable()
      requires Valid()
      ensures Reachable(root)
    {
      assert IsPath([root]);
    }

    lemma CallReachable(p: Pair, c: Pair)
      requires Valid() && p in expand && Reachable(p) && c in Calls(p)
      ensures c in expand && Reachable(c)
    {
      var ps :| IsPath(ps) && ps[|ps| - 1] == p;
      assert IsPath(ps + [c]);
    }

    lemma {:induction false} PathStaysInside(s: set<Pair>, ps: seq<Pair>, k: nat)
      requires IsPath(ps) && k < |ps| && root in s
      requires forall p <- s :: p in expand && Calls(p) <= s
      ensures ps[k] in s
    {
      if k > 0 {
        PathStaysInside(s, ps, k - 1);
      }
    }

    /** A set of reachable pairs that holds the root and is closed under calls finds exactly the answer. */
    lemma ClosedSetFindsAnswer(s: set<Pair>, found: set<string>)
      requires root in s
      requires forall p <- s :: p in expand && Calls(p) <= s && Reachable(p)
      requires forall o :: o in found <==> exists p :: p in s && o in Found(p)
      ensures found == Answer()
    {
      forall o | o in Answer()
        ensures o in found
      {
        var p :| p in expand && Reachable(p) && o in Found(p);
        var ps :| IsPath(ps) && ps[|ps| - 1] == p;
        PathStaysInside(s, ps, |ps| - 1);
      }
    }
  }
}
