/** What a user of the query engine gets from either protocol, and when the ids and keys that the protocols
    build from strings are read back right. */
module JpgqlTheorems {
  import opened Wrappers
  import opened Tokens
  import opened Ids
  import opened GraphStore
  import opened PairGraph
  import opened Query
  import opened Jpgql
  import LinkMatch
  import Ctra
  import CtraTheorems
  import Dcra
  import DcraTheorems

  // ---------------------------------------------------------------- what a handler reads

  /** What the handler of a query sent to an object expands: the object it reads back, or nothing when it refuses. */
  function ReadExpand(g: Graph, obj: string, process: string, query: string): Option<map<string, string>>
    requires query != ""
  {
    var parts := IdParts(obj + MARK + process);
    if |parts| == 2 && ValidToken(parts[0]) then Some(Expand(g, parts[0], query)) else None
  }

  /** The handler of a pair expands what the system of pairs says. */
  ghost predicate ReadsAs(g: Graph, p: Pair, process: string) {
    ValidToken(p.obj) && p.query != "" && ReadExpand(g, p.obj, process, p.query) == Some(Expand(g, p.obj, p.query))
  }

  function OneLink(obj: Token): Graph {
    Graph(map[OutBody(LinkId(obj, "t", "y")) := LinkDocument(Body(Some("n"), [], ""))], map[])
  }

  const ONE_STEP := [Step(false, "t", "")]

  lemma OneStepExpands(g: Graph, obj: Token)
    ensures Print(ONE_STEP) != "" && Expand(g, obj, Print(ONE_STEP)) == Each(Targets(g, obj, "t", ""), "")
  {
    assert ONE_STEP[0..] == ONE_STEP && ONE_STEP[1..] == [];
    assert ValidQuery(ONE_STEP);
    ExpandIs(g, ONE_STEP, obj, 0);
  }

  lemma OneLinkTargets(obj: Token, other: Token)
    ensures "y" in Targets(OneLink(obj), other, "t", "") <==> other == obj
  {
    var kv, l := OneLink(obj).kv, LinkId(obj, "t", "y");
    assert OutBody(l) in kv;
    LinkMatch.OutLinksAre(kv, other, "t", l);
    if x :| x in LinkMatch.OutLinks(kv, other, "t") && x.to == "y" {
      LinkMatch.OutLinksAre(kv, other, "t", x);
    }
  }

  lemma OneLinkExpands(obj: Token, other: Token)
    requires obj != other
    ensures Print(ONE_STEP) != "" && Expand(OneLink(obj), obj, Print(ONE_STEP)) != Expand(OneLink(obj), other, Print(ONE_STEP))
  {
    OneStepExpands(OneLink(obj), obj);
    OneStepExpands(OneLink(obj), other);
    OneLinkTargets(obj, obj);
    OneLinkTargets(obj, other);
    assert "y" in Expand(OneLink(obj), obj, Print(ONE_STEP)) && "y" !in Expand(OneLink(obj), other, Print(ONE_STEP));
  }

  /** On every graph and query a handler expands the object it was sent to exactly for plain ids. */
  lemma ReadExpandIff(obj: Token, process: string)
    requires '=' !in process
    ensures (forall g, query | query != "" :: ReadExpand(g, obj, process, query) == Some(Expand(g, obj, query))) <==> PlainId(obj)
  {
    CompositeIdReadBackIff(obj, process);
    if !PlainId(obj) {
      var other := IdParts(obj + MARK + process)[0];
      FirstPartIff(obj, process);
      if ValidToken(other) {
        OneLinkExpands(obj, other);
      }
      assert ReadExpand(OneLink(obj), obj, process, Print(ONE_STEP)) != Some(Expand(OneLink(obj), obj, Print(ONE_STEP)));
    }
  }

  lemma PairsReadBack(g: Graph, root: Token, steps: seq<Step>)
    requires ValidQuery(steps) && PlainIds(g, root)
    ensures forall p, process | p in SystemOf(g, root, steps).expand && '=' !in process :: ReadsAs(g, p, process)
  {
    forall p, process | p in SystemOf(g, root, steps).expand && '=' !in process
      ensures ReadsAs(g, p, process)
    {
      var i := PairHasPlace(g, root, steps, p);
      CompositeIdReadBackIff(p.obj, process);
    }
  }

  // ---------------------------------------------------------------- answers

  /** `found` are the ends of the walks through the graph that match the whole query. */
  ghost predicate Answers(g: Graph, root: Token, steps: seq<Step>, found: set<string>) {
    forall o :: o in found <==> ValidToken(o) && IsAnswer(g, root, steps, o)
  }

  lemma AnswersAreUnique(g: Graph, root: Token, steps: seq<Step>, a: set<string>, b: set<string>)
    requires Answers(g, root, steps, a) && Answers(g, root, steps, b)
    ensures a == b
  {
    assert forall o :: o in a <==> o in b;
  }

  lemma SystemAnswers(g: Graph, root: Token, steps: seq<Step>)
    requires ValidQuery(steps)
    ensures Answers(g, root, steps, SystemOf(g, root, steps).Answer())
  {
    forall o
      ensures o in SystemOf(g, root, steps).Answer() <==> ValidToken(o) && IsAnswer(g, root, steps, o)
    {
      AnswerBySteps(g, root, steps, o);
    }
  }

  /** What the handlers can read back of the ids they are sent to. */
  ghost predicate PlainIds(g: Graph, root: Token) {
    forall o <- Objects(g, root) :: PlainId(o)
  }

  /** Under every delivery order, the call tree on a query over a graph writes at most one result, the query's meaning,
      and has written it when no message is left. */
  lemma CtraAnswersQuery(g: Graph, root: Token, steps: seq<Step>, run: seq<Ctra.Net>)
    requires ValidQuery(steps) && PlainIds(g, root) && Ctra.IsRun(SystemOf(g, root, steps), run)
    ensures forall p, process | p in SystemOf(g, root, steps).expand && '=' !in process :: ReadsAs(g, p, process)
    ensures var s := run[|run| - 1];
      && |s.written| <= 1 && (s.msgs == [] ==> s.written != [])
      && forall w <- s.written :: Answers(g, root, steps, w)
  {
    SystemIsValid(g, root, steps);
    SystemAnswers(g, root, steps);
    PairsReadBack(g, root, steps);
    CtraTheorems.AnswerIsExact(SystemOf(g, root, steps), run);
    CtraTheorems.SilentIffWritten(SystemOf(g, root, steps), run);
  }

  /** Under every interleaving, the direct-cache protocol replies at most once, with the query's meaning, and has
      replied when every handler has finished and every notification was delivered. */
  lemma DcraAnswersQuery(g: Graph, root: Token, steps: seq<Step>, run: seq<Dcra.State>)
    requires ValidQuery(steps) && PlainIds(g, root) && Dcra.IsRun(SystemOf(g, root, steps), run)
    ensures forall p, process | p in SystemOf(g, root, steps).expand && '=' !in process :: ReadsAs(g, p, process)
    ensures var s := run[|run| - 1];
      && |s.collector.replies| <= 1 && (DcraTheorems.Quiet(s) ==> s.collector.replies != [])
      && forall w <- s.collector.replies :: Answers(g, root, steps, w)
  {
    SystemIsValid(g, root, steps);
    SystemAnswers(g, root, steps);
    PairsReadBack(g, root, steps);
    DcraTheorems.ReplyIsExact(SystemOf(g, root, steps), run);
    if DcraTheorems.Quiet(run[|run| - 1]) {
      DcraTheorems.QuietMeansAnswered(SystemOf(g, root, steps), run);
    }
  }

  /** The two protocols agree on every query over every graph. */
  lemma ProtocolsAgree(g: Graph, root: Token, steps: seq<Step>, ctra: seq<Ctra.Net>, dcra: seq<Dcra.State>)
    requires ValidQuery(steps) && PlainIds(g, root)
    requires Ctra.IsRun(SystemOf(g, root, steps), ctra) && Dcra.IsRun(SystemOf(g, root, steps), dcra)
    requires ctra[|ctra| - 1].written != [] && dcra[|dcra| - 1].collector.replies != []
    ensures ctra[|ctra| - 1].written == dcra[|dcra| - 1].collector.replies
  {
    CtraAnswersQuery(g, root, steps, ctra);
    DcraAnswersQuery(g, root, steps, dcra);
    AnswersAreUnique(g, root, steps, ctra[|ctra| - 1].written[0], dcra[|dcra| - 1].collector.replies[0]);
  }

  // ---------------------------------------------------------------- keys of pending entries

  /** What is hashed into the key of a pending entry. */
  function PendingKey(p: Pair): string {
    p.obj + "_" + p.query
  }

  lemma PairStartsWithDot(g: Graph, root: Token, steps: seq<Step>, p: Pair)
    requires ValidQuery(steps) && p in SystemOf(g, root, steps).expand
    ensures ValidToken(p.obj) && p.query != "" && p.query[0] == '.'
  {
    var i := PairHasPlace(g, root, steps, p);
    SuffixValid(steps, i);
    PrintedIsTail(steps[i..]);
  }

  /** Two pairs of one query never share a key, although object ids may hold underscores. */
  lemma PendingKeysDiffer(g: Graph, root: Token, steps: seq<Step>, p: Pair, q: Pair)
    requires ValidQuery(steps) && p in SystemOf(g, root, steps).expand && q in SystemOf(g, root, steps).expand
    requires PendingKey(p) == PendingKey(q)
    ensures p == q
  {
    PairStartsWithDot(g, root, steps, p);
    PairStartsWithDot(g, root, steps, q);
    SplitAtDot(p);
    SplitAtDot(q);
  }

  lemma SplitAtDot(p: Pair)
    requires ValidToken(p.obj) && p.query != "" && p.query[0] == '.'
    ensures FirstDot(PendingKey(p)) == |p.obj| + 1
    ensures p.obj == PendingKey(p)[..|p.obj|] && p.query == PendingKey(p)[|p.obj| + 1..]
  {
    var key := PendingKey(p);
    forall k | 0 <= k < |p.obj| + 1
      ensures key[k] != '.'
    {
      assert k < |p.obj| ==> key[k] == p.obj[k] && p.obj[k] in p.obj;
    }
    FirstDotIs(key, |p.obj| + 1);
  }
}
