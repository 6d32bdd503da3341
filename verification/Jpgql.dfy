/** Path queries on a graph store: what one handler run expands, and the protocols' answers in terms of the steps. */
module Jpgql {
  import opened Wrappers
  import opened Tokens
  import opened GraphStore
  import opened CrudCoherence
  import opened Filter
  import opened LinkMatch
  import opened Query
  import opened PairGraph

  /** The store during a query, and the parsed form of the filter texts; a text without one does not parse. */
  datatype Graph = Graph(kv: Kv, filters: map<string, Expr>)

  /** GetObjectIDsFromLinkTypeAndLinkFilterQuery */
  function Targets(g: Graph, obj: Token, linkType: string, filter: string): set<Token> {
    if filter == "" then TypeTargets(g.kv, obj, linkType)
    else if filter in g.filters && g.filters[filter].WellFormed() then
      set l | l in OutLinks(g.kv, obj, linkType) && HasLink(g.kv, l)
              && Matches(Computed(g.filters[filter]), FactsOfBody(BodyOf(g.kv, l))) :: l.to
    else {}
  }

  function Each(ts: set<Token>, query: string): map<string, string> {
    map t | t in ts :: query
  }

  /** The result objects of a handler run, each with the query to go on with: a target where an any-depth step
      stops goes on with the tail of the stop. */
  function Expand(g: Graph, obj: Token, query: string): map<string, string>
    requires query != ""
  {
    match GetQueryHeadAndTailsParts(query)
    case Malformed => map[]
    case Parts(linkType, filter, tail, stop) =>
      var plain := Each(Targets(g, obj, linkType, filter), tail);
      if stop.None? then plain
      else plain + Each(Targets(g, obj, stop.value.linkType, stop.value.filter), stop.value.tail)
  }

  // ---------------------------------------------------------------- the index-driven handler

  lemma ScanIsTargets(g: Graph, obj: Token, linkType: string, filter: string, t: Token)
    requires filter != "" && filter in g.filters && g.filters[filter].WellFormed()
    ensures t in Targets(g, obj, linkType, filter) <==> ScanFinds(g.kv, obj, linkType, Computed(g.filters[filter]), t)
  {
    var d := Computed(g.filters[filter]);
    if ScanFinds(g.kv, obj, linkType, d, t) {
      var l :| HasLink(g.kv, l) && l.from == obj && (linkType == "*" || l.ltype == linkType) && l.to == t
               && Matches(d, FactsOfBody(BodyOf(g.kv, l)));
      OutLinksAre(g.kv, obj, linkType, l);
    }
    if t in Targets(g, obj, linkType, filter) {
      var l :| l in OutLinks(g.kv, obj, linkType) && HasLink(g.kv, l) && Matches(d, FactsOfBody(BodyOf(g.kv, l))) && l.to == t;
      OutLinksAre(g.kv, obj, linkType, l);
    }
  }

  predicate Parses(g: Graph, filter: string) {
    filter in g.filters && g.filters[filter].WellFormed()
  }

  /** GetObjectIDsFromLinkTypeAndLinkFilterQuery: the object itself when nothing is asked of its links, else the targets
      of the links of the type whose bodies satisfy the filter, if there is one; a filter that does not parse finds
      nothing. */
  method FindTargets(g: Graph, obj: Token, linkType: string, filter: string) returns (targets: set<Token>)
    requires Indexed(g.kv)
    ensures filter == "" && linkType == "" ==> targets == {obj}
    ensures filter == "" && linkType != "" ==> forall t :: t in targets <==> LeadsTo(g.kv, obj, linkType, t)
    ensures filter != "" && Parses(g, filter) ==>
      forall t :: t in targets <==> ScanFinds(g.kv, obj, linkType, Computed(g.filters[filter]), t)
    ensures filter != "" && !Parses(g, filter) ==> targets == {}
    ensures targets == Targets(g, obj, linkType, filter)
  {
    if filter == "" {
      forall t
        ensures linkType != "" ==> (t in TypeTargets(g.kv, obj, linkType) <==> LeadsTo(g.kv, obj, linkType, t))
      {
        TypeTargetsAre(g.kv, obj, linkType, t);
      }
      return TypeTargets(g.kv, obj, linkType);
    }
    targets := {};
    if filter in g.filters {
      var data := Evaluate(g.filters[filter]);
      if data != null {
        ComputedNotEmpty(g.filters[filter]);
        targets := TargetsByIndex(g.kv, obj, linkType, data.dnf);
        forall t: Token
          ensures t in targets <==> t in Targets(g, obj, linkType, filter)
        {
          ScanIsTargets(g, obj, linkType, filter, t);
        }
      }
    }
  }

  /** The query a result object goes on with: 1 marks those where an any-depth step stops. */
  function NextQueries(objects: map<Token, int>, tail: string, stop: Option<AnyDepthStop>): map<string, string> {
    map o | o in objects :: if stop.Some? && objects[o] == 1 then stop.value.tail else tail
  }

  function Marks(plain: set<Token>, stops: set<Token>): map<Token, int> {
    (map o | o in plain :: 0) + (map o | o in stops :: 1)
  }

  lemma MarksExpand(plain: set<Token>, stops: set<Token>, tail: string, stop: Option<AnyDepthStop>)
    requires stop.None? ==> stops == {}
    ensures NextQueries(Marks(plain, stops), tail, stop)
            == if stop.None? then Each(plain, tail) else Each(plain, tail) + Each(stops, stop.value.tail)
  {
  }

  /** Marks the objects where an any-depth step stops. */
  method MarkStops(plain: set<Token>, stops: set<Token>) returns (objects: map<Token, int>)
    ensures objects == Marks(plain, stops)
  {
    objects := map o | o in plain :: 0;
    var rest := stops;
    while rest != {}
      invariant rest <= stops
      invariant objects == Marks(plain, stops - rest)
      decreases |rest|
    {
      var o :| o in rest;
      objects := objects[o := 1];
      rest := rest - {o};
    }
    assert stops - rest == stops;
  }

  /** GetObjectIDsFromLinkTypeAndLinkFilterQueryWithAnyDepthStop, and the choice of the next query for each object:
      together the expansion both protocols rest on. */
  method FindObjects(g: Graph, obj: Token, linkType: string, filter: string, stop: Option<AnyDepthStop>)
    returns (objects: map<Token, int>)
    requires Indexed(g.kv)
    ensures forall query, tail | query != "" && GetQueryHeadAndTailsParts(query) == Parts(linkType, filter, tail, stop) ::
      NextQueries(objects, tail, stop) == Expand(g, obj, query)
  {
    var plain := FindTargets(g, obj, linkType, filter);
    var stops: set<Token> := {};
    if stop.Some? {
      stops := FindTargets(g, obj, stop.value.linkType, stop.value.filter);
    }
    objects := MarkStops(plain, stops);
    forall query, tail | query != "" && GetQueryHeadAndTailsParts(query) == Parts(linkType, filter, tail, stop)
      ensures NextQueries(objects, tail, stop) == Expand(g, obj, query)
    {
      MarksExpand(plain, stops, tail, stop);
    }
  }

  // ---------------------------------------------------------------- the pairs of a query

  function Objects(g: Graph, root: Token): set<Token> {
    {root} + set k | k in g.kv && k.OutBody? :: k.link.to
  }

  ghost predicate ValidQuery(steps: seq<Step>) {
    steps != [] && forall k :: 0 <= k < |steps| ==> WellFormed(steps[k])
  }

  function Pairs(g: Graph, root: Token, steps: seq<Step>): set<Pair> {
    set o, i | o in Objects(g, root) && 0 <= i < |steps| :: Pair(o, Print(steps[i..]))
  }

  /** The pairs a query can visit, with their expansions. */
  function SystemOf(g: Graph, root: Token, steps: seq<Step>): System {
    System(map p | p in Pairs(g, root, steps) && p.query != "" && ValidToken(p.obj) :: Expand(g, p.obj, p.query),
           Pair(root, Print(steps)))
  }

  // ---------------------------------------------------------------- meaning by steps

  /** The body of the link satisfies the filter as it is computed. */
  predicate Accepts(g: Graph, filter: string, l: LinkId) {
    Parses(g, filter) && HasLink(g.kv, l) && Matches(Computed(g.filters[filter]), FactsOfBody(BodyOf(g.kv, l)))
  }

  /** Some link of the type that satisfies the filter, if there is one, leads from `o` to `t`. */
  ghost predicate Hits(g: Graph, o: Token, linkType: string, filter: string, t: Token) {
    exists l :: OutBody(l) in g.kv && l.from == o && l.to == t && (linkType == "*" || l.ltype == linkType)
                && (filter == "" || Accepts(g, filter, l))
  }

  /** From object `o` at step `i` the query moves on to `o'` at step `j`: a step at any depth is left where it hits and
      kept over every other link. */
  ghost predicate Moves(g: Graph, steps: seq<Step>, o: Token, i: nat, o': Token, j: nat)
    requires i < |steps|
  {
    var s := steps[i];
    if s.anyDepth then
      if Hits(g, o, s.linkType, s.filter, o') then j == i + 1 else j == i && Hits(g, o, "*", "", o')
    else Hits(g, o, s.linkType, s.filter, o') && j == i + 1
  }

  datatype Place = Place(obj: Token, step: nat)

  ghost predicate WalkStep(g: Graph, steps: seq<Step>, a: Place, b: Place) {
    a.step < |steps| && Moves(g, steps, a.obj, a.step, b.obj, b.step)
  }

  ghost predicate IsWalk(g: Graph, root: Token, steps: seq<Step>, ps: seq<Place>) {
    && ps != [] && ps[0] == Place(root, 0)
    && forall j, k :: 0 <= j && k == j + 1 && k < |ps| ==> WalkStep(g, steps, ps[j], ps[k])
  }

  /** Some walk matches the whole query and ends at `o`. */
  ghost predicate IsAnswer(g: Graph, root: Token, steps: seq<Step>, o: Token) {
    exists ps :: IsWalk(g, root, steps, ps) && ps[|ps| - 1] == Place(o, |steps|)
  }

  // ---------------------------------------------------------------- one expansion

  lemma TargetsAreHits(g: Graph, o: Token, linkType: string, filter: string, t: Token)
    requires linkType != ""
    ensures t in Targets(g, o, linkType, filter) <==> Hits(g, o, linkType, filter, t)
  {
    if filter == "" {
      TypeTargetsAre(g.kv, o, linkType, t);
    } else if Parses(g, filter) {
      ScanIsTargets(g, o, linkType, filter, t);
    }
  }

  lemma SuffixValid(steps: seq<Step>, i: nat)
    requires ValidQuery(steps) && i < |steps|
    ensures ValidQuery(steps[i..]) && steps[i..][0] == steps[i] && steps[i..][1..] == steps[i + 1..]
    ensures Print(steps[i..]) != "" && |Print(steps[i + 1..])| < |Print(steps[i..])|
  {
    SplitPrinted(steps[i..]);
  }

  /** The handler's string rewriting does to the printed query what the head step does to the list of steps. */
  lemma ExpandIs(g: Graph, steps: seq<Step>, o: Token, i: nat)
    requires ValidQuery(steps) && i < |steps|
    ensures Print(steps[i..]) != ""
    ensures var s := steps[i];
            var hits := Each(Targets(g, o, s.linkType, s.filter), Print(steps[i + 1..]));
            Expand(g, o, Print(steps[i..]))
            == if s.anyDepth then Each(Targets(g, o, "*", ""), Print(steps[i..])) + hits else hits
  {
    SuffixValid(steps, i);
    SplitPrinted(steps[i..]);
  }

  lemma ExpandedMoves(g: Graph, steps: seq<Step>, o: Token, i: nat, o': string) returns (j: nat)
    requires ValidQuery(steps) && i < |steps| && Print(steps[i..]) != "" && o' in Expand(g, o, Print(steps[i..]))
    ensures ValidToken(o') && j <= |steps| && Moves(g, steps, o, i, o', j)
    ensures Expand(g, o, Print(steps[i..]))[o'] == Print(steps[j..])
  {
    ExpandIs(g, steps, o, i);
    TargetsAreHits(g, o, steps[i].linkType, steps[i].filter, o');
    TargetsAreHits(g, o, "*", "", o');
    j := if o' in Targets(g, o, steps[i].linkType, steps[i].filter) then i + 1 else i;
  }

  lemma MoveIsExpanded(g: Graph, steps: seq<Step>, o: Token, i: nat, o': Token, j: nat)
    requires ValidQuery(steps) && i < |steps| && Moves(g, steps, o, i, o', j)
    ensures j <= |steps| && Print(steps[i..]) != "" && o' in Expand(g, o, Print(steps[i..]))
    ensures Expand(g, o, Print(steps[i..]))[o'] == Print(steps[j..])
  {
    ExpandIs(g, steps, o, i);
    TargetsAreHits(g, o, steps[i].linkType, steps[i].filter, o');
    TargetsAreHits(g, o, "*", "", o');
  }

  lemma MovesStayInside(g: Graph, root: Token, steps: seq<Step>, o: Token, i: nat, o': Token, j: nat)
    requires i < |steps| && Moves(g, steps, o, i, o', j)
    ensures o' in Objects(g, root) && i <= j <= i + 1
  {
    var l :| OutBody(l) in g.kv && l.to == o';
    assert OutBody(l).link == l;
  }

  /** The query of a single dot asks for no links and finds the object itself. */
  lemma LoneDot(g: Graph, o: Token)
    ensures Expand(g, o, ".") == map[o := ""]
  {
    TypeTargetsAre(g.kv, o, "", o);
    assert forall t: Token :: t in TypeTargets(g.kv, o, "") ==> t == o by {
      forall t: Token
        ensures t in TypeTargets(g.kv, o, "") ==> t == o
      {
        TypeTargetsAre(g.kv, o, "", t);
      }
    }
  }

  // ---------------------------------------------------------------- the system of pairs

  lemma PairOf(g: Graph, root: Token, steps: seq<Step>, o: Token, i: nat)
    requires ValidQuery(steps) && o in Objects(g, root) && i < |steps|
    ensures var p, sys := Pair(o, Print(steps[i..])), SystemOf(g, root, steps);
            p in sys.expand && p.query != "" && sys.expand[p] == Expand(g, o, p.query)
  {
    SuffixValid(steps, i);
    assert Pair(o, Print(steps[i..])) in Pairs(g, root, steps);
  }

  lemma PairHasPlace(g: Graph, root: Token, steps: seq<Step>, p: Pair) returns (i: nat)
    requires ValidQuery(steps) && p in SystemOf(g, root, steps).expand
    ensures i < |steps| && ValidToken(p.obj) && p.obj in Objects(g, root) && p.query == Print(steps[i..])
  {
    var o, k :| o in Objects(g, root) && 0 <= k < |steps| && Pair(o, Print(steps[k..])) == p;
    i := k;
  }

  /** A call leads to a pair of the system. */
  lemma CallIsMove(g: Graph, root: Token, steps: seq<Step>, o: Token, i: nat, c: Pair) returns (j: nat)
    requires ValidQuery(steps) && o in Objects(g, root) && i < |steps|
    requires Pair(o, Print(steps[i..])) in SystemOf(g, root, steps).expand
    requires c in SystemOf(g, root, steps).Calls(Pair(o, Print(steps[i..])))
    ensures ValidToken(c.obj) && c.obj in Objects(g, root)
    ensures j < |steps| && c.query == Print(steps[j..]) && Moves(g, steps, o, i, c.obj, j)
  {
    PairOf(g, root, steps, o, i);
    j := ExpandedMoves(g, steps, o, i, c.obj);
    MovesStayInside(g, root, steps, o, i, c.obj, j);
    assert steps[|steps|..] == [];
  }

  /** Every well-formed query on a finite store is a valid system: its calls stay among finitely many pairs,
      so both protocols answer it exactly. */
  lemma SystemIsValid(g: Graph, root: Token, steps: seq<Step>)
    requires ValidQuery(steps)
    ensures SystemOf(g, root, steps).Valid()
  {
    var sys := SystemOf(g, root, steps);
    assert steps[0..] == steps;
    PairOf(g, root, steps, root, 0);
    forall p <- sys.expand
      ensures sys.Calls(p) <= sys.expand.Keys
    {
      var i := PairHasPlace(g, root, steps, p);
      forall c <- sys.Calls(p)
        ensures c in sys.expand
      {
        var j := CallIsMove(g, root, steps, p.obj, i, c);
        PairOf(g, root, steps, c.obj, j);
      }
    }
  }

  // ---------------------------------------------------------------- the answer by steps

  /** The places whose pairs are reachable in the system. */
  ghost function Reached(g: Graph, root: Token, steps: seq<Step>): iset<Place> {
    iset a: Place | a.step < |steps| && a.obj in Objects(g, root)
                    && Pair(a.obj, Print(steps[a.step..])) in SystemOf(g, root, steps).expand
                    && SystemOf(g, root, steps).Reachable(Pair(a.obj, Print(steps[a.step..])))
  }

  lemma MoveReaches(g: Graph, root: Token, steps: seq<Step>, a: Place, b: Place)
    requires ValidQuery(steps) && WalkStep(g, steps, a, b) && b.step < |steps|
    requires a in Reached(g, root, steps)
    ensures b in Reached(g, root, steps)
  {
    var sys := SystemOf(g, root, steps);
    var p, c := Pair(a.obj, Print(steps[a.step..])), Pair(b.obj, Print(steps[b.step..]));
    SystemIsValid(g, root, steps);
    MovesStayInside(g, root, steps, a.obj, a.step, b.obj, b.step);
    MoveIsExpanded(g, steps, a.obj, a.step, b.obj, b.step);
    PairOf(g, root, steps, a.obj, a.step);
    PairOf(g, root, steps, b.obj, b.step);
    assert c in sys.Calls(p);
    sys.CallReachable(p, c);
  }

  lemma RootReached(g: Graph, root: Token, steps: seq<Step>)
    requires ValidQuery(steps)
    ensures Place(root, 0) in Reached(g, root, steps)
  {
    assert steps[0..] == steps;
    PairOf(g, root, steps, root, 0);
    SystemIsValid(g, root, steps);
    SystemOf(g, root, steps).RootReachable();
  }

  ghost predicate ClosedUnderMoves(g: Graph, steps: seq<Step>, places: iset<Place>) {
    forall a, b :: a in places && WalkStep(g, steps, a, b) && b.step < |steps| ==> b in places
  }

  /** A walk never leaves a set of places that holds its start and is closed under moves. */
  lemma {:induction false} WalkStays(g: Graph, root: Token, steps: seq<Step>, ps: seq<Place>, k: nat, places: iset<Place>)
    requires IsWalk(g, root, steps, ps) && k < |ps| && ps[k].step < |steps|
    requires Place(root, 0) in places && ClosedUnderMoves(g, steps, places)
    ensures ps[k] in places
    decreases k
  {
    if k > 0 {
      var a, b := ps[k - 1], ps[k];
      assert WalkStep(g, steps, a, b);
      WalkStays(g, root, steps, ps, k - 1, places);
    }
  }

  lemma WalkReaches(g: Graph, root: Token, steps: seq<Step>, ps: seq<Place>, k: nat)
    requires ValidQuery(steps) && IsWalk(g, root, steps, ps) && k < |ps| && ps[k].step < |steps|
    ensures ps[k] in Reached(g, root, steps)
  {
    var places := Reached(g, root, steps);
    RootReached(g, root, steps);
    forall a, b | a in places && WalkStep(g, steps, a, b) && b.step < |steps|
      ensures b in places
    {
      MoveReaches(g, root, steps, a, b);
    }
    WalkStays(g, root, steps, ps, k, places);
  }

  lemma WalkExtends(g: Graph, root: Token, steps: seq<Step>, ps: seq<Place>, b: Place)
    requires IsWalk(g, root, steps, ps) && WalkStep(g, steps, ps[|ps| - 1], b)
    ensures IsWalk(g, root, steps, ps + [b])
  {
  }

  /** The pair `qs[k]` on a path of calls stands at the end of a walk. */
  lemma {:induction false} PathWalks(g: Graph, root: Token, steps: seq<Step>, qs: seq<Pair>, k: nat)
    returns (ps: seq<Place>, a: Place)
    requires ValidQuery(steps) && SystemOf(g, root, steps).IsPath(qs) && k < |qs|
    ensures IsWalk(g, root, steps, ps) && ps[|ps| - 1] == a
    ensures a.step < |steps| && a.obj in Objects(g, root) && qs[k] == Pair(a.obj, Print(steps[a.step..]))
    decreases k
  {
    if k == 0 {
      assert steps[0..] == steps;
      a := Place(root, 0);
      ps := [a];
    } else {
      ps, a := PathWalks(g, root, steps, qs, k - 1);
      var j := CallIsMove(g, root, steps, a.obj, a.step, qs[k]);
      WalkExtends(g, root, steps, ps, Place(qs[k].obj, j));
      a := Place(qs[k].obj, j);
      ps := ps + [a];
    }
  }

  lemma WalkIsAnswered(g: Graph, root: Token, steps: seq<Step>, ps: seq<Place>, o: Token)
    requires ValidQuery(steps) && IsWalk(g, root, steps, ps) && ps[|ps| - 1] == Place(o, |steps|)
    ensures o in SystemOf(g, root, steps).Answer()
  {
    var sys := SystemOf(g, root, steps);
    var a, b := ps[|ps| - 2], ps[|ps| - 1];
    assert WalkStep(g, steps, a, b);
    WalkReaches(g, root, steps, ps, |ps| - 2);
    MoveIsExpanded(g, steps, a.obj, a.step, b.obj, b.step);
    PairOf(g, root, steps, a.obj, a.step);
    assert steps[|steps|..] == [];
    assert o in sys.Found(Pair(a.obj, Print(steps[a.step..])));
  }

  lemma FoundIsMove(g: Graph, root: Token, steps: seq<Step>, a: Place, o: string)
    requires ValidQuery(steps) && a.step < |steps| && a.obj in Objects(g, root)
    requires Pair(a.obj, Print(steps[a.step..])) in SystemOf(g, root, steps).expand
    requires o in SystemOf(g, root, steps).Found(Pair(a.obj, Print(steps[a.step..])))
    ensures ValidToken(o) && WalkStep(g, steps, a, Place(o, |steps|))
  {
    PairOf(g, root, steps, a.obj, a.step);
    var j := ExpandedMoves(g, steps, a.obj, a.step, o);
    if j < |steps| {
      SuffixValid(steps, j);
    }
  }

  lemma FoundIsWalk(g: Graph, root: Token, steps: seq<Step>, qs: seq<Pair>, o: string)
    requires ValidQuery(steps) && SystemOf(g, root, steps).IsPath(qs)
    requires o in SystemOf(g, root, steps).Found(qs[|qs| - 1])
    ensures ValidToken(o) && IsAnswer(g, root, steps, o)
  {
    var ps, a := PathWalks(g, root, steps, qs, |qs| - 1);
    FoundIsMove(g, root, steps, a, o);
    WalkEnds(g, root, steps, ps, o);
  }

  lemma WalkEnds(g: Graph, root: Token, steps: seq<Step>, ps: seq<Place>, o: Token)
    requires IsWalk(g, root, steps, ps) && WalkStep(g, steps, ps[|ps| - 1], Place(o, |steps|))
    ensures IsAnswer(g, root, steps, o)
  {
    WalkExtends(g, root, steps, ps, Place(o, |steps|));
    var walk := ps + [Place(o, |steps|)];
    assert walk[|walk| - 1] == Place(o, |steps|);
  }

  /** The answer computed on pairs of objects and query strings is the set of ends of walks through the graph that
      match the steps of the query one after the other. */
  lemma AnswerBySteps(g: Graph, root: Token, steps: seq<Step>, o: string)
    requires ValidQuery(steps)
    ensures o in SystemOf(g, root, steps).Answer() <==> ValidToken(o) && IsAnswer(g, root, steps, o)
  {
    var sys := SystemOf(g, root, steps);
    if o in sys.Answer() {
      var p :| p in sys.expand && sys.Reachable(p) && o in sys.Found(p);
      var qs :| sys.IsPath(qs) && qs[|qs| - 1] == p;
      FoundIsWalk(g, root, steps, qs, o);
    }
    if ValidToken(o) && IsAnswer(g, root, steps, o) {
      var ps :| IsWalk(g, root, steps, ps) && ps[|ps| - 1] == Place(o, |steps|);
      WalkIsAnswered(g, root, steps, ps, o);
    }
  }
}
