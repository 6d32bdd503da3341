/** The worklist traversal that collects the graph below a vertex. */
module Traverse {
  import opened Wrappers
  import opened Tokens
  import opened GraphStore

  /** A child as read off a link key: target, link type and the key itself. */
  datatype Child = Child(id: Token, lt: Token, linkID: string)

  datatype Link = Link(from: string, to: string, lt: string, objectLt: string, cacheID: string)

  function ChildOf(l: LinkId): Child {
    Child(l.to, l.ltype, OutBody(l).Rendered())
  }

  function LinkOf(l: LinkId): Link {
    Link(l.from, l.to, l.ltype, "", OutBody(l).Rendered())
  }

  /** The key under which the traversal files a link: three names run together. */
  function LinkKey(l: LinkId): string {
    l.from + l.to + l.ltype
  }

  ghost predicate IsPath(kv: Kv, ps: seq<Token>) {
    ps != [] && forall j, k :: 0 <= j && k == j + 1 && k < |ps| ==> Linked(kv, ps[j], ps[k])
  }

  ghost predicate Linked(kv: Kv, a: Token, b: Token) {
    exists l :: OutBody(l) in kv && l.from == a && l.to == b
  }

  ghost predicate Reaches(kv: Kv, start: Token, o: Token) {
    exists ps :: IsPath(kv, ps) && ps[0] == start && ps[|ps| - 1] == o
  }

  lemma ReachesSelf(kv: Kv, start: Token)
    ensures Reaches(kv, start, start)
  {
    assert IsPath(kv, [start]);
  }

  lemma ReachesNext(kv: Kv, start: Token, a: Token, b: Token)
    requires Reaches(kv, start, a) && Linked(kv, a, b)
    ensures Reaches(kv, start, b)
  {
    var ps :| IsPath(kv, ps) && ps[0] == start && ps[|ps| - 1] == a;
    assert IsPath(kv, ps + [b]);
  }

  ghost predicate ClosedUnderLinks(kv: Kv, s: set<Token>) {
    forall a, b :: a in s && Linked(kv, a, b) ==> b in s
  }

  lemma {:induction false} PathStays(kv: Kv, ps: seq<Token>, s: set<Token>, k: nat)
    requires IsPath(kv, ps) && ps[0] in s && ClosedUnderLinks(kv, s) && k < |ps|
    ensures ps[k] in s
    decreases k
  {
    if k > 0 {
      var a, b := ps[k - 1], ps[k];
      assert Linked(kv, a, b);
      PathStays(kv, ps, s, k - 1);
    }
  }

  /** All vertices the traversal can meet. */
  function Universe(kv: Kv, start: Token): set<Token> {
    {start} + set k | k in kv && k.OutBody? :: k.link.to
  }

  function OutLinksOf(kv: Kv, id: Token): set<LinkId> {
    set k | k in kv && k.OutBody? && k.link.from == id :: k.link
  }

  lemma OutLinkIn(kv: Kv, id: Token, l: LinkId)
    ensures l in OutLinksOf(kv, id) <==> OutBody(l) in kv && l.from == id
  {
    assert OutBody(l).link == l;
  }

  /** getChildren: one entry per link key, in whatever order the keys come. */
  method GetChildren(kv: Kv, id: Token) returns (nodes: seq<Child>, ghost order: seq<LinkId>)
    ensures |nodes| == |order| && forall i :: 0 <= i < |nodes| ==> nodes[i] == ChildOf(order[i])
    ensures forall l :: l in order <==> OutBody(l) in kv && l.from == id
    ensures |nodes| == |OutLinksOf(kv, id)|
    ensures forall l :: OutBody(l) in kv && l.from == id ==> ChildOf(l) in nodes
  {
    var todo := OutLinksOf(kv, id);
    nodes, order := [], [];
    while todo != {}
      invariant todo <= OutLinksOf(kv, id)
      invariant |nodes| == |order| && forall i :: 0 <= i < |nodes| ==> nodes[i] == ChildOf(order[i])
      invariant forall l :: l in order <==> l in OutLinksOf(kv, id) && l !in todo
      invariant |nodes| + |todo| == |OutLinksOf(kv, id)|
    {
      var l :| l in todo;
      todo := todo - {l};
      nodes := nodes + [ChildOf(l)];
      order := order + [l];
    }
    forall l
      ensures l in order <==> OutBody(l) in kv && l.from == id
    {
      OutLinkIn(kv, id, l);
    }
    forall l | OutBody(l) in kv && l.from == id
      ensures ChildOf(l) in nodes
    {
      var i :| 0 <= i < |order| && order[i] == l;
      assert nodes[i] in nodes;
    }
  }

  /** The position of the first queue entry not yet visited, or the length of the queue. */
  function FirstUnvisited(queue: seq<Token>, visited: set<Token>): (i: nat)
    ensures i <= |queue|
    ensures forall j :: 0 <= j < i ==> queue[j] in visited
    ensures i < |queue| ==> queue[i] !in visited
  {
    if queue == [] || queue[0] !in visited then 0 else 1 + FirstUnvisited(queue[1..], visited)
  }

  ghost predicate IsFiled(kv: Kv, objects: set<Token>, key: string, link: Link) {
    exists l :: OutBody(l) in kv && l.from in objects && LinkKey(l) == key && link == LinkOf(l)
  }

  /** Whatever is filed is a link out of a vertex of `objects`. */
  ghost predicate LinksSound(kv: Kv, objects: set<Token>, links: map<string, Link>) {
    forall key <- links :: IsFiled(kv, objects, key, links[key])
  }

  /** The key of every link out of a vertex of `objects` is taken. */
  ghost predicate LinksComplete(kv: Kv, objects: set<Token>, links: map<string, Link>) {
    forall l :: OutBody(l) in kv && l.from in objects ==> LinkKey(l) in links
  }

  lemma SoundForMore(kv: Kv, objects: set<Token>, more: set<Token>, links: map<string, Link>)
    requires LinksSound(kv, objects, links) && objects <= more
    ensures LinksSound(kv, more, links)
  {
    forall key <- links
      ensures IsFiled(kv, more, key, links[key])
    {
      assert IsFiled(kv, objects, key, links[key]);
    }
  }

  /** Every child of a visited vertex is visited or still queued. */
  ghost predicate Pending(kv: Kv, objects: set<Token>, queue: seq<Token>) {
    forall a, b :: a in objects && Linked(kv, a, b) ==> b in objects || b in queue
  }

  /** Files the link of a child unless its key is taken. */
  method FileLink(kv: Kv, node: Token, ch: Child, objects: set<Token>, links: map<string, Link>, ghost l: LinkId)
    returns (links': map<string, Link>)
    requires OutBody(l) in kv && l.from == node && node in objects && ch == ChildOf(l)
    requires LinksSound(kv, objects, links)
    ensures LinksSound(kv, objects, links') && links'.Keys == links.Keys + {LinkKey(l)}
  {
    links' := links;
    var linkID := node + ch.id + ch.lt;
    if linkID !in links {
      links' := links[linkID := Link(node, ch.id, ch.lt, "", ch.linkID)];
      assert IsFiled(kv, objects, linkID, LinkOf(l));
    }
  }

  method FileLinks(kv: Kv, node: Token, children: seq<Child>, objects: set<Token>, links: map<string, Link>, ghost order: seq<LinkId>)
    returns (links': map<string, Link>)
    requires |children| == |order| && forall i :: 0 <= i < |order| ==> children[i] == ChildOf(order[i])
    requires node in objects && forall i :: 0 <= i < |order| ==> OutBody(order[i]) in kv && order[i].from == node
    requires LinksSound(kv, objects, links)
    ensures LinksSound(kv, objects, links')
    ensures links.Keys <= links'.Keys && KeysOf(order) <= links'.Keys
  {
    links' := links;
    var i := 0;
    while i < |children|
      invariant i <= |children|
      invariant LinksSound(kv, objects, links')
      invariant links.Keys <= links'.Keys && KeysOf(order[..i]) <= links'.Keys
    {
      KeysOfOneMore(order, i);
      links' := FileLink(kv, node, children[i], objects, links', order[i]);
      i := i + 1;
    }
    assert order[..i] == order;
  }

  function KeysOf(order: seq<LinkId>): set<string> {
    set l | l in order :: LinkKey(l)
  }

  lemma KeysOfOneMore(order: seq<LinkId>, i: nat)
    requires i < |order|
    ensures KeysOf(order[..i + 1]) == KeysOf(order[..i]) + {LinkKey(order[i])}
  {
    assert order[..i + 1] == order[..i] + [order[i]];
  }

  /** Queues the children not visited. */
  method QueueChildren(children: seq<Child>, objects: set<Token>, queue: seq<Token>) returns (queue': seq<Token>, ghost pushed: seq<Token>)
    ensures queue' == queue + pushed && queue <= queue' && |queue'| <= |queue| + |children|
    ensures forall b :: b in pushed <==> b !in objects && exists i :: 0 <= i < |children| && children[i].id == b
    ensures forall i :: 0 <= i < |children| ==> children[i].id in objects || children[i].id in queue'
  {
    queue', pushed := queue, [];
    var i := 0;
    while i < |children|
      invariant i <= |children|
      invariant queue' == queue + pushed && |pushed| <= i
      invariant forall b :: b in pushed <==> b !in objects && exists k :: 0 <= k < i && children[k].id == b
    {
      if children[i].id !in objects {
        queue' := queue' + [children[i].id];
        pushed := pushed + [children[i].id];
      }
      i := i + 1;
    }
  }

  lemma ChildrenAreLinked(kv: Kv, node: Token, children: seq<Child>, order: seq<LinkId>, b: Token)
    requires |children| == |order| && forall i :: 0 <= i < |order| ==> children[i] == ChildOf(order[i])
    requires forall l :: l in order <==> OutBody(l) in kv && l.from == node
    ensures (exists i :: 0 <= i < |children| && children[i].id == b) <==> Linked(kv, node, b)
  {
    if i :| 0 <= i < |children| && children[i].id == b {
      assert order[i] in order;
    }
    if Linked(kv, node, b) {
      var l :| OutBody(l) in kv && l.from == node && l.to == b;
      var i :| 0 <= i < |order| && order[i] == l;
      assert children[i].id == b;
    }
  }

  /** Handles the children of one vertex: files their links and queues those not visited. */
  method Spread(kv: Kv, node: Token, objects: set<Token>, queue: seq<Token>, links: map<string, Link>)
    returns (queue': seq<Token>, links': map<string, Link>, ghost pushed: seq<Token>)
    requires node in objects && LinksSound(kv, objects, links) && LinksComplete(kv, objects - {node}, links)
    ensures queue' == queue + pushed
    ensures forall b :: b in pushed <==> Linked(kv, node, b) && b !in objects
    ensures LinksSound(kv, objects, links') && LinksComplete(kv, objects, links')
  {
    var children;
    ghost var order;
    children, order := GetChildren(kv, node);
    assert forall i :: 0 <= i < |order| ==> order[i] in order;
    links' := FileLinks(kv, node, children, objects, links, order);
    queue', pushed := QueueChildren(children, objects, queue);
    forall b: Token
      ensures (exists i :: 0 <= i < |children| && children[i].id == b) <==> Linked(kv, node, b)
    {
      ChildrenAreLinked(kv, node, children, order, b);
    }
    forall l | OutBody(l) in kv && l.from in objects
      ensures LinkKey(l) in links'
    {
      if l.from == node {
        assert l in order;
      }
    }
  }

  lemma PendingKept(kv: Kv, objects: set<Token>, queue: seq<Token>, pushed: seq<Token>)
    requires queue != [] && Pending(kv, objects, queue)
    requires forall b :: b in pushed <==> Linked(kv, queue[0], b) && b !in objects + {queue[0]}
    ensures Pending(kv, objects + {queue[0]}, queue[1..] + pushed)
  {
    forall b | b in queue
      ensures b == queue[0] || b in queue[1..]
    {
    }
  }

  ghost predicate Walking(kv: Kv, start: Token, objects: set<Token>, queue: seq<Token>) {
    && objects <= Universe(kv, start)
    && (forall o <- queue :: o in Universe(kv, start) && Reaches(kv, start, o))
    && (forall o <- objects :: Reaches(kv, start, o))
    && (start in objects || start in queue)
    && Pending(kv, objects, queue)
  }

  lemma WalkingKept(kv: Kv, start: Token, objects: set<Token>, queue: seq<Token>, pushed: seq<Token>)
    requires Walking(kv, start, objects, queue) && queue != []
    requires forall b :: b in pushed <==> Linked(kv, queue[0], b) && b !in objects + {queue[0]}
    ensures Walking(kv, start, objects + {queue[0]}, queue[1..] + pushed)
  {
    PushedReached(kv, start, queue[0], pushed);
    PendingKept(kv, objects, queue, pushed);
  }

  /** graphState: it revisits and re-expands vertices that were queued more than once, and still ends, with exactly
      the reachable vertices and links filed under their run-together keys: all links out of reachable vertices
      exactly when no two of these run together. */
  method GraphState(kv: Kv, start: Token) returns (objects: set<Token>, links: map<string, Link>)
    ensures Vertex(start) !in kv ==> objects == {} && links == map[]
    ensures Vertex(start) in kv ==> forall o :: o in objects <==> Reaches(kv, start, o)
    ensures LinksSound(kv, objects, links) && LinksComplete(kv, objects, links)
    ensures Vertex(start) in kv ==> (FindsAllLinks(kv, start, links) <==> !ReachedKeysCollide(kv, start))
  {
    objects, links := {}, map[];
    if Vertex(start) !in kv {
      return;
    }
    var queue := [start];
    ReachesSelf(kv, start);
    while queue != []
      invariant Walking(kv, start, objects, queue)
      invariant LinksSound(kv, objects, links) && LinksComplete(kv, objects, links)
      decreases Universe(kv, start) - objects, FirstUnvisited(queue, objects)
    {
      var node := queue[0];
      ghost var known, was := objects, queue;
      queue := queue[1..];
      objects := objects + {node};
      SoundForMore(kv, known, objects, links);
      ghost var pushed;
      queue, links, pushed := Spread(kv, node, objects, queue, links);
      WalkingKept(kv, start, known, was, pushed);
      if node in known {
        assert objects == known;
        RevisitProgress(kv, known, was, pushed);
      }
    }
    ClosedIsReached(kv, start, objects);
    AllLinksIff(kv, start, objects, links);
  }

  lemma PushedReached(kv: Kv, start: Token, node: Token, pushed: seq<Token>)
    requires Reaches(kv, start, node) && forall b <- pushed :: Linked(kv, node, b)
    ensures forall b <- pushed :: b in Universe(kv, start) && Reaches(kv, start, b)
  {
    forall b <- pushed
      ensures b in Universe(kv, start) && Reaches(kv, start, b)
    {
      ReachesNext(kv, start, node, b);
      var l :| OutBody(l) in kv && l.from == node && l.to == b;
      assert OutBody(l).link == l;
    }
  }

  lemma ClosedIsReached(kv: Kv, start: Token, objects: set<Token>)
    requires start in objects && Pending(kv, objects, []) && forall o <- objects :: Reaches(kv, start, o)
    ensures forall o :: o in objects <==> Reaches(kv, start, o)
  {
    forall o | Reaches(kv, start, o)
      ensures o in objects
    {
      var ps :| IsPath(kv, ps) && ps[0] == start && ps[|ps| - 1] == o;
      PathStays(kv, ps, objects, |ps| - 1);
    }
  }

  /** Taking a visited vertex off the queue brings the first unvisited entry nearer, or shortens the queue. */
  lemma RevisitProgress(kv: Kv, objects: set<Token>, queue: seq<Token>, pushed: seq<Token>)
    requires queue != [] && queue[0] in objects && Pending(kv, objects, queue)
    requires forall b <- pushed :: Linked(kv, queue[0], b) && b !in objects
    ensures FirstUnvisited(queue[1..] + pushed, objects) < FirstUnvisited(queue, objects)
  {
    var rest := queue[1..];
    var i := FirstUnvisited(rest, objects);
    if i < |rest| {
      FirstUnvisitedIs(rest + pushed, objects, i);
    } else {
      AllVisited(objects, queue);
      assert forall b <- pushed :: b in queue;
      if pushed == [] {
        assert rest + pushed == rest;
      } else {
        FirstIsVisited(objects, queue, pushed);
      }
    }
  }

  lemma AllVisited(objects: set<Token>, queue: seq<Token>)
    requires queue != [] && queue[0] in objects && FirstUnvisited(queue[1..], objects) == |queue[1..]|
    ensures forall b <- queue :: b in objects
  {
    forall k | 0 <= k < |queue|
      ensures queue[k] in objects
    {
      assert k > 0 ==> queue[1..][k - 1] == queue[k];
    }
  }

  lemma FirstIsVisited(objects: set<Token>, queue: seq<Token>, pushed: seq<Token>)
    requires pushed != [] && (forall b <- pushed :: b in queue) && forall b <- queue :: b in objects
    ensures pushed[0] in pushed && pushed[0] in objects
  {
    assert pushed[0] in pushed;
  }

  lemma FirstUnvisitedIs(queue: seq<Token>, visited: set<Token>, i: nat)
    requires i < |queue| && queue[i] !in visited && forall j :: 0 <= j < i ==> queue[j] in visited
    ensures FirstUnvisited(queue, visited) == i
  {
  }

  // ---------------------------------------------------------------- run-together keys

  /** Two links out of reachable vertices have the same run-together key. */
  ghost predicate ReachedKeysCollide(kv: Kv, start: Token) {
    exists l1, l2 :: OutBody(l1) in kv && OutBody(l2) in kv && Reaches(kv, start, l1.from) && Reaches(kv, start, l2.from)
                     && l1 != l2 && LinkKey(l1) == LinkKey(l2)
  }

  /** Some filed link has the ends and the type of `l`, and the key it is stored under. */
  ghost predicate IsFound(links: map<string, Link>, l: LinkId) {
    exists key :: key in links && links[key].from == l.from && links[key].to == l.to && links[key].lt == l.ltype
                  && links[key].cacheID == OutBody(l).Rendered()
  }

  ghost predicate FindsAllLinks(kv: Kv, start: Token, links: map<string, Link>) {
    forall l :: OutBody(l) in kv && Reaches(kv, start, l.from) ==> IsFound(links, l)
  }

  lemma FiledLinkIsFound(kv: Kv, start: Token, objects: set<Token>, links: map<string, Link>, l: LinkId)
    requires LinksSound(kv, objects, links) && LinksComplete(kv, objects, links)
    requires forall o :: o in objects <==> Reaches(kv, start, o)
    requires OutBody(l) in kv && Reaches(kv, start, l.from) && !ReachedKeysCollide(kv, start)
    ensures IsFound(links, l)
  {
    var key := LinkKey(l);
    assert IsFiled(kv, objects, key, links[key]);
  }

  lemma OneOfTwoIsLost(kv: Kv, objects: set<Token>, links: map<string, Link>, l1: LinkId, l2: LinkId)
    requires LinksSound(kv, objects, links) && l1 != l2 && LinkKey(l1) == LinkKey(l2)
    ensures !IsFound(links, l1) || !IsFound(links, l2)
  {
    var key := LinkKey(l1);
    var l := if key in links && links[key] == LinkOf(l1) then l2 else l1;
    forall k | k in links
      ensures links[k] != LinkOf(l)
    {
      assert IsFiled(kv, objects, k, links[k]);
    }
  }

  /** The traversal returns all links out of the reachable vertices exactly when no two of them run together. */
  lemma AllLinksIff(kv: Kv, start: Token, objects: set<Token>, links: map<string, Link>)
    requires LinksSound(kv, objects, links) && LinksComplete(kv, objects, links)
    requires forall o :: o in objects <==> Reaches(kv, start, o)
    ensures FindsAllLinks(kv, start, links) <==> !ReachedKeysCollide(kv, start)
  {
    if ReachedKeysCollide(kv, start) {
      var l1, l2 :| OutBody(l1) in kv && OutBody(l2) in kv && Reaches(kv, start, l1.from) && Reaches(kv, start, l2.from)
                    && l1 != l2 && LinkKey(l1) == LinkKey(l2);
      OneOfTwoIsLost(kv, objects, links, l1, l2);
    } else {
      forall l | OutBody(l) in kv && Reaches(kv, start, l.from)
        ensures IsFound(links, l)
      {
        FiledLinkIsFound(kv, start, objects, links, l);
      }
    }
  }

  /** From "s" links lead to "a" and "ab"; from "a" one to "bc" and from "ab" one to "c", both of type "d". */
  function LossyStore(): Kv {
    var body := LinkDocument(Body(Some("n"), [], ""));
    map[Vertex("s") := Document(EMPTY_DOC),
        OutBody(LinkId("s", "e", "a")) := body, OutBody(LinkId("s", "e", "ab")) := body,
        OutBody(LinkId("a", "d", "bc")) := body, OutBody(LinkId("ab", "d", "c")) := body]
  }

  lemma LossyKeysCollide()
    ensures ReachedKeysCollide(LossyStore(), "s")
  {
    var kv := LossyStore();
    var l1, l2 := LinkId("a", "d", "bc"), LinkId("ab", "d", "c");
    ReachesSelf(kv, "s");
    assert Linked(kv, "s", "a") by { assert OutBody(LinkId("s", "e", "a")) in kv; }
    assert Linked(kv, "s", "ab") by { assert OutBody(LinkId("s", "e", "ab")) in kv; }
    ReachesNext(kv, "s", "s", "a");
    ReachesNext(kv, "s", "s", "ab");
    assert LinkKey(l1) == "abcd" == LinkKey(l2);
  }

  /** On that store the traversal loses a link, in whatever order the children come. */
  method LosesLink() returns (links: map<string, Link>)
    ensures !FindsAllLinks(LossyStore(), "s", links)
  {
    var objects;
    objects, links := GraphState(LossyStore(), "s");
    LossyKeysCollide();
  }
}
