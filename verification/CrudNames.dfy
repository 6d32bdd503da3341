/** Link names: pairwise distinct per vertex, and registered exactly while in use. */
module CrudNames {
  import opened Wrappers
  import opened Tokens
  import opened GraphStore
  import opened CrudSpec
  import opened CrudCoherence

  ghost predicate NamesDiffer(kv: Kv, l1: LinkId, l2: LinkId) {
    HasLink(kv, l1) && HasLink(kv, l2) && l1 != l2 && l1.from == l2.from ==> BodyOf(kv, l1).name != BodyOf(kv, l2).name
  }

  ghost predicate Registered(kv: Kv, l: LinkId) {
    HasLink(kv, l) && BodyOf(kv, l).Named() ==> OutName(l.from, BodyOf(kv, l).name.value) in kv
  }

  /** Every generated name in use lies below the counter of its vertex. */
  ghost predicate BelowCounter(kv: Kv, l: LinkId) {
    forall n: nat :: HasLink(kv, l) && BodyOf(kv, l).name == Some(GeneratedName(n)) ==> n < NextNumber(kv, l.from)
  }

  ghost predicate NamesDistinct(kv: Kv) {
    && (forall l1, l2 :: NamesDiffer(kv, l1, l2))
    && (forall l :: Registered(kv, l))
  }

  ghost predicate NamesOk(kv: Kv) {
    NamesDistinct(kv) && forall l :: BelowCounter(kv, l)
  }

  /** The names are in order apart from the link `l`, whose name is not registered. */
  ghost predicate NamesOkBut(kv: Kv, l: LinkId) {
    && (forall l1, l2 :: l1 != l && l2 != l ==> NamesDiffer(kv, l1, l2))
    && (forall x :: x != l ==> Registered(kv, x))
  }

  // ---------------------------------------------------------------- removing

  lemma RemovalKeepsNames(kv: Kv, ks: set<Key>, l: LinkId)
    requires Indexed(kv) && NamesDistinct(kv) && HasLink(kv, l)
    requires IndexKeys(l, BodyOf(kv, l)) <= ks <= LinkKeys(l, BodyOf(kv, l))
    ensures NamesOkBut(kv - ks, l)
  {
    var kv' := kv - ks;
    TypedHas(kv, l);
    forall l1, l2 | l1 != l && l2 != l
      ensures NamesDiffer(kv', l1, l2)
    {
      RemovalKeepsOthers(kv, ks, l, l1);
      RemovalKeepsOthers(kv, ks, l, l2);
      assert NamesDiffer(kv, l1, l2);
    }
    forall x | x != l
      ensures Registered(kv', x)
    {
      RemovalKeepsOthers(kv, ks, l, x);
      TypedHas(kv, x);
      assert Registered(kv, x) && NamesDiffer(kv, x, l);
    }
  }

  lemma LinkDeletedNames(kv: Kv, l: LinkId)
    requires Indexed(kv) && NamesDistinct(kv)
    ensures NamesDistinct(LinkDeleted(kv, l))
    ensures (forall x :: BelowCounter(kv, x)) ==> forall x :: BelowCounter(LinkDeleted(kv, l), x)
  {
    var kv' := LinkDeleted(kv, l);
    if HasLink(kv, l) {
      RemovalKeepsNames(kv, LinkKeys(l, BodyOf(kv, l)), l);
      assert !HasLink(kv', l);
      forall l1, l2
        ensures NamesDiffer(kv', l1, l2) && Registered(kv', l1)
      {
        assert l1 != l && l2 != l ==> NamesDiffer(kv', l1, l2);
      }
      if forall x :: BelowCounter(kv, x) {
        forall x
          ensures BelowCounter(kv', x)
        {
          assert BelowCounter(kv, x);
        }
      }
    }
  }

  ghost predicate AllBelow(kv: Kv) {
    forall l :: BelowCounter(kv, l)
  }

  lemma {:induction false} LinksDeletedNames(kv: Kv, ls: set<LinkId>)
    requires Indexed(kv) && NamesDistinct(kv) && forall l <- ls :: HasLink(kv, l)
    ensures NamesDistinct(kv - KeysOfLinks(kv, ls))
    ensures AllBelow(kv) ==> AllBelow(kv - KeysOfLinks(kv, ls))
  {
    if ls == {} {
      assert kv - KeysOfLinks(kv, ls) == kv;
    } else {
      var l :| l in ls;
      LinksDeletedNames(kv, ls - {l});
      LinksDeletedIndexed(kv, ls - {l});
      OneMoreLink(kv, ls - {l}, l);
      assert ls == ls - {l} + {l};
      LinkDeletedNames(kv - KeysOfLinks(kv, ls - {l}), l);
    }
  }

  lemma BodiesLeft(kv: Kv, id: Token, l: LinkId)
    requires Typed(kv)
    ensures var kv1 := kv - KeysOfLinks(kv, Touching(kv, id));
      && HasLink(VertexDeleted(kv, id), l) == HasLink(kv1, l)
      && (HasLink(kv1, l) ==> l.from != id && BodyOf(VertexDeleted(kv, id), l) == BodyOf(kv1, l))
  {
    TypedHas(kv, l);
    if OutBody(l) in kv && l.from == id {
      assert OutBody(l).link == l && l in Touching(kv, id);
      assert OutBody(l) in LinkKeys(l, BodyOf(kv, l));
    }
  }

  lemma VertexDeletedDistinct(kv: Kv, id: Token)
    requires Indexed(kv) && NamesDistinct(kv)
    ensures NamesDistinct(VertexDeleted(kv, id))
  {
    var kv1 := kv - KeysOfLinks(kv, Touching(kv, id));
    var kv2 := VertexDeleted(kv, id);
    LinksDeletedNames(kv, Touching(kv, id));
    forall l1, l2
      ensures NamesDiffer(kv2, l1, l2)
    {
      BodiesLeft(kv, id, l1);
      BodiesLeft(kv, id, l2);
      assert NamesDiffer(kv1, l1, l2);
    }
    forall l
      ensures Registered(kv2, l)
    {
      BodiesLeft(kv, id, l);
      assert Registered(kv1, l);
    }
  }

  /** The counter of a deleted vertex may start again: no link leaves the vertex any more. */
  lemma VertexDeletedNames(kv: Kv, id: Token)
    requires Indexed(kv) && NamesOk(kv)
    ensures NamesOk(VertexDeleted(kv, id))
  {
    var kv1 := kv - KeysOfLinks(kv, Touching(kv, id));
    var kv2 := VertexDeleted(kv, id);
    VertexDeletedDistinct(kv, id);
    LinksDeletedNames(kv, Touching(kv, id));
    forall l
      ensures BelowCounter(kv2, l)
    {
      BodiesLeft(kv, id, l);
      assert BelowCounter(kv1, l);
    }
  }

  /** Vertex bodies and reverse keys play no part in the names. */
  lemma OthersKeepNames(kv: Kv, kv': Kv)
    requires forall k: Key :: k.OutBody? || k.OutName? || k.NameGen? ==> (k in kv <==> k in kv') && (k in kv ==> kv[k] == kv'[k])
    ensures NamesDistinct(kv) <==> NamesDistinct(kv')
    ensures AllBelow(kv) <==> AllBelow(kv')
  {
    forall l1, l2
      ensures NamesDiffer(kv', l1, l2) <==> NamesDiffer(kv, l1, l2)
    {
    }
    forall l
      ensures (Registered(kv', l) <==> Registered(kv, l)) && (BelowCounter(kv', l) <==> BelowCounter(kv, l))
    {
    }
  }

  lemma VertexWrittenNames(kv: Kv, id: Token, doc: Doc)
    ensures NamesDistinct(kv) <==> NamesDistinct(kv[Vertex(id) := Document(doc)])
    ensures NamesOk(kv) ==> NamesOk(kv[Vertex(id) := Document(doc)])
  {
    OthersKeepNames(kv, kv[Vertex(id) := Document(doc)]);
  }

  // ---------------------------------------------------------------- writing

  /** A generated name that is already registered would be given out a second time. */
  predicate Collides(kv: Kv, from: Token, b: Body) {
    Generates(kv, from, b) && OutName(from, GeneratedName(NextNumber(kv, from))) in kv
  }

  lemma WrittenLink(kv: Kv, l: LinkId, b: Body, x: LinkId)
    requires Typed(kv)
    ensures var kv' := LinkWritten(kv, l, b);
            && HasLink(kv', l) && BodyOf(kv', l) == NamedBody(kv, l.from, b)
            && (x != l ==> HasLink(kv', x) == HasLink(kv, x) && (HasLink(kv, x) ==> BodyOf(kv', x) == BodyOf(kv, x)))
            && OutName(l.from, NamedBody(kv, l.from, b).name.value) in kv'
            && NextNumber(kv', x.from) == NextNumber(kv, x.from)
                 + (if x.from == l.from && Generates(kv, l.from, b) then 1 else 0)
  {
  }

  /** Writing a link keeps the names distinct exactly when it does not give out a registered name. */
  lemma WrittenNamesIff(kv: Kv, l: LinkId, b: Body)
    requires IndexedBut(kv, l) && NamesOkBut(kv, l)
    ensures NamesDistinct(LinkWritten(kv, l, b)) <==> !Collides(kv, l.from, b)
  {
    var kv' := LinkWritten(kv, l, b);
    var name := NamedBody(kv, l.from, b).name.value;
    WrittenLink(kv, l, b, l);
    if Collides(kv, l.from, b) {
      var x :| x != l && HasLink(kv, x) && x.from == l.from && BodyOf(kv, x).name == Some(name);
      WrittenLink(kv, l, b, x);
      assert !NamesDiffer(kv', l, x);
    } else {
      assert OutName(l.from, name) !in kv;
      forall l1, l2
        ensures NamesDiffer(kv', l1, l2)
      {
        WrittenLink(kv, l, b, l1);
        WrittenLink(kv, l, b, l2);
        TypedHas(kv, l1);
        TypedHas(kv, l2);
        if l1 != l && l2 != l {
          assert NamesDiffer(kv, l1, l2);
        } else if l1 != l {
          assert Registered(kv, l1);
        } else if l2 != l {
          assert Registered(kv, l2);
        }
      }
      forall x
        ensures Registered(kv', x)
      {
        WrittenLink(kv, l, b, x);
        if x != l && HasLink(kv, x) && BodyOf(kv, x).Named() {
          assert Registered(kv, x);
          WrittenKeys(kv, l, b, OutName(x.from, BodyOf(kv, x).name.value));
        }
      }
    }
  }

  lemma BelowCounterNoCollision(kv: Kv, l: LinkId, b: Body)
    requires IndexedBut(kv, l) && forall x :: x != l ==> BelowCounter(kv, x)
    ensures !Collides(kv, l.from, b)
  {
    var n := NextNumber(kv, l.from);
    forall x | x != l
      ensures !(HasLink(kv, x) && x.from == l.from && BodyOf(kv, x).name == Some(GeneratedName(n)))
    {
      assert BelowCounter(kv, x);
    }
  }

  lemma WrittenBelowCounter(kv: Kv, l: LinkId, b: Body)
    requires Typed(kv) && forall x :: x != l ==> BelowCounter(kv, x)
    requires forall n: nat :: b.name == Some(GeneratedName(n)) ==> n < NextNumber(kv, l.from)
    ensures forall x :: BelowCounter(LinkWritten(kv, l, b), x)
  {
    var kv' := LinkWritten(kv, l, b);
    forall x
      ensures BelowCounter(kv', x)
    {
      WrittenLink(kv, l, b, x);
      if x == l {
        forall n: nat | BodyOf(kv', l).name == Some(GeneratedName(n))
          ensures n < NextNumber(kv', l.from)
        {
          if Generates(kv, l.from, b) {
            GeneratedNamesDiffer(n, NextNumber(kv, l.from));
          }
        }
      } else {
        assert BelowCounter(kv, x);
      }
    }
  }

  /** The caller does not use names of the generated shape. */
  ghost predicate CallerName(b: Body) {
    b.name.Some? ==> !IsGenerated(b.name.value)
  }

  lemma LinkCreatedNames(kv: Kv, l: LinkId, b: Body)
    requires Indexed(kv) && NamesOk(kv) && CallerName(b)
    ensures NamesOk(LinkCreated(kv, l, b))
  {
    var kv1 := LinkDeleted(kv, l);
    LinkDeletedIndexed(kv, l);
    LinkDeletedNames(kv, l);
    BelowCounterNoCollision(kv1, l, b);
    WrittenNamesIff(kv1, l, b);
    WrittenBelowCounter(kv1, l, b);
    OthersKeepNames(LinkWritten(kv1, l, b), LinkCreated(kv, l, b));
  }

  /** Creating a link leaves the names distinct and registered exactly when the name it generates, if any, is free. */
  lemma LinkCreateNamesIff(kv: Kv, l: LinkId, b: Body)
    requires Indexed(kv) && NamesDistinct(kv)
    ensures NamesDistinct(LinkCreated(kv, l, b)) <==> !Collides(LinkDeleted(kv, l), l.from, b)
  {
    var kv1 := LinkDeleted(kv, l);
    var kv2, kv3 := LinkWritten(kv1, l, b), LinkCreated(kv, l, b);
    LinkDeletedIndexed(kv, l);
    LinkDeletedNames(kv, l);
    WrittenNamesIff(kv1, l, b);
    OthersKeepNames(kv2, kv3);
  }

  /** So does updating an existing link, whose own old name is free again by then. */
  lemma LinkUpdateNamesIff(m: Merger, kv: Kv, l: LinkId, b: Body, mode: Mode)
    requires Indexed(kv) && NamesDistinct(kv) && HasLink(kv, l)
    ensures NamesDistinct(LinkUpdated(m, kv, l, b, mode))
            <==> !Collides(Unindexed(kv, l), l.from, NewLinkBody(m, kv, l, b, mode))
  {
    RemovalIndexedBut(kv, IndexKeys(l, BodyOf(kv, l)), l);
    RemovalKeepsNames(kv, IndexKeys(l, BodyOf(kv, l)), l);
    WrittenNamesIff(Unindexed(kv, l), l, NewLinkBody(m, kv, l, b, mode));
  }

  /** The guard that fails: the request makes the vertex generate a name that a link of it has. */
  predicate StepCollides(m: Merger, kv: Kv, r: Request) {
    r.Succeeds() && (r.LinkCreate? || r.LinkUpdate?) &&
    var l := r.Link();
    if r.LinkUpdate? && HasLink(kv, l) then Collides(Unindexed(kv, l), l.from, NewLinkBody(m, kv, l, r.body.value, r.mode))
    else Collides(LinkDeleted(kv, l), l.from, r.body.value)
  }

  lemma AfterNamesIff(m: Merger, kv: Kv, r: Request)
    requires Indexed(kv) && NamesDistinct(kv)
    ensures NamesDistinct(After(m, kv, r)) <==> !StepCollides(m, kv, r)
  {
    if r.Succeeds() {
      match r
      case VertexCreate(id, doc) =>
        VertexDeletedDistinct(kv, id);
        VertexWrittenNames(if Vertex(id) in kv then VertexDeleted(kv, id) else kv, id,
                           if doc.Some? then doc.value else EMPTY_DOC);
      case VertexUpdate(id, doc, mode) => VertexWrittenNames(kv, id, NewDoc(m, kv, id, doc.value, mode));
      case VertexDelete(id) => VertexDeletedDistinct(kv, id);
      case LinkCreate(_, _, _, body, _, _) => LinkCreateNamesIff(kv, r.Link(), body.value);
      case LinkUpdate(_, _, _, body, mode) =>
        if HasLink(kv, r.Link()) {
          LinkUpdateNamesIff(m, kv, r.Link(), body.value, mode);
        } else {
          LinkCreateNamesIff(kv, r.Link(), body.value);
        }
      case LinkDelete(_, _, _) => LinkDeletedNames(kv, r.Link());
    }
  }

  lemma {:induction false} RunNamesDistinct(m: Merger, states: seq<Kv>, requests: seq<Request>, i: nat)
    requires IsRun(m, states, requests) && i < |states|
    requires forall j :: 0 <= j < i ==> !StepCollides(m, states[j], requests[j])
    ensures NamesDistinct(states[i])
  {
    if i > 0 {
      RunNamesDistinct(m, states, requests, i - 1);
      RunIndexed(m, states, requests, i - 1);
      AfterNamesIff(m, states[i - 1], requests[i - 1]);
    }
  }

  /** Along a run, names stay distinct and registered exactly as long as no request generates a name in use. */
  lemma RunNamesIff(m: Merger, states: seq<Kv>, requests: seq<Request>)
    requires IsRun(m, states, requests)
    ensures (forall i :: 0 <= i < |states| ==> NamesDistinct(states[i]))
            <==> (forall i :: 0 <= i < |requests| ==> !StepCollides(m, states[i], requests[i]))
  {
    if forall i :: 0 <= i < |requests| ==> !StepCollides(m, states[i], requests[i]) {
      forall i | 0 <= i < |states|
        ensures NamesDistinct(states[i])
      {
        RunNamesDistinct(m, states, requests, i);
      }
    } else {
      var i :| 0 <= i < |requests| && StepCollides(m, states[i], requests[i]);
      RunIndexed(m, states, requests, i);
      if NamesDistinct(states[i]) {
        AfterNamesIff(m, states[i], requests[i]);
        assert !NamesDistinct(states[i + 1]);
      }
    }
  }

  /** The merged document takes the name of the update when it has one, and keeps the old one otherwise. */
  ghost predicate MergesNames(m: Merger) {
    forall a, b :: m.links(a, b).name == if b.name.Some? then b.name else a.name
  }

  lemma UnindexedBelow(kv: Kv, l: LinkId)
    requires AllBelow(kv) && HasLink(kv, l)
    ensures AllBelow(Unindexed(kv, l))
  {
    forall x
      ensures BelowCounter(Unindexed(kv, l), x)
    {
      assert BelowCounter(kv, x);
    }
  }

  lemma LinkUpdatedNames(m: Merger, kv: Kv, l: LinkId, b: Body, mode: Mode)
    requires Indexed(kv) && NamesOk(kv) && CallerName(b) && MergesNames(m)
    ensures NamesOk(LinkUpdated(m, kv, l, b, mode))
  {
    if HasLink(kv, l) {
      var kv1 := Unindexed(kv, l);
      var b1 := NewLinkBody(m, kv, l, b, mode);
      RemovalIndexedBut(kv, IndexKeys(l, BodyOf(kv, l)), l);
      UnindexedBelow(kv, l);
      BelowCounterNoCollision(kv1, l, b1);
      LinkUpdateNamesIff(m, kv, l, b, mode);
      assert BelowCounter(kv1, l);
      WrittenBelowCounter(kv1, l, b1);
    } else {
      LinkCreatedNames(kv, l, b);
    }
  }

  ghost predicate CallerNames(r: Request) {
    (r.LinkCreate? || r.LinkUpdate?) && r.body.Some? ==> CallerName(r.body.value)
  }

  lemma AfterNames(m: Merger, kv: Kv, r: Request)
    requires Indexed(kv) && NamesOk(kv) && CallerNames(r) && MergesNames(m)
    ensures NamesOk(After(m, kv, r))
  {
    if r.Succeeds() {
      match r
      case VertexCreate(id, doc) =>
        VertexDeletedNames(kv, id);
        VertexWrittenNames(if Vertex(id) in kv then VertexDeleted(kv, id) else kv, id,
                           if doc.Some? then doc.value else EMPTY_DOC);
      case VertexUpdate(id, doc, mode) => VertexWrittenNames(kv, id, NewDoc(m, kv, id, doc.value, mode));
      case VertexDelete(id) => VertexDeletedNames(kv, id);
      case LinkCreate(_, _, _, body, _, _) => LinkCreatedNames(kv, r.Link(), body.value);
      case LinkUpdate(_, _, _, body, mode) => LinkUpdatedNames(m, kv, r.Link(), body.value, mode);
      case LinkDelete(_, _, _) => LinkDeletedNames(kv, r.Link());
    }
  }

  lemma {:induction false} RunNamesOk(m: Merger, states: seq<Kv>, requests: seq<Request>, i: nat)
    requires IsRun(m, states, requests) && i < |states| && MergesNames(m)
    requires forall r <- requests :: CallerNames(r)
    ensures NamesOk(states[i])
  {
    if i > 0 {
      RunNamesOk(m, states, requests, i - 1);
      RunIndexed(m, states, requests, i - 1);
      assert requests[i - 1] in requests;
      AfterNames(m, states[i - 1], requests[i - 1]);
    }
  }

  /** Over every run, two out links of a vertex never share a name, and the registry holds exactly the names in use. */
  lemma NamesUniqueAndRegistered(m: Merger, states: seq<Kv>, requests: seq<Request>, i: nat,
                                 l1: LinkId, l2: LinkId, from: Token, name: Token)
    requires IsRun(m, states, requests) && i < |states| && MergesNames(m)
    requires forall r <- requests :: CallerNames(r)
    ensures var kv := states[i];
            HasLink(kv, l1) && HasLink(kv, l2) && l1.from == l2.from && BodyOf(kv, l1).name == BodyOf(kv, l2).name ==> l1 == l2
    ensures OutName(from, name) in states[i] <==> NameUsed(states[i], from, name)
  {
    var kv := states[i];
    RunNamesOk(m, states, requests, i);
    RunIndexed(m, states, requests, i);
    assert NamesDiffer(kv, l1, l2);
    if NameUsed(kv, from, name) {
      var l :| HasLink(kv, l) && l.from == from && BodyOf(kv, l).name == Some(name);
      assert Registered(kv, l);
    }
  }

  lemma CreatedLink(kv: Kv, l: LinkId, b: Body, x: LinkId)
    requires Typed(kv) && !HasLink(kv, l)
    ensures var kv' := LinkCreated(kv, l, b);
            && HasLink(kv', l) && BodyOf(kv', l) == NamedBody(kv, l.from, b)
            && (x != l ==> HasLink(kv', x) == HasLink(kv, x) && (HasLink(kv, x) ==> BodyOf(kv', x) == BodyOf(kv, x)))
            && NextNumber(kv', x.from) == NextNumber(kv, x.from)
                 + (if x.from == l.from && Generates(kv, l.from, b) then 1 else 0)
  {
    WrittenLink(kv, l, b, x);
  }

  lemma CreatedTyped(kv: Kv, l: LinkId, b: Body)
    requires Typed(kv) && !HasLink(kv, l)
    ensures Typed(LinkCreated(kv, l, b))
  {
    WrittenTyped(kv, l, b);
  }

  /** Without the condition on names it is false: after a link called "name0", the first generated name is "name0" too. */
  lemma GeneratedNameCollides(m: Merger, rest: string)
    ensures var l1, l2 := LinkId("a", "t", "b"), LinkId("a", "t", "c");
            var kv := LinkCreated(LinkCreated(map[], l1, Body(Some("name0"), [], rest)), l2, Body(None, [], rest));
            HasLink(kv, l1) && HasLink(kv, l2) && BodyOf(kv, l1).name == BodyOf(kv, l2).name == Some("name0")
  {
    var l1, l2 := LinkId("a", "t", "b"), LinkId("a", "t", "c");
    var b1, b2 := Body(Some("name0"), [], rest), Body(None, [], rest);
    assert Decimal(0) == "0" && GeneratedName(0) == "name0";
    var kv1 := LinkCreated(map[], l1, b1);
    CreatedLink(map[], l1, b1, l2);
    CreatedTyped(map[], l1, b1);
    CreatedLink(kv1, l2, b2, l1);
  }
}
