/** What each request leaves in the graph, said of the request's fields and of the bodies before and after. */
module CrudEffects {
  import opened Wrappers
  import opened Tokens
  import opened GraphStore
  import opened CrudSpec
  import opened CrudCoherence
  import opened CrudNames

  /** Vertices, links and counters at other keys are as they were. */
  ghost predicate OthersKept(kv: Kv, kv': Kv, keys: set<Key>) {
    forall k: Key | (k.Vertex? || k.OutBody? || k.NameGen?) && k !in keys ::
      (k in kv' <==> k in kv) && (k in kv ==> kv'[k] == kv[k])
  }

  /** The number that the next generated name of the vertex gets. */
  ghost predicate Counts(kv: Kv, from: Token, n: nat) {
    if NameGen(from) in kv then kv[NameGen(from)] == Counter(n) else n == 0
  }

  /** The name is registered at the vertex, and not just by the link itself. */
  predicate TakenFrom(kv: Kv, l: LinkId, name: Token) {
    OutName(l.from, name) in kv && !(HasLink(kv, l) && BodyOf(kv, l).name == Some(name))
  }

  ghost predicate Generated(kv: Kv, kv': Kv, l: LinkId, n: nat) {
    && Counts(kv, l.from, n) && Counts(kv', l.from, n + 1)
    && HasLink(kv', l) && BodyOf(kv', l).name == Some("name" + Decimal(n))
  }

  /** The link has the wanted body, tags and rest as they are, and the wanted name unless there is none or it is taken;
      then it has the next generated one, and the counter moves on. */
  ghost predicate Holds(kv: Kv, kv': Kv, l: LinkId, wanted: Body) {
    && HasLink(kv', l)
    && BodyOf(kv', l).tags == wanted.tags && BodyOf(kv', l).rest == wanted.rest
    && if wanted.Named() && !TakenFrom(kv, l, wanted.name.value) then
         BodyOf(kv', l).name == wanted.name && OthersKept(kv, kv', {OutBody(l)})
       else
         (exists n: nat :: Generated(kv, kv', l, n)) && OthersKept(kv, kv', {OutBody(l), NameGen(l.from)})
  }

  // ---------------------------------------------------------------- links

  lemma WrittenElsewhere(kv0: Kv, l: LinkId, wanted: Body, k: Key)
    requires (k.Vertex? || k.OutBody? || k.NameGen?) && k != OutBody(l) && (Generates(kv0, l.from, wanted) ==> k != NameGen(l.from))
    ensures k in LinkWritten(kv0, l, wanted) <==> k in kv0
    ensures k in kv0 ==> LinkWritten(kv0, l, wanted)[k] == kv0[k]
  {
  }

  lemma WrittenBody(kv0: Kv, l: LinkId, wanted: Body)
    ensures var kv' := LinkWritten(kv0, l, wanted);
      && HasLink(kv', l) && BodyOf(kv', l) == NamedBody(kv0, l.from, wanted)
      && (Generates(kv0, l.from, wanted) ==>
            NameGen(l.from) in kv' && kv'[NameGen(l.from)] == Counter(NextNumber(kv0, l.from) + 1))
  {
  }

  lemma WrittenHolds(kv: Kv, kv0: Kv, l: LinkId, wanted: Body)
    requires Typed(kv) && OthersKept(kv, kv0, {OutBody(l)})
    requires forall name :: OutName(l.from, name) in kv0 <==> TakenFrom(kv, l, name)
    ensures Holds(kv, LinkWritten(kv0, l, wanted), l, wanted)
  {
    var kv' := LinkWritten(kv0, l, wanted);
    WrittenBody(kv0, l, wanted);
    assert OthersKept(kv, kv', if Generates(kv0, l.from, wanted) then {OutBody(l), NameGen(l.from)} else {OutBody(l)}) by {
      forall k: Key | (k.Vertex? || k.OutBody? || k.NameGen?) && k != OutBody(l) && (Generates(kv0, l.from, wanted) ==> k != NameGen(l.from))
        ensures (k in kv' <==> k in kv) && (k in kv ==> kv'[k] == kv[k])
      {
        WrittenElsewhere(kv0, l, wanted, k);
      }
    }
    if Generates(kv0, l.from, wanted) {
      assert NameGen(l.from) in kv ==> TypedAt(NameGen(l.from), kv[NameGen(l.from)]);
      assert Generated(kv, kv', l, NextNumber(kv0, l.from));
    }
  }

  lemma OwnNameGone(kv: Kv, ks: set<Key>, l: LinkId)
    requires Typed(kv) && HasLink(kv, l)
    requires IndexKeys(l, BodyOf(kv, l)) <= ks <= LinkKeys(l, BodyOf(kv, l))
    ensures forall name :: OutName(l.from, name) in kv - ks <==> TakenFrom(kv, l, name)
    ensures OthersKept(kv, kv - ks, {OutBody(l)})
  {
    TypedHas(kv, l);
  }

  lemma DeletedLeaves(kv: Kv, l: LinkId)
    requires Typed(kv)
    ensures forall name :: OutName(l.from, name) in LinkDeleted(kv, l) <==> TakenFrom(kv, l, name)
    ensures OthersKept(kv, LinkDeleted(kv, l), {OutBody(l)}) && OutBody(l) !in LinkDeleted(kv, l)
  {
    TypedHas(kv, l);
    if HasLink(kv, l) {
      OwnNameGone(kv, LinkKeys(l, BodyOf(kv, l)), l);
    }
  }

  lemma FiledHolds(kv: Kv, kv': Kv, l: LinkId, wanted: Body)
    requires Holds(kv, kv', l, wanted)
    ensures Holds(kv, kv' + Nils(InKeys(l)), l, wanted)
  {
    var kv2 := kv' + Nils(InKeys(l));
    assert HasLink(kv2, l) && BodyOf(kv2, l) == BodyOf(kv', l);
    if n: nat :| Generated(kv, kv', l, n) {
      assert Generated(kv, kv2, l, n);
    }
  }

  lemma CreatedHolds(kv: Kv, l: LinkId, b: Body)
    requires Typed(kv)
    ensures Holds(kv, LinkCreated(kv, l, b), l, b)
  {
    DeletedLeaves(kv, l);
    WrittenHolds(kv, LinkDeleted(kv, l), l, b);
    FiledHolds(kv, LinkWritten(LinkDeleted(kv, l), l, b), l, b);
  }

  lemma UpdatedHolds(kv: Kv, l: LinkId, wanted: Body)
    requires Typed(kv) && HasLink(kv, l)
    ensures Holds(kv, LinkWritten(Unindexed(kv, l), l, wanted), l, wanted)
  {
    OwnNameGone(kv, IndexKeys(l, BodyOf(kv, l)), l);
    WrittenHolds(kv, Unindexed(kv, l), l, wanted);
  }

  /** A create needs a body; type and target it may leave to chance. */
  lemma LinkCreateEffect(m: Merger, kv: Kv, r: Request)
    requires Typed(kv) && r.LinkCreate?
    ensures r.body.None? ==> After(m, kv, r) == kv && forall ops :: Logs(m, kv, r, ops) <==> ops == []
    ensures r.body.Some? ==>
      var ltype := if r.ltype.Some? then r.ltype.value else r.randomType;
      var to := if r.to.Some? then r.to.value else r.randomTo;
      Holds(kv, After(m, kv, r), LinkId(r.from, ltype, to), r.body.value)
  {
    if r.body.Some? {
      CreatedHolds(kv, r.Link(), r.body.value);
    }
  }

  /** An update needs all three fields.  It replaces the body or merges the new one into the old one, and creates a link
      that does not exist. */
  lemma LinkUpdateEffect(m: Merger, kv: Kv, r: Request)
    requires Typed(kv) && r.LinkUpdate?
    ensures r.ltype.None? || r.to.None? || r.body.None? ==>
      After(m, kv, r) == kv && forall ops :: Logs(m, kv, r, ops) <==> ops == []
    ensures r.ltype.Some? && r.to.Some? && r.body.Some? ==>
      var l := LinkId(r.from, r.ltype.value, r.to.value);
      var wanted := if HasLink(kv, l) && r.mode == Merge then m.links(BodyOf(kv, l), r.body.value) else r.body.value;
      Holds(kv, After(m, kv, r), l, wanted)
  {
    if r.ltype.Some? && r.to.Some? && r.body.Some? {
      var l := LinkId(r.from, r.ltype.value, r.to.value);
      if HasLink(kv, l) {
        UpdatedHolds(kv, l, if r.mode == Merge then m.links(BodyOf(kv, l), r.body.value) else r.body.value);
      } else {
        CreatedHolds(kv, l, r.body.value);
      }
    }
  }

  /** A delete needs type and target, and removes the link if it exists. */
  lemma LinkDeleteEffect(m: Merger, kv: Kv, r: Request)
    requires Typed(kv) && r.LinkDelete?
    ensures r.ltype.None? || r.to.None? ==> After(m, kv, r) == kv && forall ops :: Logs(m, kv, r, ops) <==> ops == []
    ensures r.ltype.Some? && r.to.Some? ==>
      var key := OutBody(LinkId(r.from, r.ltype.value, r.to.value));
      key !in After(m, kv, r) && OthersKept(kv, After(m, kv, r), {key})
  {
    if r.ltype.Some? && r.to.Some? {
      DeletedLeaves(kv, r.Link());
    }
  }

  /** While names are distinct and registered, a name is taken exactly when another link out of the vertex has it. */
  lemma TakenIff(kv: Kv, l: LinkId, name: Token)
    requires Indexed(kv) && NamesDistinct(kv)
    ensures TakenFrom(kv, l, name) <==>
      exists x :: x != l && HasLink(kv, x) && x.from == l.from && BodyOf(kv, x).name == Some(name)
  {
    if TakenFrom(kv, l, name) {
      assert NameUsed(kv, l.from, name);
    }
    if x :| x != l && HasLink(kv, x) && x.from == l.from && BodyOf(kv, x).name == Some(name) {
      assert Registered(kv, x) && NamesDiffer(kv, x, l);
    }
  }

  // ---------------------------------------------------------------- vertices

  /** An update of a vertex needs a document; one that does not exist is taken to be empty. */
  lemma VertexUpdateEffect(m: Merger, kv: Kv, r: Request)
    requires Typed(kv) && r.VertexUpdate?
    ensures var before := if Vertex(r.id) in kv then kv[Vertex(r.id)] else Document("{}");
      && before.Document?
      && (r.doc.None? ==> After(m, kv, r) == kv)
      && (r.doc.None? ==>
            forall ops :: Logs(m, kv, r, ops) <==> ops == [VertexOp(Update, r.id, Some(before.doc), Some(before.doc))])
      && (r.doc.Some? ==> After(m, kv, r) == kv[Vertex(r.id) := Document(if r.mode == Merge then m.docs(before.doc, r.doc.value) else r.doc.value)])
  {
    assert Vertex(r.id) in kv ==> TypedAt(Vertex(r.id), kv[Vertex(r.id)]);
  }

  /** Of the links at a vertex all that leave it go with it, and of those that lead to it the ones it was told of. */
  ghost predicate Detached(kv: Kv, kv': Kv, id: Token) {
    && NameGen(id) !in kv'
    && (forall l :: OutBody(l) in kv' <==> OutBody(l) in kv && l.from != id && !(l.to == id && In(l) in kv))
    && (forall k: Key | k in kv' && k.OutBody? :: k in kv && kv'[k] == kv[k])
    && (forall k: Key | (k.Vertex? || k.NameGen?) && k != Vertex(id) && k != NameGen(id) ::
          (k in kv' <==> k in kv) && (k in kv ==> kv'[k] == kv[k]))
  }

  lemma TouchingLinkGoes(kv: Kv, id: Token, l: LinkId)
    requires Typed(kv)
    ensures OutBody(l) in VertexDeleted(kv, id) <==> OutBody(l) in kv && l.from != id && !(l.to == id && In(l) in kv)
  {
    TypedHas(kv, l);
    assert OutBody(l).link == l;
    if l in Touching(kv, id) {
      assert OutBody(l) in LinkKeys(l, BodyOf(kv, l));
    } else if OutBody(l) in KeysOfLinks(kv, Touching(kv, id)) {
      var x :| x in Touching(kv, id) && OutBody(l) in LinkKeys(x, BodyOf(kv, x));
    }
  }

  lemma OtherVertexStays(kv: Kv, id: Token, k: Key)
    requires (k.Vertex? || k.NameGen?) && k != Vertex(id) && k != NameGen(id)
    ensures k in VertexDeleted(kv, id) <==> k in kv
  {
  }

  lemma DeletedDetached(kv: Kv, id: Token)
    requires Typed(kv)
    ensures Detached(kv, VertexDeleted(kv, id), id) && Vertex(id) !in VertexDeleted(kv, id)
  {
    forall l
      ensures OutBody(l) in VertexDeleted(kv, id) <==> OutBody(l) in kv && l.from != id && !(l.to == id && In(l) in kv)
    {
      TouchingLinkGoes(kv, id, l);
    }
    forall k: Key | (k.Vertex? || k.NameGen?) && k != Vertex(id) && k != NameGen(id)
      ensures k in VertexDeleted(kv, id) <==> k in kv
    {
      OtherVertexStays(kv, id, k);
    }
  }

  lemma VertexDeleteEffect(m: Merger, kv: Kv, r: Request)
    requires Typed(kv) && r.VertexDelete?
    ensures Vertex(r.id) !in After(m, kv, r) && Detached(kv, After(m, kv, r), r.id)
  {
    DeletedDetached(kv, r.id);
  }

  /** A create sets the document, empty if none is given, and first deletes a vertex that exists. */
  lemma VertexCreateEffect(m: Merger, kv: Kv, r: Request)
    requires Typed(kv) && r.VertexCreate?
    ensures var kv' := After(m, kv, r);
      && Vertex(r.id) in kv' && kv'[Vertex(r.id)] == Document(if r.doc.Some? then r.doc.value else "{}")
      && if Vertex(r.id) in kv then Detached(kv, kv', r.id) else kv' - {Vertex(r.id)} == kv
  {
    DeletedDetached(kv, r.id);
  }

  // ---------------------------------------------------------------- the log

  /** Creates log no old body, deletes no new one, updates both. */
  predicate KindFits(op: Op) {
    match op
    case VertexOp(kind, _, before, after) => (kind == Create <==> before.None?) && (kind == Delete <==> after.None?)
    case LinkOp(kind, _, before, after) => (kind == Create <==> before.None?) && (kind == Delete <==> after.None?)
  }

  lemma DeleteKindsFit(kv: Kv, id: Token, ops: seq<Op>)
    requires VertexDeleteLog(kv, id, ops)
    ensures forall op <- ops :: KindFits(op)
  {
    assert ops == ops[..|ops| - 1] + [ops[|ops| - 1]];
  }

  lemma LogKindsFit(m: Merger, kv: Kv, r: Request, ops: seq<Op>)
    requires Logs(m, kv, r, ops)
    ensures forall op <- ops :: KindFits(op)
  {
    if r.VertexDelete? {
      DeleteKindsFit(kv, r.id, ops);
    } else if r.VertexCreate? {
      if Vertex(r.id) in kv {
        DeleteKindsFit(kv, r.id, ops[..|ops| - 1]);
      }
      assert ops == ops[..|ops| - 1] + [ops[|ops| - 1]];
    }
  }
}
