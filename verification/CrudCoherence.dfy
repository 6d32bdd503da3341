/** The redundant key families agree with the link bodies after every run of operations. */
module CrudCoherence {
  import opened Wrappers
  import opened Tokens
  import opened GraphStore
  import opened CrudSpec

  /** Both ends of a link know it. */
  ghost predicate EndsAgree(kv: Kv, l: LinkId) {
    OutBody(l) in kv <==> In(l) in kv
  }

  /** The index keys of a link are exactly its body's name and tags. */
  ghost predicate IndexAgrees(kv: Kv, l: LinkId, index: Token, value: Token) {
    OutIndex(l, index, value) in kv <==> HasLink(kv, l) && Features(BodyOf(kv, l), index, value)
  }

  ghost predicate NameUsed(kv: Kv, from: Token, name: Token) {
    exists l :: HasLink(kv, l) && l.from == from && BodyOf(kv, l).name == Some(name)
  }

  /** Index keys and registered names go with the bodies. */
  ghost predicate Indexed(kv: Kv) {
    && Typed(kv)
    && (forall l, index, value :: IndexAgrees(kv, l, index, value))
    && (forall from, name :: OutName(from, name) in kv ==> NameUsed(kv, from, name))
  }

  ghost predicate Paired(kv: Kv) {
    forall l :: EndsAgree(kv, l)
  }

  ghost predicate Coherent(kv: Kv) {
    Indexed(kv) && Paired(kv)
  }

  lemma TypedHas(kv: Kv, l: LinkId)
    requires Typed(kv)
    ensures HasLink(kv, l) <==> OutBody(l) in kv
    ensures HasLink(kv, l) ==> BodyOf(kv, l).Named()
  {
    if OutBody(l) in kv {
      assert TypedAt(OutBody(l), kv[OutBody(l)]);
    }
  }

  /** `kv` is indexed except for the link `l`, which has no index keys. */
  ghost predicate IndexedBut(kv: Kv, l: LinkId) {
    && Typed(kv)
    && (forall x, index, value :: x != l ==> IndexAgrees(kv, x, index, value))
    && (forall index, value :: OutIndex(l, index, value) !in kv)
    && (forall from, name :: OutName(from, name) in kv ==>
          exists x :: x != l && HasLink(kv, x) && x.from == from && BodyOf(kv, x).name == Some(name))
  }

  // ---------------------------------------------------------------- removing

  lemma RemovalKeepsOthers(kv: Kv, ks: set<Key>, l: LinkId, x: LinkId)
    requires HasLink(kv, l) && ks <= LinkKeys(l, BodyOf(kv, l)) && x != l
    ensures HasLink(kv - ks, x) == HasLink(kv, x)
    ensures HasLink(kv, x) ==> BodyOf(kv - ks, x) == BodyOf(kv, x)
    ensures forall index, value :: IndexAgrees(kv, x, index, value) ==> IndexAgrees(kv - ks, x, index, value)
  {
  }

  lemma IndexKeysComplete(kv: Kv, l: LinkId, index: Token, value: Token)
    requires Indexed(kv) && HasLink(kv, l) && OutIndex(l, index, value) in kv
    ensures OutIndex(l, index, value) in IndexKeys(l, BodyOf(kv, l))
  {
    assert IndexAgrees(kv, l, index, value);
    TypedHas(kv, l);
  }

  lemma RemovalIndexedBut(kv: Kv, ks: set<Key>, l: LinkId)
    requires Indexed(kv) && HasLink(kv, l)
    requires IndexKeys(l, BodyOf(kv, l)) <= ks <= LinkKeys(l, BodyOf(kv, l))
    ensures IndexedBut(kv - ks, l)
  {
    var kv' := kv - ks;
    forall x, index, value | x != l
      ensures IndexAgrees(kv', x, index, value)
    {
      assert IndexAgrees(kv, x, index, value);
      RemovalKeepsOthers(kv, ks, l, x);
    }
    forall index, value
      ensures OutIndex(l, index, value) !in kv'
    {
      if OutIndex(l, index, value) in kv {
        IndexKeysComplete(kv, l, index, value);
      }
    }
    forall from, name | OutName(from, name) in kv'
      ensures exists x :: x != l && HasLink(kv', x) && x.from == from && BodyOf(kv', x).name == Some(name)
    {
      assert NameUsed(kv, from, name);
      var x :| HasLink(kv, x) && x.from == from && BodyOf(kv, x).name == Some(name);
      TypedHas(kv, l);
      assert x != l;
      RemovalKeepsOthers(kv, ks, l, x);
    }
  }

  lemma GoneIsIndexed(kv: Kv, l: LinkId)
    requires IndexedBut(kv, l) && OutBody(l) !in kv
    ensures Indexed(kv)
  {
    forall x, index, value
      ensures IndexAgrees(kv, x, index, value)
    {
      assert x != l ==> IndexAgrees(kv, x, index, value);
    }
  }

  lemma LinkDeletedIndexed(kv: Kv, l: LinkId)
    requires Indexed(kv)
    ensures Indexed(LinkDeleted(kv, l))
    ensures IndexedBut(LinkDeleted(kv, l), l) && OutBody(l) !in LinkDeleted(kv, l)
  {
    TypedHas(kv, l);
    if HasLink(kv, l) {
      RemovalIndexedBut(kv, LinkKeys(l, BodyOf(kv, l)), l);
      GoneIsIndexed(LinkDeleted(kv, l), l);
    } else {
      AbsentIsIndexedBut(kv, l);
    }
  }

  lemma AbsentIsIndexedBut(kv: Kv, l: LinkId)
    requires Indexed(kv) && !HasLink(kv, l)
    ensures IndexedBut(kv, l)
  {
    forall index, value
      ensures OutIndex(l, index, value) !in kv
    {
      assert IndexAgrees(kv, l, index, value);
    }
    forall from, name | OutName(from, name) in kv
      ensures exists x :: x != l && HasLink(kv, x) && x.from == from && BodyOf(kv, x).name == Some(name)
    {
      assert NameUsed(kv, from, name);
      var x :| HasLink(kv, x) && x.from == from && BodyOf(kv, x).name == Some(name);
      assert x != l;
    }
  }

  // ---------------------------------------------------------------- writing

  /** What writing a link leaves at each key. */
  lemma WrittenKeys(kv: Kv, l: LinkId, b: Body, k: Key)
    requires Typed(kv)
    ensures var b' := NamedBody(kv, l.from, b);
            var kv' := LinkWritten(kv, l, b);
            && (k in kv' <==> k in kv || k in IndexKeys(l, b') || k == OutBody(l)
                              || (k == NameGen(l.from) && Generates(kv, l.from, b)))
            && (k in kv' ==> TypedAt(k, kv'[k]))
            && (k == OutBody(l) ==> kv'[k] == LinkDocument(b'))
            && (k.OutBody? && k != OutBody(l) && k in kv ==> kv'[k] == kv[k])
            && (k.Vertex? && k in kv ==> kv'[k] == kv[k])
  {
    assert k in kv ==> TypedAt(k, kv[k]);
  }

  lemma WrittenOthers(kv: Kv, l: LinkId, b: Body, x: LinkId)
    requires IndexedBut(kv, l) && x != l
    ensures HasLink(LinkWritten(kv, l, b), x) == HasLink(kv, x)
    ensures HasLink(kv, x) ==> BodyOf(LinkWritten(kv, l, b), x) == BodyOf(kv, x)
    ensures forall index, value :: IndexAgrees(LinkWritten(kv, l, b), x, index, value)
  {
    WrittenKeys(kv, l, b, OutBody(x));
    forall index, value
      ensures IndexAgrees(LinkWritten(kv, l, b), x, index, value)
    {
      WrittenKeys(kv, l, b, OutIndex(x, index, value));
      assert IndexAgrees(kv, x, index, value);
    }
  }

  lemma WrittenIndexed(kv: Kv, l: LinkId, b: Body)
    requires IndexedBut(kv, l)
    ensures Indexed(LinkWritten(kv, l, b))
  {
    var kv' := LinkWritten(kv, l, b);
    WrittenTyped(kv, l, b);
    WrittenKeys(kv, l, b, OutBody(l));
    forall x, index, value
      ensures IndexAgrees(kv', x, index, value)
    {
      if x == l {
        WrittenKeys(kv, l, b, OutIndex(l, index, value));
      } else {
        WrittenOthers(kv, l, b, x);
      }
    }
    forall from, name | OutName(from, name) in kv'
      ensures NameUsed(kv', from, name)
    {
      WrittenNameUsed(kv, l, b, from, name);
    }
  }

  lemma WrittenTyped(kv: Kv, l: LinkId, b: Body)
    requires Typed(kv)
    ensures Typed(LinkWritten(kv, l, b))
  {
    forall k <- LinkWritten(kv, l, b)
      ensures TypedAt(k, LinkWritten(kv, l, b)[k])
    {
      WrittenKeys(kv, l, b, k);
    }
  }

  lemma WrittenNameUsed(kv: Kv, l: LinkId, b: Body, from: Token, name: Token)
    requires IndexedBut(kv, l) && OutName(from, name) in LinkWritten(kv, l, b)
    ensures NameUsed(LinkWritten(kv, l, b), from, name)
  {
    var kv' := LinkWritten(kv, l, b);
    WrittenKeys(kv, l, b, OutName(from, name));
    if OutName(from, name) in kv {
      var x :| x != l && HasLink(kv, x) && x.from == from && BodyOf(kv, x).name == Some(name);
      WrittenOthers(kv, l, b, x);
    } else {
      WrittenKeys(kv, l, b, OutBody(l));
      assert HasLink(kv', l);
    }
  }

  /** Keys of no index family play no part in it. */
  lemma OtherKeysIrrelevant(kv: Kv, kv': Kv)
    requires Indexed(kv) && Typed(kv')
    requires forall k: Key :: k.OutBody? || k.OutIndex? || k.OutName? ==> (k in kv <==> k in kv') && (k in kv ==> kv[k] == kv'[k])
    ensures Indexed(kv')
  {
    forall l, index, value
      ensures IndexAgrees(kv', l, index, value)
    {
      assert IndexAgrees(kv, l, index, value);
    }
    forall from, name | OutName(from, name) in kv'
      ensures NameUsed(kv', from, name)
    {
      assert NameUsed(kv, from, name);
      var x :| HasLink(kv, x) && x.from == from && BodyOf(kv, x).name == Some(name);
      assert HasLink(kv', x) && BodyOf(kv', x) == BodyOf(kv, x);
    }
  }

  lemma LinkCreatedIndexed(kv: Kv, l: LinkId, b: Body)
    requires Indexed(kv)
    ensures Indexed(LinkCreated(kv, l, b))
  {
    LinkDeletedIndexed(kv, l);
    WrittenIndexed(LinkDeleted(kv, l), l, b);
    OtherKeysIrrelevant(LinkWritten(LinkDeleted(kv, l), l, b), LinkCreated(kv, l, b));
  }

  lemma LinkUpdatedIndexed(m: Merger, kv: Kv, l: LinkId, b: Body, mode: Mode)
    requires Indexed(kv)
    ensures Indexed(LinkUpdated(m, kv, l, b, mode))
  {
    if HasLink(kv, l) {
      RemovalIndexedBut(kv, IndexKeys(l, BodyOf(kv, l)), l);
      WrittenIndexed(Unindexed(kv, l), l, NewLinkBody(m, kv, l, b, mode));
    } else {
      LinkCreatedIndexed(kv, l, b);
    }
  }

  // ---------------------------------------------------------------- vertices

  /** Deleting a set of links one by one, in any order, keeps the indices. */
  lemma {:induction false} LinksDeletedIndexed(kv: Kv, ls: set<LinkId>)
    requires Indexed(kv) && forall l <- ls :: HasLink(kv, l)
    ensures Indexed(kv - KeysOfLinks(kv, ls))
  {
    if ls == {} {
      assert kv - KeysOfLinks(kv, ls) == kv;
    } else {
      var l :| l in ls;
      LinksDeletedIndexed(kv, ls - {l});
      OneMoreLink(kv, ls - {l}, l);
      assert ls == ls - {l} + {l};
      LinkDeletedIndexed(kv - KeysOfLinks(kv, ls - {l}), l);
    }
  }

  lemma StillThere(kv: Kv, ls: set<LinkId>, l: LinkId)
    requires (forall x <- ls :: HasLink(kv, x)) && l !in ls
    ensures var kv' := kv - KeysOfLinks(kv, ls);
            HasLink(kv', l) == HasLink(kv, l) && (HasLink(kv, l) ==> BodyOf(kv', l) == BodyOf(kv, l))
  {
  }

  lemma OneMoreLink(kv: Kv, ls: set<LinkId>, l: LinkId)
    requires (forall x <- ls :: HasLink(kv, x)) && l !in ls && HasLink(kv, l)
    ensures LinkDeleted(kv - KeysOfLinks(kv, ls), l) == kv - KeysOfLinks(kv, ls + {l})
  {
    StillThere(kv, ls, l);
    assert KeysOfLinks(kv, ls + {l}) == KeysOfLinks(kv, ls) + LinkKeys(l, BodyOf(kv, l));
  }

  lemma VertexDeletedIndexed(kv: Kv, id: Token)
    requires Indexed(kv)
    ensures Indexed(VertexDeleted(kv, id))
  {
    var kv1 := kv - KeysOfLinks(kv, Touching(kv, id));
    LinksDeletedIndexed(kv, Touching(kv, id));
    OtherKeysIrrelevant(kv1, kv1 - {NameGen(id), Vertex(id)});
  }

  lemma VertexWrittenIndexed(kv: Kv, id: Token, doc: Doc)
    requires Indexed(kv)
    ensures Indexed(kv[Vertex(id) := Document(doc)])
  {
    OtherKeysIrrelevant(kv, kv[Vertex(id) := Document(doc)]);
  }

  /** Every operation, with all its nested requests, keeps index keys and names in step with the bodies. */
  lemma AfterIndexed(m: Merger, kv: Kv, r: Request)
    requires Indexed(kv)
    ensures Indexed(After(m, kv, r))
  {
    if r.Succeeds() {
      match r
      case VertexCreate(id, doc) =>
        VertexDeletedIndexed(kv, id);
        VertexWrittenIndexed(if Vertex(id) in kv then VertexDeleted(kv, id) else kv, id,
                             if doc.Some? then doc.value else EMPTY_DOC);
      case VertexUpdate(id, doc, mode) => VertexWrittenIndexed(kv, id, NewDoc(m, kv, id, doc.value, mode));
      case VertexDelete(id) => VertexDeletedIndexed(kv, id);
      case LinkCreate(_, _, _, body, _, _) => LinkCreatedIndexed(kv, r.Link(), body.value);
      case LinkUpdate(_, _, _, body, mode) => LinkUpdatedIndexed(m, kv, r.Link(), body.value, mode);
      case LinkDelete(_, _, _) => LinkDeletedIndexed(kv, r.Link());
    }
  }

  /** `states` are the stores along a run of complete operations from the empty store. */
  ghost predicate IsRun(m: Merger, states: seq<Kv>, requests: seq<Request>) {
    && |states| == |requests| + 1
    && states[0] == map[]
    && forall i :: 0 <= i < |requests| ==> states[i + 1] == After(m, states[i], requests[i])
  }

  /** So they are in step in every state of every run. */
  lemma {:induction false} RunIndexed(m: Merger, states: seq<Kv>, requests: seq<Request>, i: nat)
    requires IsRun(m, states, requests) && i < |states|
    ensures Indexed(states[i])
  {
    if i > 0 {
      RunIndexed(m, states, requests, i - 1);
      AfterIndexed(m, states[i - 1], requests[i - 1]);
    }
  }
}
