/** The two ends of a link: its body at one vertex and its reverse key at the other.  They agree as long as the id of
    the target is read back from the id the nested request is sent to. */
module CrudEnds {
  import opened Wrappers
  import opened Tokens
  import opened Ids
  import opened GraphStore
  import opened CrudSpec
  import opened CrudCoherence

  /** What a caller can check of a link: the target holds no "===", and for a self-loop it does not end in '=' either. */
  predicate ReadsBack(l: LinkId) {
    !HasMark(l.to) && (l.to == l.from ==> PlainId(l.to))
  }

  /** A link is filed under its target exactly when that reads back. */
  lemma FilingIff(l: LinkId)
    ensures FilingId(l) == l.to <==> ReadsBack(l)
    ensures ReadsBack(l) ==> InKeys(l) == {In(l)}
  {
    if l.to == l.from {
      FirstPartIff(l.to, "create_in_link");
      if PlainId(l.to) {
        assert !HasMark(l.to);
      }
    }
  }

  /** Whatever a link is filed under reads back. */
  lemma FilingReadsBack(l: LinkId)
    ensures forall k <- InKeys(l) :: k.In? && ReadsBack(k.link)
  {
    if l.to == l.from {
      FirstPartIff(l.to, "create_in_link");
      FirstPartIsPlain(l.to + MARK + "create_in_link");
    } else {
      FirstPartIsPlain(l.to);
    }
  }

  /** The links a store knows at their targets. */
  ghost predicate Filed(kv: Kv) {
    forall l :: In(l) in kv ==> ReadsBack(l)
  }

  predicate TargetReadsBack(r: Request) {
    (r.LinkCreate? || r.LinkUpdate?) && r.Succeeds() ==> ReadsBack(r.Link())
  }

  // ---------------------------------------------------------------- what is filed

  lemma WrittenEnds(kv: Kv, l: LinkId, b: Body, x: LinkId)
    requires Typed(kv)
    ensures OutBody(x) in LinkWritten(kv, l, b) <==> x == l || OutBody(x) in kv
    ensures In(x) in LinkWritten(kv, l, b) <==> In(x) in kv
  {
    WrittenKeys(kv, l, b, OutBody(x));
    WrittenKeys(kv, l, b, In(x));
  }

  lemma LinkDeletedEnds(kv: Kv, l: LinkId, x: LinkId)
    requires Typed(kv)
    ensures OutBody(x) in LinkDeleted(kv, l) <==> OutBody(x) in kv && x != l
    ensures In(x) in LinkDeleted(kv, l) <==> In(x) in kv && !(OutBody(l) in kv && In(x) in InKeys(l))
  {
    TypedHas(kv, l);
  }

  lemma LinkDeletedTyped(kv: Kv, l: LinkId)
    requires Typed(kv)
    ensures Typed(LinkDeleted(kv, l))
  {
  }

  lemma LinkCreatedEnds(kv: Kv, l: LinkId, b: Body, x: LinkId)
    requires Typed(kv)
    ensures OutBody(x) in LinkCreated(kv, l, b) <==> x == l || OutBody(x) in kv
    ensures In(x) in LinkCreated(kv, l, b) <==> In(x) in InKeys(l) || In(x) in kv
  {
    var kv1 := LinkDeleted(kv, l);
    LinkDeletedTyped(kv, l);
    LinkDeletedEnds(kv, l, x);
    WrittenEnds(kv1, l, b, x);
  }

  lemma LinkUpdatedEnds(m: Merger, kv: Kv, l: LinkId, b: Body, mode: Mode, x: LinkId)
    requires Indexed(kv)
    ensures OutBody(x) in LinkUpdated(m, kv, l, b, mode) <==> x == l || OutBody(x) in kv
    ensures In(x) in LinkUpdated(m, kv, l, b, mode) <==> In(x) in kv || (!HasLink(kv, l) && In(x) in InKeys(l))
  {
    if HasLink(kv, l) {
      WrittenEnds(Unindexed(kv, l), l, NewLinkBody(m, kv, l, b, mode), x);
    } else {
      LinkCreatedEnds(kv, l, b, x);
    }
  }

  /** Deletes only ever take reverse keys away, and creates file what reads back. */
  lemma AfterFiled(m: Merger, kv: Kv, r: Request)
    requires Indexed(kv) && Filed(kv)
    ensures Filed(After(m, kv, r))
  {
    forall x | In(x) in After(m, kv, r)
      ensures ReadsBack(x)
    {
      if r.Succeeds() && (r.LinkCreate? || r.LinkUpdate?) {
        FilingReadsBack(r.Link());
        if r.LinkCreate? {
          LinkCreatedEnds(kv, r.Link(), r.body.value, x);
        } else {
          LinkUpdatedEnds(m, kv, r.Link(), r.body.value, r.mode, x);
        }
      }
    }
  }

  // ---------------------------------------------------------------- pairing

  lemma LinkDeletedPaired(kv: Kv, l: LinkId)
    requires Coherent(kv) && Filed(kv)
    ensures Paired(LinkDeleted(kv, l))
  {
    forall x
      ensures EndsAgree(LinkDeleted(kv, l), x)
    {
      assert EndsAgree(kv, x) && EndsAgree(kv, l);
      TypedHas(kv, l);
      FilingIff(l);
    }
  }

  lemma LinkWrittenPaired(m: Merger, kv: Kv, r: Request)
    requires Coherent(kv) && (r.LinkCreate? || r.LinkUpdate?) && r.Succeeds() && ReadsBack(r.Link())
    ensures Paired(After(m, kv, r))
  {
    forall x
      ensures EndsAgree(After(m, kv, r), x)
    {
      FilingIff(r.Link());
      TypedHas(kv, r.Link());
      assert EndsAgree(kv, x);
      if r.LinkCreate? {
        LinkCreatedEnds(kv, r.Link(), r.body.value, x);
      } else {
        LinkUpdatedEnds(m, kv, r.Link(), r.body.value, r.mode, x);
      }
    }
  }

  /** Of the reverse keys, those of the deleted links go. */
  lemma DeletedEnds(kv: Kv, ls: set<LinkId>, x: LinkId)
    requires Coherent(kv) && Filed(kv) && forall l <- ls :: HasLink(kv, l)
    ensures OutBody(x) in KeysOfLinks(kv, ls) <==> x in ls
    ensures In(x) in KeysOfLinks(kv, ls) <==> x in ls
  {
    forall l <- ls
      ensures InKeys(l) == {In(l)}
    {
      assert EndsAgree(kv, l);
      FilingIff(l);
    }
    if x in ls {
      assert OutBody(x) in LinkKeys(x, BodyOf(kv, x)) && In(x) in LinkKeys(x, BodyOf(kv, x));
    }
  }

  lemma VertexDeletedPaired(kv: Kv, id: Token)
    requires Coherent(kv) && Filed(kv)
    ensures Paired(VertexDeleted(kv, id))
  {
    forall x
      ensures EndsAgree(VertexDeleted(kv, id), x)
    {
      assert EndsAgree(kv, x);
      DeletedEnds(kv, Touching(kv, id), x);
    }
  }

  lemma VertexWrittenPaired(kv: Kv, id: Token, doc: Doc)
    requires Paired(kv)
    ensures Paired(kv[Vertex(id) := Document(doc)])
  {
    var kv' := kv[Vertex(id) := Document(doc)];
    forall x
      ensures EndsAgree(kv', x)
    {
      assert EndsAgree(kv, x);
    }
  }

  lemma AfterPaired(m: Merger, kv: Kv, r: Request)
    requires Coherent(kv) && Filed(kv) && TargetReadsBack(r)
    ensures Paired(After(m, kv, r))
  {
    if r.Succeeds() {
      match r
      case VertexCreate(id, doc) =>
        VertexDeletedPaired(kv, id);
        VertexWrittenPaired(if Vertex(id) in kv then VertexDeleted(kv, id) else kv, id,
                            if doc.Some? then doc.value else EMPTY_DOC);
      case VertexUpdate(id, doc, mode) => VertexWrittenPaired(kv, id, NewDoc(m, kv, id, doc.value, mode));
      case VertexDelete(id) => VertexDeletedPaired(kv, id);
      case LinkCreate(_, _, _, _, _, _) => LinkWrittenPaired(m, kv, r);
      case LinkUpdate(_, _, _, _, _) => LinkWrittenPaired(m, kv, r);
      case LinkDelete(_, _, _) => LinkDeletedPaired(kv, r.Link());
    }
  }

  lemma AfterUnpaired(m: Merger, kv: Kv, r: Request)
    requires Indexed(kv) && Filed(kv) && !TargetReadsBack(r)
    ensures !EndsAgree(After(m, kv, r), r.Link())
  {
    var l := r.Link();
    AfterFiled(m, kv, r);
    if r.LinkCreate? {
      LinkCreatedEnds(kv, l, r.body.value, l);
    } else {
      LinkUpdatedEnds(m, kv, l, r.body.value, r.mode, l);
    }
  }

  /** A request leaves a coherent store coherent exactly when the target of a link it writes reads back. */
  lemma AfterCoherentIff(m: Merger, kv: Kv, r: Request)
    requires Coherent(kv) && Filed(kv)
    ensures Coherent(After(m, kv, r)) <==> TargetReadsBack(r)
    ensures Filed(After(m, kv, r))
  {
    AfterIndexed(m, kv, r);
    AfterFiled(m, kv, r);
    if TargetReadsBack(r) {
      AfterPaired(m, kv, r);
    } else {
      AfterUnpaired(m, kv, r);
    }
  }

  // ---------------------------------------------------------------- runs

  lemma {:induction false} RunFiled(m: Merger, states: seq<Kv>, requests: seq<Request>, i: nat)
    requires IsRun(m, states, requests) && i < |states|
    ensures Indexed(states[i]) && Filed(states[i])
  {
    if i > 0 {
      RunFiled(m, states, requests, i - 1);
      AfterFiled(m, states[i - 1], requests[i - 1]);
    }
    RunIndexed(m, states, requests, i);
  }

  lemma {:induction false} RunPaired(m: Merger, states: seq<Kv>, requests: seq<Request>, i: nat)
    requires IsRun(m, states, requests) && i < |states|
    requires forall j :: 0 <= j < |requests| ==> TargetReadsBack(requests[j])
    ensures Paired(states[i])
  {
    if i > 0 {
      RunPaired(m, states, requests, i - 1);
      RunFiled(m, states, requests, i - 1);
      AfterPaired(m, states[i - 1], requests[i - 1]);
    }
  }

  /** A run stays coherent throughout exactly when the target of every link it writes reads back. */
  lemma RunCoherentIff(m: Merger, states: seq<Kv>, requests: seq<Request>)
    requires IsRun(m, states, requests)
    ensures (forall i :: 0 <= i < |states| ==> Coherent(states[i]))
            <==> (forall i :: 0 <= i < |requests| ==> TargetReadsBack(requests[i]))
  {
    if forall i :: 0 <= i < |requests| ==> TargetReadsBack(requests[i]) {
      forall i | 0 <= i < |states|
        ensures Coherent(states[i])
      {
        RunFiled(m, states, requests, i);
        RunPaired(m, states, requests, i);
      }
    } else {
      var i :| 0 <= i < |requests| && !TargetReadsBack(requests[i]);
      RunFiled(m, states, requests, i);
      AfterUnpaired(m, states[i], requests[i]);
      assert !Coherent(states[i + 1]);
    }
  }

  // ---------------------------------------------------------------- vertex delete

  predicate Mentions(k: Key, id: Token) {
    match k
    case Vertex(v) => v == id
    case OutBody(l) => l.from == id || l.to == id
    case OutIndex(l, _, _) => l.from == id || l.to == id
    case OutName(from, _) => from == id
    case NameGen(from) => from == id
    case In(l) => l.from == id || l.to == id
  }

  /** The name of a link to `id` in the registry of the vertex the link comes from. */
  ghost predicate NamesLinkTo(kv: Kv, k: Key, id: Token) {
    k.OutName? && exists l :: HasLink(kv, l) && l.to == id && l.from == k.from && BodyOf(kv, l).name == Some(k.name)
  }

  lemma TouchingKeys(kv: Kv, id: Token, l: LinkId, k: Key)
    requires Coherent(kv) && Filed(kv) && (l.from == id || l.to == id)
    requires k == OutBody(l) || k == In(l) || (HasLink(kv, l) && k in IndexKeys(l, BodyOf(kv, l)))
    requires k in kv
    ensures k in KeysOfLinks(kv, Touching(kv, id))
  {
    TypedHas(kv, l);
    assert EndsAgree(kv, l);
    assert OutBody(l) in kv;
    assert l in Touching(kv, id) by { var body := OutBody(l); assert body.link == l; }
    FilingIff(l);
    assert k in LinkKeys(l, BodyOf(kv, l));
  }

  lemma MentionedIsDeleted(kv: Kv, id: Token, k: Key)
    requires Coherent(kv) && Filed(kv) && (Mentions(k, id) || NamesLinkTo(kv, k, id))
    ensures k !in VertexDeleted(kv, id)
  {
    if k in kv {
      match k
      case Vertex(_) =>
      case NameGen(_) =>
      case OutBody(l) => TouchingKeys(kv, id, l, k);
      case In(l) => TouchingKeys(kv, id, l, k);
      case OutIndex(l, index, value) =>
        assert IndexAgrees(kv, l, index, value);
        IndexKeysComplete(kv, l, index, value);
        TouchingKeys(kv, id, l, k);
      case OutName(from, name) =>
        assert NameUsed(kv, from, name);
        var l :| HasLink(kv, l) && l.from == from && BodyOf(kv, l).name == Some(name) && (from == id || l.to == id);
        TypedHas(kv, l);
        TouchingKeys(kv, id, l, k);
    }
  }

  /** The keys of a link that reads back say which link it is, or are its name. */
  lemma KeyOfLink(l: LinkId, b: Body, k: Key)
    requires InKeys(l) == {In(l)} && k in LinkKeys(l, b)
    ensures k == OutBody(l) || k == In(l) || (k.OutIndex? && k.link == l)
            || (k.OutName? && k.from == l.from && b.name == Some(k.name))
  {
  }

  lemma DeletedIsMentioned(kv: Kv, id: Token, k: Key)
    requires Coherent(kv) && Filed(kv) && k in KeysOfLinks(kv, Touching(kv, id))
    ensures Mentions(k, id) || NamesLinkTo(kv, k, id)
  {
    var l :| l in Touching(kv, id) && k in LinkKeys(l, BodyOf(kv, l));
    assert InKeys(l) == {In(l)} by {
      assert EndsAgree(kv, l);
      FilingIff(l);
    }
    KeyOfLink(l, BodyOf(kv, l), k);
  }

  /** In a coherent store, deleting a vertex is complete and local: of all the families exactly the keys that mention it
      go, and the registered names of the links that led to it; everything else keeps its value. */
  lemma VertexDeleteExact(kv: Kv, id: Token, k: Key)
    requires Coherent(kv) && Filed(kv)
    ensures k in VertexDeleted(kv, id) <==> k in kv && !Mentions(k, id) && !NamesLinkTo(kv, k, id)
    ensures k in VertexDeleted(kv, id) ==> VertexDeleted(kv, id)[k] == kv[k]
  {
    if Mentions(k, id) || NamesLinkTo(kv, k, id) {
      MentionedIsDeleted(kv, id, k);
    } else if k in KeysOfLinks(kv, Touching(kv, id)) {
      DeletedIsMentioned(kv, id, k);
    }
  }

  // ---------------------------------------------------------------- ids that do not read back

  const TO_B := LinkId("a", "t", "b")
  const TO_BC := LinkId("a", "t", "b===c")
  const LOOP := LinkId("x=", "t", "x=")

  /** A part without signs in front of a mark is the first part. */
  lemma FirstMark(s: string, rest: string)
    requires '=' !in s
    ensures FirstPart(s + MARK + rest) == s
  {
    assert PlainId(s) by { NoMarkWithoutSign(s); }
    FirstPartIff(s, rest);
  }

  lemma FilingOfB()
    ensures FilingId(TO_B) == "b"
  {
    NoMarkWithoutSign("b");
  }

  lemma FilingOfBC()
    ensures FilingId(TO_BC) == "b" && !ReadsBack(TO_BC)
  {
    FirstMark("b", "c");
    assert "b===c" == "b" + MARK + "c";
    FilingIff(TO_BC);
  }

  /** A self-loop on "x=" is filed under "x". */
  lemma FilingOfLoop()
    ensures FilingId(LOOP) == "x" && !ReadsBack(LOOP)
  {
    FirstMark("x", "=create_in_link");
    assert LOOP.to + MARK + "create_in_link" == "x" + MARK + "=create_in_link";
    FilingIff(LOOP);
  }

  lemma UntouchedStays(kv: Kv, id: Token, l: LinkId)
    requires OutBody(l) in kv && In(l) !in kv && l.from != id
    ensures OutBody(l) in VertexDeleted(kv, id)
  {
    assert l !in Touching(kv, id);
  }

  /** Two links to "b" and "b===c" share the reverse key at "b".  Deleting the second takes it along, and deleting the
      vertex "b" then misses the first link, which stays and leads nowhere. */
  lemma VertexDeleteMissesLink(kv: Kv, b1: Body, b2: Body)
    requires Indexed(kv)
    ensures var kv1 := LinkCreated(LinkCreated(kv, TO_B, b1), TO_BC, b2);
            var kv2 := LinkDeleted(kv1, TO_BC);
            OutBody(TO_B) in kv2 && In(TO_B) !in kv2 && OutBody(TO_B) in VertexDeleted(kv2, "b")
  {
    var kv0 := LinkCreated(kv, TO_B, b1);
    var kv1 := LinkCreated(kv0, TO_BC, b2);
    LinkCreatedIndexed(kv, TO_B, b1);
    LinkCreatedIndexed(kv0, TO_BC, b2);
    LinkCreatedEnds(kv, TO_B, b1, TO_B);
    LinkCreatedEnds(kv0, TO_BC, b2, TO_B);
    LinkCreatedEnds(kv0, TO_BC, b2, TO_BC);
    FilingOfBC();
    assert In(TO_B) in InKeys(TO_BC);
    LinkDeletedEnds(kv1, TO_BC, TO_B);
    UntouchedStays(LinkDeleted(kv1, TO_BC), "b", TO_B);
  }
}
