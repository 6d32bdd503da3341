/** The six low-level operations, key by key, on the mutable store. */
module Crud {
  import opened Wrappers
  import opened Tokens
  import opened GraphStore
  import opened CrudSpec
  import opened CrudCoherence
  import opened CrudEnds
  import opened Ids

  lemma OneMoreEntry(kv: Kv, ls: set<LinkId>, ops: seq<Op>, l: LinkId)
    requires DeletesEach(kv, ls, ops) && l !in ls && HasLink(kv, l)
    ensures DeletesEach(kv, ls + {l}, ops + [LinkOp(Delete, l, Some(BodyOf(kv, l)), None)])
  {
    var op := LinkOp(Delete, l, Some(BodyOf(kv, l)), None);
    assert op in ops + [op];
    forall x <- ls
      ensures exists o :: o in ops + [op] && o.LinkOp? && o.link == x
    {
      var o :| o in ops && o.LinkOp? && o.link == x;
      assert o in ops + [op];
    }
  }

  /** Writing name, name index, body and tags one after the other. */
  lemma WrittenInOrder(kv: Kv, l: LinkId, b: Body)
    requires b.Named()
    ensures kv[OutName(l.from, b.name.value) := Nil][OutIndex(l, "name", b.name.value) := Nil][OutBody(l) := LinkDocument(b)]
            + Nils(TagKeys(l, b.tags))
            == (kv + Nils(IndexKeys(l, b)))[OutBody(l) := LinkDocument(b)]
  {
  }

  /** The two listings of a vertex delete find exactly the links it has to delete; a link found by both is gone by
      the time of the second. */
  lemma FoundAllTouching(kv0: Kv, id: Token, outLinks: set<LinkId>, kv1: Kv, inLinks: set<LinkId>)
    requires Typed(kv0)
    requires outLinks == set k | k in kv0 && k.OutBody? && k.link.from == id :: k.link
    requires forall l <- outLinks :: HasLink(kv0, l)
    requires kv1 == kv0 - KeysOfLinks(kv0, outLinks)
    requires inLinks == set k | k in kv1 && k.In? && k.link.to == id :: k.link
    ensures outLinks + (set l | l in inLinks && HasLink(kv0, l)) == Touching(kv0, id)
  {
    assert forall l :: l in outLinks <==> OutBody(l) in kv0 && l.from == id;
    assert forall l :: l in inLinks <==> In(l) in kv1 && l.to == id;
    forall l | In(l) in kv0 && l.from != id
      ensures In(l) in kv1
    {
      InOfOthers(kv0, outLinks, id, l);
    }
    assert forall l :: l in Touching(kv0, id) <==>
      OutBody(l) in kv0 && HasLink(kv0, l) && (l.from == id || (l.to == id && In(l) in kv0));
  }

  /** The reverse keys of links out of one vertex name that vertex. */
  lemma InOfOthers(kv0: Kv, outLinks: set<LinkId>, id: Token, l: LinkId)
    requires forall x <- outLinks :: HasLink(kv0, x) && x.from == id
    requires l.from != id
    ensures In(l) !in KeysOfLinks(kv0, outLinks)
  {
  }

  class Graph {
    var kv: Kv
    const m: Merger

    /** Every key holds the kind of value its family stores. */
    ghost predicate Valid()
      reads this
    {
      Typed(kv)
    }

    constructor (m: Merger)
      ensures Valid() && kv == map[] && this.m == m
    {
      kv := map[];
      this.m := m;
    }

    method SetTags(l: LinkId, tags: seq<Token>)
      modifies this
      ensures kv == old(kv) + Nils(TagKeys(l, tags))
    {
      var i := 0;
      while i < |tags|
        invariant i <= |tags|
        invariant kv == old(kv) + Nils(TagKeys(l, tags[..i]))
      {
        kv := kv[OutIndex(l, "tag", tags[i]) := Nil];
        assert tags[..i + 1] == tags[..i] + [tags[i]];
        assert TagKeys(l, tags[..i + 1]) == TagKeys(l, tags[..i]) + {OutIndex(l, "tag", tags[i])};
        i := i + 1;
      }
      assert tags[..i] == tags;
    }

    /** Deletes the name and index keys of a link with body `b`. */
    method Unindex(l: LinkId, b: Body)
      modifies this
      ensures kv == old(kv) - IndexKeys(l, b)
    {
      if b.Named() {
        kv := kv - {OutName(l.from, b.name.value)};
        kv := kv - {OutIndex(l, "name", b.name.value)};
      }
      ghost var named := kv;
      var i := 0;
      while i < |b.tags|
        invariant i <= |b.tags|
        invariant kv == named - TagKeys(l, b.tags[..i])
      {
        kv := kv - {OutIndex(l, "tag", b.tags[i])};
        assert b.tags[..i + 1] == b.tags[..i] + [b.tags[i]];
        assert TagKeys(l, b.tags[..i + 1]) == TagKeys(l, b.tags[..i]) + {OutIndex(l, "tag", b.tags[i])};
        i := i + 1;
      }
      assert b.tags[..i] == b.tags;
    }

    /** Keeps a defined name no other out link has, generates one otherwise. */
    method ChooseName(from: Token, b: Body) returns (b': Body)
      modifies this
      ensures b' == NamedBody(old(kv), from, b) && kv == Bumped(old(kv), from, b)
    {
      b' := b;
      var sameNamedLinkExists := b.Named() && OutName(from, b.name.value) in kv;
      if !b.Named() || sameNamedLinkExists {
        var namegen := 0;
        if NameGen(from) in kv && kv[NameGen(from)].Counter? {
          namegen := kv[NameGen(from)].n;
        }
        b' := b.(name := Some(GeneratedName(namegen)));
        kv := kv[NameGen(from) := Counter(namegen + 1)];
      }
    }

    /** Names, indexes and stores a link: the part create and update share. */
    method WriteLink(l: LinkId, b: Body) returns (b': Body)
      modifies this
      ensures b' == NamedBody(old(kv), l.from, b)
      ensures kv == LinkWritten(old(kv), l, b)
    {
      b' := ChooseName(l.from, b);
      WrittenInOrder(kv, l, b');
      kv := kv[OutName(l.from, b'.name.value) := Nil];
      kv := kv[OutIndex(l, "name", b'.name.value) := Nil];
      kv := kv[OutBody(l) := LinkDocument(b')];
      SetTags(l, b'.tags);
    }

    method LinkDelete(l: LinkId, logging: bool) returns (ops: seq<Op>)
      requires Valid()
      modifies this
      ensures kv == LinkDeleted(old(kv), l)
      ensures ops == if logging then LinkDeleteLog(old(kv), l) else []
    {
      ops := [];
      if OutBody(l) !in kv {
        return; // "Link does not exist"
      }
      assert TypedAt(OutBody(l), kv[OutBody(l)]);
      var b := kv[OutBody(l)].body;
      kv := kv - {OutBody(l)};
      Unindex(l, b);
      var selfId := FirstPart(if l.to == l.from then l.to + MARK + "delete_in_link" else l.to);
      SuffixIgnored(l.to, "delete_in_link", "create_in_link");
      assert selfId == FilingId(l);
      if selfId != "" {
        kv := kv - {In(LinkId(l.from, l.ltype, selfId))}; // by a nested request to the target
      }
      if logging {
        ops := [LinkOp(Delete, l, Some(b), None)];
      }
      assert kv == old(kv) - LinkKeys(l, b);
    }

    method LinkCreate(l: LinkId, b: Body, logging: bool) returns (ops: seq<Op>)
      requires Valid()
      modifies this
      ensures kv == LinkCreated(old(kv), l, b)
      ensures ops == if logging then LinkCreateLog(old(kv), l, b) else []
    {
      ops := [];
      if OutBody(l) in kv {
        ops := LinkDelete(l, logging);
      }
      var b' := WriteLink(l, b);
      var selfId := FirstPart(if l.to == l.from then l.to + MARK + "create_in_link" else l.to);
      assert selfId == FilingId(l);
      if selfId != "" {
        kv := kv[In(LinkId(l.from, l.ltype, selfId)) := Nil]; // by a nested request to the target
      }
      if logging {
        ops := ops + [LinkOp(Create, l, None, Some(b'))];
      }
    }

    method LinkUpdate(l: LinkId, b: Body, mode: Mode, logging: bool) returns (ops: seq<Op>)
      requires Valid()
      modifies this
      ensures kv == LinkUpdated(m, old(kv), l, b, mode)
      ensures ops == if logging then LinkUpdateLog(m, old(kv), l, b, mode) else []
    {
      ops := [];
      if OutBody(l) in kv {
        assert TypedAt(OutBody(l), kv[OutBody(l)]);
        var oldBody := kv[OutBody(l)].body;
        Unindex(l, oldBody);
        var newBody := if mode.Replace? then b else m.links(oldBody, b);
        newBody := WriteLink(l, newBody);
        if logging {
          ops := [LinkOp(Update, l, Some(oldBody), Some(newBody))];
        }
      } else {
        ops := LinkCreate(l, b, logging);
      }
    }

    method VertexUpdate(id: Token, doc: Option<Doc>, mode: Mode, logging: bool) returns (ok: bool, ops: seq<Op>)
      modifies this
      ensures ok <==> doc.Some?
      ensures kv == if ok then VertexUpdated(m, old(kv), id, doc.value, mode) else old(kv)
      ensures logging ==> Logs(m, old(kv), Request.VertexUpdate(id, doc, mode), ops)
      ensures !logging ==> ops == []
    {
      var oldDoc := DocOf(kv, id);
      var newDoc := oldDoc;
      ok := doc.Some?;
      if ok {
        newDoc := if mode.Replace? then doc.value else m.docs(oldDoc, doc.value);
        kv := kv[Vertex(id) := Document(newDoc)];
      }
      ops := if logging then [VertexOp(Update, id, Some(oldDoc), Some(newDoc))] else [];
    }

    /** Deletes the listed links one by one, skipping those without a body. */
    method DeleteLinks(links: set<LinkId>, logging: bool, ghost kv0: Kv, ghost before: set<LinkId>, log: seq<Op>)
      returns (ops: seq<Op>, ghost deleted: set<LinkId>)
      requires Typed(kv0) && forall x <- before :: HasLink(kv0, x)
      requires kv == kv0 - KeysOfLinks(kv0, before)
      requires if logging then DeletesEach(kv0, before, log) else log == []
      modifies this
      ensures deleted == before + set l | l in links && HasLink(kv0, l)
      ensures kv == kv0 - KeysOfLinks(kv0, deleted)
      ensures if logging then DeletesEach(kv0, deleted, ops) else ops == []
    {
      var todo := links;
      ops, deleted := log, before;
      while todo != {}
        invariant todo <= links
        invariant deleted == before + set l | l in links - todo && HasLink(kv0, l)
        invariant kv == kv0 - KeysOfLinks(kv0, deleted)
        invariant if logging then DeletesEach(kv0, deleted, ops) else ops == []
      {
        var l :| l in todo;
        todo := todo - {l};
        if l in deleted {
          assert OutBody(l) in LinkKeys(l, BodyOf(kv0, l));
        } else {
          StillThere(kv0, deleted, l);
        }
        if HasLink(kv0, l) && l !in deleted {
          OneMoreLink(kv0, deleted, l);
          if logging {
            OneMoreEntry(kv0, deleted, ops, l);
          }
          deleted := deleted + {l};
        }
        var more := LinkDelete(l, logging);
        ops := ops + more;
      }
    }

    /** Out links first, then the in links that are still listed. */
    method DeleteAllLinks(id: Token, logging: bool) returns (ops: seq<Op>)
      requires Valid()
      modifies this
      ensures kv == old(kv) - KeysOfLinks(old(kv), Touching(old(kv), id))
      ensures if logging then DeletesEach(old(kv), Touching(old(kv), id), ops) else ops == []
    {
      ghost var kv0 := kv;
      ghost var deleted;
      assert KeysOfLinks(kv0, {}) == {};
      var outLinks := set k | k in kv && k.OutBody? && k.link.from == id :: k.link;
      forall l <- outLinks
        ensures HasLink(kv0, l)
      {
        assert TypedAt(OutBody(l), kv0[OutBody(l)]);
      }
      ops, deleted := DeleteLinks(outLinks, logging, kv0, {}, []);
      assert deleted == outLinks;
      var inLinks := set k | k in kv && k.In? && k.link.to == id :: k.link;
      FoundAllTouching(kv0, id, outLinks, kv, inLinks);
      ops, deleted := DeleteLinks(inLinks, logging, kv0, deleted, ops);
    }

    method VertexDelete(id: Token, logging: bool) returns (ops: seq<Op>)
      requires Valid()
      modifies this
      ensures kv == VertexDeleted(old(kv), id)
      ensures if logging then VertexDeleteLog(old(kv), id, ops) else ops == []
    {
      ops := DeleteAllLinks(id, logging);
      kv := kv - {NameGen(id)};
      var oldDoc := DocOf(kv, id);
      assert oldDoc == DocOf(old(kv), id);
      kv := kv - {Vertex(id)};
      if logging {
        ghost var deletes := ops;
        ops := ops + [VertexOp(Delete, id, Some(oldDoc), None)];
        assert ops[..|ops| - 1] == deletes;
      }
    }

    method VertexCreate(id: Token, doc: Doc, logging: bool) returns (ops: seq<Op>)
      requires Valid()
      modifies this
      ensures kv == VertexCreated(old(kv), id, doc)
      ensures if logging then VertexCreateLog(old(kv), id, doc, ops) else ops == []
    {
      ops := [];
      if Vertex(id) in kv {
        ops := VertexDelete(id, logging);
      }
      kv := kv[Vertex(id) := Document(doc)];
      if logging {
        ghost var deletes := ops;
        ops := ops + [VertexOp(Create, id, None, Some(doc))];
        assert ops[..|ops| - 1] == deletes;
      }
    }

    /** One complete request: the new store, the log, and what the other operations rely on; the ends of links stay
        paired exactly when the target of a written link reads back. */
    method Handle(r: Request, logging: bool) returns (ops: seq<Op>)
      requires Indexed(kv) && Filed(kv)
      modifies this
      ensures Indexed(kv) && Filed(kv) && kv == After(m, old(kv), r)
      ensures Paired(old(kv)) ==> (Paired(kv) <==> TargetReadsBack(r))
      ensures if logging then Logs(m, old(kv), r, ops) else ops == []
    {
      AfterIndexed(m, kv, r);
      AfterFiled(m, kv, r);
      if Paired(kv) {
        AfterCoherentIff(m, kv, r);
      }
      ops := [];
      match r
      case VertexCreate(id, doc) => ops := VertexCreate(id, if doc.Some? then doc.value else EMPTY_DOC, logging);
      case VertexUpdate(id, doc, mode) =>
        var ok;
        ok, ops := VertexUpdate(id, doc, mode, logging);
      case VertexDelete(id) => ops := VertexDelete(id, logging);
      case LinkCreate(_, _, _, body, _, _) =>
        if r.Succeeds() {
          ops := LinkCreate(r.Link(), body.value, logging);
        }
      case LinkUpdate(_, _, _, body, mode) =>
        if r.Succeeds() {
          ops := LinkUpdate(r.Link(), body.value, mode, logging);
        }
      case LinkDelete(_, _, _) =>
        if r.Succeeds() {
          ops := LinkDelete(r.Link(), logging);
        }
    }
  }
}
