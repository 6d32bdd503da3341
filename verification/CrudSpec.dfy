/** What the six low-level operations make of the store, and what they log. */
module CrudSpec {
  import opened Wrappers
  import opened Tokens
  import opened GraphStore
  import opened Ids

  /** How two JSON documents are deep-merged; nothing is known about it. */
  datatype Merger = Merger(links: (Body, Body) -> Body, docs: (Doc, Doc) -> Doc)

  datatype Mode = Replace | Merge

  datatype OpKind = Create | Update | Delete

  /** An entry of the operation log. */
  datatype Op =
    | VertexOp(kind: OpKind, id: Token, oldDoc: Option<Doc>, newDoc: Option<Doc>)
    | LinkOp(kind: OpKind, link: LinkId, oldBody: Option<Body>, newBody: Option<Body>)

  // ---------------------------------------------------------------- pieces

  function TagKeys(l: LinkId, tags: seq<Token>): set<Key> {
    set t | t in tags :: OutIndex(l, "tag", t)
  }

  /** The name and index keys written for a link with this body. */
  function IndexKeys(l: LinkId, b: Body): set<Key> {
    (if b.Named() then {OutName(l.from, b.name.value), OutIndex(l, "name", b.name.value)} else {})
    + TagKeys(l, b.tags)
  }

  /** The vertex under which the reverse key of a link is filed: what the nested request reads back from the id it
      is sent to, which is composite for a self-loop. */
  function FilingId(l: LinkId): (id: string)
    ensures id == "" || ValidToken(id)
  {
    var sentTo := if l.to == l.from then l.to + MARK + "create_in_link" else l.to;
    assert forall c <- sentTo :: IsTokenChar(c);
    FirstPart(sentTo)
  }

  /** The reverse key a link is filed under; the cache refuses one that would begin with a dot. */
  function InKeys(l: LinkId): set<Key> {
    if FilingId(l) == "" then {} else {In(LinkId(l.from, l.ltype, FilingId(l)))}
  }

  function LinkKeys(l: LinkId, b: Body): set<Key> {
    IndexKeys(l, b) + {OutBody(l)} + InKeys(l)
  }

  function NextNumber(kv: Kv, from: Token): nat {
    if NameGen(from) in kv && kv[NameGen(from)].Counter? then kv[NameGen(from)].n else 0
  }

  /** A defined name is kept unless some link of the vertex has it; otherwise one is generated. */
  predicate Generates(kv: Kv, from: Token, b: Body) {
    !b.Named() || OutName(from, b.name.value) in kv
  }

  function NamedBody(kv: Kv, from: Token, b: Body): (r: Body)
    ensures r.Named()
  {
    if Generates(kv, from, b) then b.(name := Some(GeneratedName(NextNumber(kv, from)))) else b
  }

  function Bumped(kv: Kv, from: Token, b: Body): Kv {
    if Generates(kv, from, b) then kv[NameGen(from) := Counter(NextNumber(kv, from) + 1)] else kv
  }

  function Nils(ks: set<Key>): Kv {
    map k | k in ks :: Nil
  }

  /** Writes name, indices and body of a link, generating a name when needed. */
  function LinkWritten(kv: Kv, l: LinkId, b: Body): Kv {
    var b' := NamedBody(kv, l.from, b);
    (Bumped(kv, l.from, b) + Nils(IndexKeys(l, b')))[OutBody(l) := LinkDocument(b')]
  }

  // ---------------------------------------------------------------- links

  function LinkDeleted(kv: Kv, l: LinkId): Kv {
    if HasLink(kv, l) then kv - LinkKeys(l, BodyOf(kv, l)) else kv
  }

  function LinkDeleteLog(kv: Kv, l: LinkId): seq<Op> {
    if HasLink(kv, l) then [LinkOp(Delete, l, Some(BodyOf(kv, l)), None)] else []
  }

  function LinkCreated(kv: Kv, l: LinkId, b: Body): Kv {
    LinkWritten(LinkDeleted(kv, l), l, b) + Nils(InKeys(l))
  }

  function LinkCreateLog(kv: Kv, l: LinkId, b: Body): seq<Op> {
    LinkDeleteLog(kv, l) + [LinkOp(Create, l, None, Some(NamedBody(LinkDeleted(kv, l), l.from, b)))]
  }

  /** The store after the old indices of an existing link were deleted. */
  function Unindexed(kv: Kv, l: LinkId): Kv
    requires HasLink(kv, l)
  {
    kv - IndexKeys(l, BodyOf(kv, l))
  }

  function NewLinkBody(m: Merger, kv: Kv, l: LinkId, b: Body, mode: Mode): Body
    requires HasLink(kv, l)
  {
    if mode.Replace? then b else m.links(BodyOf(kv, l), b)
  }

  function LinkUpdated(m: Merger, kv: Kv, l: LinkId, b: Body, mode: Mode): Kv {
    if HasLink(kv, l) then LinkWritten(Unindexed(kv, l), l, NewLinkBody(m, kv, l, b, mode))
    else LinkCreated(kv, l, b)
  }

  function LinkUpdateLog(m: Merger, kv: Kv, l: LinkId, b: Body, mode: Mode): seq<Op> {
    if HasLink(kv, l) then
      var b' := NamedBody(Unindexed(kv, l), l.from, NewLinkBody(m, kv, l, b, mode));
      [LinkOp(Update, l, Some(BodyOf(kv, l)), Some(b'))]
    else LinkCreateLog(kv, l, b)
  }

  // ---------------------------------------------------------------- vertices

  /** The links a vertex delete finds: all that leave it, and those it is told of by its `in` keys. */
  function Touching(kv: Kv, id: Token): set<LinkId> {
    set k | k in kv && k.OutBody? && HasLink(kv, k.link)
            && (k.link.from == id || (k.link.to == id && In(k.link) in kv)) :: k.link
  }

  function KeysOfLinks(kv: Kv, ls: set<LinkId>): set<Key>
    requires forall l <- ls :: HasLink(kv, l)
  {
    set l, k | l in ls && k in LinkKeys(l, BodyOf(kv, l)) :: k
  }

  function VertexDeleted(kv: Kv, id: Token): Kv {
    kv - KeysOfLinks(kv, Touching(kv, id)) - {NameGen(id), Vertex(id)}
  }

  function DocOf(kv: Kv, id: Token): Doc {
    if Vertex(id) in kv && kv[Vertex(id)].Document? then kv[Vertex(id)].doc else EMPTY_DOC
  }

  /** One delete entry for each of the links, in any order, with the body it had. */
  ghost predicate DeletesEach(kv: Kv, ls: set<LinkId>, ops: seq<Op>) {
    && (forall l <- ls :: HasLink(kv, l))
    && (forall i :: 0 <= i < |ops| ==>
          ops[i].LinkOp? && ops[i].link in ls && ops[i] == LinkOp(Delete, ops[i].link, Some(BodyOf(kv, ops[i].link)), None))
    && (forall i, j :: 0 <= i < j < |ops| ==> ops[i] != ops[j])
    && (forall l <- ls :: exists op :: op in ops && op.LinkOp? && op.link == l)
  }

  ghost predicate VertexDeleteLog(kv: Kv, id: Token, ops: seq<Op>) {
    && ops != []
    && DeletesEach(kv, Touching(kv, id), ops[..|ops| - 1])
    && ops[|ops| - 1] == VertexOp(Delete, id, Some(DocOf(kv, id)), None)
  }

  function VertexCreated(kv: Kv, id: Token, doc: Doc): Kv {
    (if Vertex(id) in kv then VertexDeleted(kv, id) else kv)[Vertex(id) := Document(doc)]
  }

  ghost predicate VertexCreateLog(kv: Kv, id: Token, doc: Doc, ops: seq<Op>) {
    && ops != []
    && (if Vertex(id) in kv then VertexDeleteLog(kv, id, ops[..|ops| - 1]) else |ops| == 1)
    && ops[|ops| - 1] == VertexOp(Create, id, None, Some(doc))
  }

  function NewDoc(m: Merger, kv: Kv, id: Token, doc: Doc, mode: Mode): Doc {
    if mode.Replace? then doc else m.docs(DocOf(kv, id), doc)
  }

  function VertexUpdated(m: Merger, kv: Kv, id: Token, doc: Doc, mode: Mode): Kv {
    kv[Vertex(id) := Document(NewDoc(m, kv, id, doc, mode))]
  }

  // ---------------------------------------------------------------- requests

  /** A request as the handlers see it; missing payload fields are None. */
  datatype Request =
    | VertexCreate(id: Token, doc: Option<Doc>)
    | VertexUpdate(id: Token, doc: Option<Doc>, mode: Mode)
    | VertexDelete(id: Token)
    | LinkCreate(from: Token, ltype: Option<Token>, to: Option<Token>, body: Option<Body>, randomType: Token, randomTo: Token)
    | LinkUpdate(from: Token, ltype: Option<Token>, to: Option<Token>, body: Option<Body>, mode: Mode)
    | LinkDelete(from: Token, ltype: Option<Token>, to: Option<Token>)
  {
    predicate Succeeds() {
      match this
      case VertexCreate(_, _) => true
      case VertexUpdate(_, doc, _) => doc.Some?
      case VertexDelete(_) => true
      case LinkCreate(_, _, _, body, _, _) => body.Some?
      case LinkUpdate(_, ltype, to, body, _) => ltype.Some? && to.Some? && body.Some?
      case LinkDelete(_, ltype, to) => ltype.Some? && to.Some?
    }

    /** The link a successful link request is about. */
    function Link(): LinkId
      requires (LinkCreate? || LinkUpdate? || LinkDelete?) && Succeeds()
    {
      match this
      case LinkCreate(from, ltype, to, _, rt, ro) =>
        LinkId(from, if ltype.Some? then ltype.value else rt, if to.Some? then to.value else ro)
      case LinkUpdate(from, ltype, to, _, _) => LinkId(from, ltype.value, to.value)
      case LinkDelete(from, ltype, to) => LinkId(from, ltype.value, to.value)
    }
  }

  function After(m: Merger, kv: Kv, r: Request): Kv {
    if !r.Succeeds() then kv
    else match r
      case VertexCreate(id, doc) => VertexCreated(kv, id, if doc.Some? then doc.value else EMPTY_DOC)
      case VertexUpdate(id, doc, mode) => VertexUpdated(m, kv, id, doc.value, mode)
      case VertexDelete(id) => VertexDeleted(kv, id)
      case LinkCreate(_, _, _, body, _, _) => LinkCreated(kv, r.Link(), body.value)
      case LinkUpdate(_, _, _, body, mode) => LinkUpdated(m, kv, r.Link(), body.value, mode)
      case LinkDelete(_, _, _) => LinkDeleted(kv, r.Link())
  }

  /** `ops` is a log the request may return; only a failed vertex update logs something without changing anything. */
  ghost predicate Logs(m: Merger, kv: Kv, r: Request, ops: seq<Op>) {
    if !r.Succeeds() then
      ops == if r.VertexUpdate? then [VertexOp(Update, r.id, Some(DocOf(kv, r.id)), Some(DocOf(kv, r.id)))] else []
    else match r
      case VertexCreate(id, doc) => VertexCreateLog(kv, id, if doc.Some? then doc.value else EMPTY_DOC, ops)
      case VertexUpdate(id, doc, mode) =>
        ops == [VertexOp(Update, id, Some(DocOf(kv, id)), Some(NewDoc(m, kv, id, doc.value, mode)))]
      case VertexDelete(id) => VertexDeleteLog(kv, id, ops)
      case LinkCreate(_, _, _, body, _, _) => ops == LinkCreateLog(kv, r.Link(), body.value)
      case LinkUpdate(_, _, _, body, mode) => ops == LinkUpdateLog(m, kv, r.Link(), body.value, mode)
      case LinkDelete(_, _, _) => ops == LinkDeleteLog(kv, r.Link())
  }
}
