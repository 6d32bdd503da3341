/** The flat key/value layout of the low-level graph: five key families kept beside the vertex bodies. */
module GraphStore {
  import opened Wrappers
  import opened Tokens

  datatype LinkId = LinkId(from: Token, ltype: Token, to: Token)

  datatype Key =
    | Vertex(id: Token)
    | OutBody(link: LinkId)
    | OutIndex(link: LinkId, index: Token, value: Token)
    | OutName(from: Token, name: Token)
    | NameGen(from: Token)
    | In(link: LinkId)
  {
    function Tokens(): (ts: seq<Token>)
      ensures ts != []
    {
      match this
      case Vertex(id) => [id]
      case OutBody(l) => [l.from, "out", "body", l.ltype, l.to]
      case OutIndex(l, index, value) => [l.from, "out", "index", l.ltype, l.to, index, value]
      case OutName(from, name) => [from, "out", "name", name]
      case NameGen(from) => [from, "out", "namegen"]
      case In(l) => [l.to, "in", l.from, l.ltype]
    }

    /** The key as it is stored. */
    function Rendered(): string {
      Join(Tokens())
    }
  }

  /** Different keys never share a string, so the store may be seen as a map over structured keys. */
  lemma RenderedInjective(k1: Key, k2: Key)
    requires k1.Rendered() == k2.Rendered()
    ensures k1 == k2
  {
    forall t: Token
      ensures '.' !in t
    {
      TokenHasNoDot(t);
    }
    SplitJoin(k1.Tokens());
    SplitJoin(k2.Tokens());
    var a, b := k1.Tokens(), k2.Tokens();
    assert a == b;
    assert |a| > 1 ==> a[1] == b[1] && a[0] == b[0];
    assert |a| > 4 ==> a[2] == b[2] && a[3] == b[3] && a[4] == b[4];
    assert |a| == 4 ==> a[2] == b[2] && a[3] == b[3];
    assert |a| == 7 ==> a[5] == b[5] && a[6] == b[6];
  }

  /** A name in a link body: absent, empty or a key token. */
  type LinkName = s: string | s == "" || ValidToken(s)

  /** A link body: what the indices depend on, and the rest of the document. */
  datatype Body = Body(name: Option<LinkName>, tags: seq<Token>, rest: string)
  {
    predicate Named() {
      name.Some? && name.value != ""
    }
  }

  /** Vertex bodies are opaque documents. */
  type Doc = string

  const EMPTY_DOC: Doc := "{}"

  datatype Value = Document(doc: Doc) | LinkDocument(body: Body) | Counter(n: nat) | Nil

  type Kv = map<Key, Value>

  predicate TypedAt(k: Key, v: Value) {
    match k
    case Vertex(_) => v.Document?
    case OutBody(_) => v.LinkDocument? && v.body.Named()
    case NameGen(_) => v.Counter?
    case _ => v == Nil
  }

  predicate Typed(kv: Kv) {
    forall k <- kv :: TypedAt(k, kv[k])
  }

  predicate HasLink(kv: Kv, l: LinkId) {
    OutBody(l) in kv && kv[OutBody(l)].LinkDocument?
  }

  function BodyOf(kv: Kv, l: LinkId): Body
    requires HasLink(kv, l)
  {
    kv[OutBody(l)].body
  }

  /** The index entries a body asks for. */
  predicate Features(b: Body, index: string, value: string) {
    (index == "name" && b.name == Some(value)) || (index == "tag" && value in b.tags)
  }
}
