/** The operation log: replayed it redoes a request, reverted it undoes it. */
module CrudReplay {
  import opened Wrappers
  import opened Tokens
  import opened GraphStore
  import opened CrudSpec
  import opened CrudCoherence

  /** The graph itself: vertex and link bodies without the indices kept beside them. */
  function Bodies(kv: Kv): Kv {
    map k | k in kv && (k.Vertex? || k.OutBody?) :: kv[k]
  }

  function Put(g: Kv, k: Key, v: Option<Value>): Kv {
    if v.Some? then g[k := v.value] else g - {k}
  }

  function EntryKey(op: Op): Key {
    match op
    case VertexOp(_, id, _, _) => Vertex(id)
    case LinkOp(_, l, _, _) => OutBody(l)
  }

  function OldValue(op: Op): Option<Value> {
    match op
    case VertexOp(_, _, before, _) => if before.Some? then Some(Document(before.value)) else None
    case LinkOp(_, _, before, _) => if before.Some? then Some(LinkDocument(before.value)) else None
  }

  function NewValue(op: Op): Option<Value> {
    match op
    case VertexOp(_, _, _, after) => if after.Some? then Some(Document(after.value)) else None
    case LinkOp(_, _, _, after) => if after.Some? then Some(LinkDocument(after.value)) else None
  }

  function Redo(g: Kv, op: Op): Kv {
    Put(g, EntryKey(op), NewValue(op))
  }

  function Revert(g: Kv, op: Op): Kv {
    Put(g, EntryKey(op), OldValue(op))
  }

  function Replay(g: Kv, ops: seq<Op>): Kv {
    if ops == [] then g else Redo(Replay(g, ops[..|ops| - 1]), ops[|ops| - 1])
  }

  /** The entries taken back, last one first. */
  function Undo(g: Kv, ops: seq<Op>): Kv
    decreases |ops|
  {
    if ops == [] then g else Undo(Revert(g, ops[|ops| - 1]), ops[..|ops| - 1])
  }

  lemma ReplayOne(g: Kv, op: Op)
    ensures Replay(g, [op]) == Redo(g, op)
    ensures Undo(g, [op]) == Revert(g, op)
  {
    assert [op][..0] == [];
    assert Replay(g, []) == g;
    assert Undo(Revert(g, op), []) == Revert(g, op);
  }

  lemma ReplayTwo(g: Kv, op1: Op, op2: Op)
    ensures Replay(g, [op1, op2]) == Redo(Redo(g, op1), op2)
    ensures Undo(g, [op1, op2]) == Revert(Revert(g, op2), op1)
  {
    assert [op1, op2][..1] == [op1];
    ReplayOne(g, op1);
    ReplayOne(Revert(g, op2), op1);
  }

  // ---------------------------------------------------------------- bodies after each operation

  lemma BodiesOfLinkDeleted(kv: Kv, l: LinkId)
    requires Typed(kv)
    ensures Bodies(LinkDeleted(kv, l)) == Bodies(kv) - {OutBody(l)}
  {
    TypedHas(kv, l);
  }

  lemma BodiesOfLinkWritten(kv: Kv, l: LinkId, b: Body)
    ensures Bodies(LinkWritten(kv, l, b)) == Bodies(kv)[OutBody(l) := LinkDocument(NamedBody(kv, l.from, b))]
  {
  }

  lemma BodiesOfLinkCreated(kv: Kv, l: LinkId, b: Body)
    requires Typed(kv)
    ensures Bodies(LinkCreated(kv, l, b))
            == Bodies(kv)[OutBody(l) := LinkDocument(NamedBody(LinkDeleted(kv, l), l.from, b))]
  {
    var kv1 := LinkDeleted(kv, l);
    BodiesOfLinkDeleted(kv, l);
    BodiesOfLinkWritten(kv1, l, b);
    BodiesIgnoreIn(LinkWritten(kv1, l, b), l);
  }

  lemma BodiesIgnoreIn(kv: Kv, l: LinkId)
    ensures Bodies(kv + Nils(InKeys(l))) == Bodies(kv)
  {
  }

  lemma BodiesOfUnindexed(kv: Kv, l: LinkId)
    requires HasLink(kv, l)
    ensures Bodies(Unindexed(kv, l)) == Bodies(kv)
  {
  }

  function BodyKeys(ls: set<LinkId>): set<Key> {
    set l | l in ls :: OutBody(l)
  }

  lemma BodiesOfVertexDeleted(kv: Kv, id: Token)
    ensures Bodies(VertexDeleted(kv, id)) == Bodies(kv) - BodyKeys(Touching(kv, id)) - {Vertex(id)}
  {
    forall k: Key | k.Vertex? || k.OutBody?
      ensures k in KeysOfLinks(kv, Touching(kv, id)) <==> k in BodyKeys(Touching(kv, id))
    {
      if k in BodyKeys(Touching(kv, id)) {
        assert k in LinkKeys(k.link, BodyOf(kv, k.link));
      }
    }
  }

  // ---------------------------------------------------------------- delete entries

  ghost predicate LinkDeletes(g: Kv, ops: seq<Op>) {
    forall i :: 0 <= i < |ops| ==>
      ops[i].LinkOp? && ops[i].newBody.None? && EntryKey(ops[i]) in g && OldValue(ops[i]) == Some(g[EntryKey(ops[i])])
  }

  function Keys(ops: seq<Op>): set<Key> {
    if ops == [] then {} else Keys(ops[..|ops| - 1]) + {EntryKey(ops[|ops| - 1])}
  }

  lemma {:induction false} KeysIn(ops: seq<Op>, k: Key)
    ensures k in Keys(ops) <==> exists op :: op in ops && EntryKey(op) == k
  {
    if ops != [] {
      var init, last := ops[..|ops| - 1], ops[|ops| - 1];
      KeysIn(init, k);
      assert ops == init + [last];
      if op :| op in init && EntryKey(op) == k {
        assert op in ops;
      }
    }
  }

  lemma {:induction false} ReplayDeletes(g: Kv, g0: Kv, ops: seq<Op>)
    requires LinkDeletes(g0, ops)
    ensures Replay(g, ops) == g - Keys(ops)
  {
    if ops == [] {
      assert g - Keys(ops) == g;
    } else {
      ReplayDeletes(g, g0, ops[..|ops| - 1]);
    }
  }

  /** Taking delete entries back restores the logged bodies. */
  lemma {:induction false} UndoDeletes(g: Kv, g0: Kv, ops: seq<Op>, k: Key)
    requires LinkDeletes(g0, ops)
    ensures k in Keys(ops) ==> k in g0 && k in Undo(g, ops) && Undo(g, ops)[k] == g0[k]
    ensures k !in Keys(ops) ==> (k in Undo(g, ops) <==> k in g) && (k in g ==> Undo(g, ops)[k] == g[k])
    decreases |ops|
  {
    if ops != [] {
      UndoDeletes(Revert(g, ops[|ops| - 1]), g0, ops[..|ops| - 1], k);
    }
  }

  lemma LoggedDeletes(kv: Kv, id: Token, ops: seq<Op>)
    requires DeletesEach(kv, Touching(kv, id), ops)
    ensures LinkDeletes(Bodies(kv), ops) && Keys(ops) == BodyKeys(Touching(kv, id))
  {
    forall k
      ensures k in Keys(ops) <==> k in BodyKeys(Touching(kv, id))
    {
      KeysIn(ops, k);
      if k in BodyKeys(Touching(kv, id)) {
        var op :| op in ops && op.LinkOp? && op.link == k.link;
        assert EntryKey(op) == k;
      }
      if op :| op in ops && EntryKey(op) == k {
        var i :| 0 <= i < |ops| && ops[i] == op;
        assert ops[i].link in Touching(kv, id);
      }
    }
  }

  lemma VertexDeleteReplay(kv: Kv, id: Token, ops: seq<Op>)
    requires VertexDeleteLog(kv, id, ops)
    ensures Replay(Bodies(kv), ops) == Bodies(VertexDeleted(kv, id))
  {
    LoggedDeletes(kv, id, ops[..|ops| - 1]);
    ReplayDeletes(Bodies(kv), Bodies(kv), ops[..|ops| - 1]);
    BodiesOfVertexDeleted(kv, id);
  }

  /** Reverting a vertex delete puts back its links and, even if there was none, a vertex body. */
  lemma VertexDeleteUndo(kv: Kv, id: Token, ops: seq<Op>)
    requires VertexDeleteLog(kv, id, ops)
    ensures Undo(Bodies(VertexDeleted(kv, id)), ops) == Bodies(kv)[Vertex(id) := Document(DocOf(kv, id))]
  {
    var deletes, g := ops[..|ops| - 1], Bodies(kv);
    var reverted := Revert(Bodies(VertexDeleted(kv, id)), ops[|ops| - 1]);
    LoggedDeletes(kv, id, deletes);
    BodiesOfVertexDeleted(kv, id);
    var expected := g[Vertex(id) := Document(DocOf(kv, id))];
    forall k
      ensures k in Undo(reverted, deletes) <==> k in expected
      ensures k in expected ==> Undo(reverted, deletes)[k] == expected[k]
    {
      UndoDeletes(reverted, g, deletes, k);
    }
  }

  // ---------------------------------------------------------------- each request

  lemma LinkDeleteReplay(kv: Kv, l: LinkId)
    requires Typed(kv)
    ensures Replay(Bodies(kv), LinkDeleteLog(kv, l)) == Bodies(LinkDeleted(kv, l))
    ensures Undo(Bodies(LinkDeleted(kv, l)), LinkDeleteLog(kv, l)) == Bodies(kv)
  {
    BodiesOfLinkDeleted(kv, l);
    if HasLink(kv, l) {
      var op := LinkOp(Delete, l, Some(BodyOf(kv, l)), None);
      ReplayOne(Bodies(kv), op);
      ReplayOne(Bodies(LinkDeleted(kv, l)), op);
    }
  }

  lemma LinkCreateForward(kv: Kv, l: LinkId, b: Body)
    requires Typed(kv)
    ensures Replay(Bodies(kv), LinkCreateLog(kv, l, b)) == Bodies(LinkCreated(kv, l, b))
  {
    var g := Bodies(kv);
    var create := LinkOp(Create, l, None, Some(NamedBody(LinkDeleted(kv, l), l.from, b)));
    BodiesOfLinkCreated(kv, l, b);
    if HasLink(kv, l) {
      var delete := LinkOp(Delete, l, Some(BodyOf(kv, l)), None);
      assert LinkCreateLog(kv, l, b) == [delete, create];
      ReplayTwo(g, delete, create);
    } else {
      assert LinkCreateLog(kv, l, b) == [create];
      ReplayOne(g, create);
    }
  }

  lemma PutBack(g: Kv, k: Key, v: Value)
    ensures k !in g ==> g[k := v] - {k} == g
    ensures k in g ==> (g[k := v] - {k})[k := g[k]] == g
  {
  }

  lemma LinkCreateBack(kv: Kv, l: LinkId, b: Body)
    requires Typed(kv)
    ensures Undo(Bodies(LinkCreated(kv, l, b)), LinkCreateLog(kv, l, b)) == Bodies(kv)
  {
    var g, g' := Bodies(kv), Bodies(LinkCreated(kv, l, b));
    var body := NamedBody(LinkDeleted(kv, l), l.from, b);
    var create := LinkOp(Create, l, None, Some(body));
    BodiesOfLinkCreated(kv, l, b);
    PutBack(g, OutBody(l), LinkDocument(body));
    TypedHas(kv, l);
    if HasLink(kv, l) {
      var delete := LinkOp(Delete, l, Some(BodyOf(kv, l)), None);
      ReplayTwo(g', delete, create);
      assert g[OutBody(l)] == LinkDocument(BodyOf(kv, l));
    } else {
      ReplayOne(g', create);
    }
  }

  lemma LinkCreateReplay(kv: Kv, l: LinkId, b: Body)
    requires Typed(kv)
    ensures Replay(Bodies(kv), LinkCreateLog(kv, l, b)) == Bodies(LinkCreated(kv, l, b))
    ensures Undo(Bodies(LinkCreated(kv, l, b)), LinkCreateLog(kv, l, b)) == Bodies(kv)
  {
    LinkCreateForward(kv, l, b);
    LinkCreateBack(kv, l, b);
  }

  lemma LinkUpdateReplay(m: Merger, kv: Kv, l: LinkId, b: Body, mode: Mode)
    requires Typed(kv)
    ensures Replay(Bodies(kv), LinkUpdateLog(m, kv, l, b, mode)) == Bodies(LinkUpdated(m, kv, l, b, mode))
    ensures Undo(Bodies(LinkUpdated(m, kv, l, b, mode)), LinkUpdateLog(m, kv, l, b, mode)) == Bodies(kv)
  {
    if HasLink(kv, l) {
      var op := LinkUpdateLog(m, kv, l, b, mode)[0];
      BodiesOfUnindexed(kv, l);
      BodiesOfLinkWritten(Unindexed(kv, l), l, NewLinkBody(m, kv, l, b, mode));
      ReplayOne(Bodies(kv), op);
      ReplayOne(Bodies(LinkUpdated(m, kv, l, b, mode)), op);
    } else {
      LinkCreateReplay(kv, l, b);
    }
  }

  lemma BodiesOfVertexWritten(kv: Kv, id: Token, doc: Doc)
    ensures Bodies(kv[Vertex(id) := Document(doc)]) == Bodies(kv)[Vertex(id) := Document(doc)]
  {
  }

  lemma VertexCreateReplay(kv: Kv, id: Token, doc: Doc, ops: seq<Op>)
    requires VertexCreateLog(kv, id, doc, ops)
    ensures Replay(Bodies(kv), ops) == Bodies(VertexCreated(kv, id, doc))
  {
    if Vertex(id) in kv {
      VertexDeleteReplay(kv, id, ops[..|ops| - 1]);
      BodiesOfVertexWritten(VertexDeleted(kv, id), id, doc);
    } else {
      assert ops[..|ops| - 1] == [];
      BodiesOfVertexWritten(kv, id, doc);
    }
  }

  lemma VertexCreateUndo(kv: Kv, id: Token, doc: Doc, ops: seq<Op>)
    requires Typed(kv) && VertexCreateLog(kv, id, doc, ops)
    ensures Undo(Bodies(VertexCreated(kv, id, doc)), ops) == Bodies(kv)
  {
    var deletes := ops[..|ops| - 1];
    if Vertex(id) in kv {
      var gone := Bodies(VertexDeleted(kv, id));
      BodiesOfVertexWritten(VertexDeleted(kv, id), id, doc);
      BodiesOfVertexDeleted(kv, id);
      assert gone[Vertex(id) := Document(doc)] - {Vertex(id)} == gone;
      VertexDeleteUndo(kv, id, deletes);
      OldDocIff(kv, id);
    } else {
      assert deletes == [];
      BodiesOfVertexWritten(kv, id, doc);
      assert Bodies(kv)[Vertex(id) := Document(doc)] - {Vertex(id)} == Bodies(kv);
    }
  }

  /** Writing the logged old body of a vertex changes nothing exactly when the vertex exists. */
  lemma OldDocIff(kv: Kv, id: Token)
    requires Typed(kv)
    ensures Bodies(kv)[Vertex(id) := Document(DocOf(kv, id))] == Bodies(kv) <==> Vertex(id) in kv
  {
    if Vertex(id) in kv {
      assert TypedAt(Vertex(id), kv[Vertex(id)]);
    } else {
      assert Vertex(id) in Bodies(kv)[Vertex(id) := Document(DocOf(kv, id))];
    }
  }

  lemma VertexUpdateReplay(m: Merger, kv: Kv, id: Token, doc: Doc, mode: Mode)
    requires Typed(kv)
    ensures var ops := [VertexOp(Update, id, Some(DocOf(kv, id)), Some(NewDoc(m, kv, id, doc, mode)))];
            && Replay(Bodies(kv), ops) == Bodies(VertexUpdated(m, kv, id, doc, mode))
            && (Undo(Bodies(VertexUpdated(m, kv, id, doc, mode)), ops) == Bodies(kv) <==> Vertex(id) in kv)
  {
    var op := VertexOp(Update, id, Some(DocOf(kv, id)), Some(NewDoc(m, kv, id, doc, mode)));
    var g' := Bodies(VertexUpdated(m, kv, id, doc, mode));
    ReplayOne(Bodies(kv), op);
    ReplayOne(g', op);
    BodiesOfVertexWritten(kv, id, NewDoc(m, kv, id, doc, mode));
    assert g'[Vertex(id) := Document(DocOf(kv, id))] == Bodies(kv)[Vertex(id) := Document(DocOf(kv, id))];
    OldDocIff(kv, id);
  }

  // ---------------------------------------------------------------- the theorems

  /** Replaying the log of a successful request over the old graph gives exactly the new graph. */
  lemma LogReplays(m: Merger, kv: Kv, r: Request, ops: seq<Op>)
    requires Typed(kv) && r.Succeeds() && Logs(m, kv, r, ops)
    ensures Replay(Bodies(kv), ops) == Bodies(After(m, kv, r))
  {
    match r
    case VertexCreate(id, doc) => VertexCreateReplay(kv, id, if doc.Some? then doc.value else EMPTY_DOC, ops);
    case VertexUpdate(id, doc, mode) => VertexUpdateReplay(m, kv, id, doc.value, mode);
    case VertexDelete(id) => VertexDeleteReplay(kv, id, ops);
    case LinkCreate(_, _, _, body, _, _) => LinkCreateReplay(kv, r.Link(), body.value);
    case LinkUpdate(_, _, _, body, mode) => LinkUpdateReplay(m, kv, r.Link(), body.value, mode);
    case LinkDelete(_, _, _) => LinkDeleteReplay(kv, r.Link());
  }

  /** Reverting it gives the old graph back, unless a vertex that did not exist was updated or deleted:
      then the log claims an old body "{}" that was never there. */
  lemma LogUndoesIff(m: Merger, kv: Kv, r: Request, ops: seq<Op>)
    requires Typed(kv) && r.Succeeds() && Logs(m, kv, r, ops)
    ensures Undo(Bodies(After(m, kv, r)), ops) == Bodies(kv)
            <==> (r.VertexUpdate? || r.VertexDelete? ==> Vertex(r.id) in kv)
  {
    match r
    case VertexCreate(id, doc) => VertexCreateUndo(kv, id, if doc.Some? then doc.value else EMPTY_DOC, ops);
    case VertexUpdate(id, doc, mode) => VertexUpdateReplay(m, kv, id, doc.value, mode);
    case VertexDelete(id) =>
      VertexDeleteUndo(kv, id, ops);
      OldDocIff(kv, id);
    case LinkCreate(_, _, _, body, _, _) => LinkCreateReplay(kv, r.Link(), body.value);
    case LinkUpdate(_, _, _, body, mode) => LinkUpdateReplay(m, kv, r.Link(), body.value, mode);
    case LinkDelete(_, _, _) => LinkDeleteReplay(kv, r.Link());
  }
}
