/** What the key patterns of the graph operations list: each asks for one family of keys of one vertex or link. */
module Patterns {
  import opened Tokens
  import opened Paths
  import opened GraphStore

  lemma {:induction false} TokensOfPath(ts: seq<string>)
    ensures TokensOf(PathOf(ts)) == ts
    decreases |ts|
  {
    if ts != [] {
      TokensOfPath(ts[..|ts| - 1]);
      assert ts == ts[..|ts| - 1] + [ts[|ts| - 1]];
    }
  }

  /** A path is at or below another exactly when its tokens begin with the other's. */
  lemma {:induction false} AtOrBelowIsPrefix(base: Path, p: Path)
    ensures AtOrBelow(base, p) <==> TokensOf(base) <= TokensOf(p)
  {
    var a, b := TokensOf(base), TokensOf(p);
    if p == base {
    } else if p.Root? {
      assert base.Under?;
    } else {
      AtOrBelowIsPrefix(base, p.parent);
      if a <= b && |a| == |b| {
        SameTokens(base, p);
      }
      assert b == TokensOf(p.parent) + [p.token];
      assert |a| < |b| ==> (a <= b <==> a <= TokensOf(p.parent));
    }
  }

  lemma {:induction false} SameTokens(p: Path, q: Path)
    requires TokensOf(p) == TokensOf(q)
    ensures p == q
  {
    if p.Under? && q.Under? {
      var a, b := TokensOf(p), TokensOf(q);
      assert a[..|a| - 1] == TokensOf(p.parent) && b[..|b| - 1] == TokensOf(q.parent);
      SameTokens(p.parent, q.parent);
    }
  }

  /** The pattern "<prefix>.>" lists the stored form of `k`. */
  ghost predicate Lists(prefix: seq<Token>, k: Key)
    requires prefix != []
  {
    Below(KeyPath(Join(prefix + [">"])).parent, KeyPath(k.Rendered()))
  }

  lemma JoinedPath(above: seq<string>, last: string)
    requires '.' !in last && forall t <- above :: '.' !in t
    ensures KeyPath(Join(above + [last])) == Under(PathOf(above), last)
  {
    SplitJoin(above + [last]);
    assert (above + [last])[..|above|] == above;
  }

  lemma PathsBelow(prefix: seq<string>, above: seq<string>, last: string)
    ensures Below(PathOf(prefix), Under(PathOf(above), last)) <==> prefix <= above
  {
    TokensOfPath(prefix);
    TokensOfPath(above);
    AtOrBelowIsPrefix(PathOf(prefix), PathOf(above));
  }

  lemma ListsIff(prefix: seq<Token>, k: Key)
    requires prefix != []
    ensures Lists(prefix, k) <==> |prefix| < |k.Tokens()| && prefix == k.Tokens()[..|prefix|]
  {
    var key := k.Tokens();
    var above, last := key[..|key| - 1], key[|key| - 1];
    forall t: Token
      ensures '.' !in t
    {
      TokenHasNoDot(t);
    }
    JoinedPath(prefix, ">");
    assert key == above + [last];
    JoinedPath(above, last);
    PathsBelow(prefix, above, last);
  }

  /** "<id>.out.body.>": the bodies of all links out of a vertex. */
  lemma OutBodies(id: Token, k: Key)
    ensures Lists([id, "out", "body"], k) <==> k.OutBody? && k.link.from == id
  {
    ListsIff([id, "out", "body"], k);
    FirstThree(k.Tokens(), [id, "out", "body"]);
  }

  /** "<id>.out.body.<type>.>": those of one type. */
  lemma OutBodiesOfType(id: Token, ltype: Token, k: Key)
    ensures Lists([id, "out", "body", ltype], k) <==> k.OutBody? && k.link.from == id && k.link.ltype == ltype
  {
    ListsIff([id, "out", "body", ltype], k);
    FirstThree(k.Tokens(), [id, "out", "body", ltype]);
    assert |k.Tokens()| > 4 ==> k.Tokens()[..4][3] == k.Tokens()[3];
  }

  /** "<id>.in.>": the reverse keys of all links into a vertex. */
  lemma InLinks(id: Token, k: Key)
    ensures Lists([id, "in"], k) <==> k.In? && k.link.to == id
  {
    ListsIff([id, "in"], k);
    assert |k.Tokens()| > 2 ==> k.Tokens()[..2] == [k.Tokens()[0], k.Tokens()[1]];
  }

  /** "<from>.out.index.<type>.<to>.>": the index keys of one link. */
  lemma LinkIndices(l: LinkId, k: Key)
    ensures Lists([l.from, "out", "index", l.ltype, l.to], k) <==> k.OutIndex? && k.link == l
  {
    var prefix := [l.from, "out", "index", l.ltype, l.to];
    ListsIff(prefix, k);
    FirstThree(k.Tokens(), prefix);
    assert |k.Tokens()| > 5 ==> k.Tokens()[..5][3] == k.Tokens()[3] && k.Tokens()[..5][4] == k.Tokens()[4];
  }

  lemma FirstThree(ts: seq<Token>, prefix: seq<Token>)
    requires |prefix| >= 3
    ensures |prefix| < |ts| && prefix == ts[..|prefix|] ==> prefix[0] == ts[0] && prefix[1] == ts[1] && prefix[2] == ts[2]
    ensures |prefix| == 3 < |ts| && prefix[0] == ts[0] && prefix[1] == ts[1] && prefix[2] == ts[2] ==> prefix == ts[..3]
  {
  }
}
