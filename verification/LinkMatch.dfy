/** Finding the targets of a query step through the index keys, against scanning the link bodies. */
module LinkMatch {
  import opened Tokens
  import opened GraphStore
  import opened CrudCoherence
  import opened Filter

  /** The links out of `obj` with the asked type; "*" stands for any type. */
  function OutLinks(kv: Kv, obj: Token, linkType: string): set<LinkId> {
    set k | k in kv && k.OutBody? && k.link.from == obj && (linkType == "*" || k.link.ltype == linkType) :: k.link
  }

  /** GetObjectIDsFromLinkType: without a type, the object itself. */
  function TypeTargets(kv: Kv, obj: Token, linkType: string): set<Token> {
    if linkType == "" then {obj} else set l | l in OutLinks(kv, obj, linkType) :: l.to
  }

  lemma OutLinksAre(kv: Kv, obj: Token, linkType: string, l: LinkId)
    ensures l in OutLinks(kv, obj, linkType)
            <==> OutBody(l) in kv && l.from == obj && (linkType == "*" || l.ltype == linkType)
  {
    assert OutBody(l).link == l;
  }

  /** Some link of the asked type leads from `obj` to `t`. */
  ghost predicate LeadsTo(kv: Kv, obj: Token, linkType: string, t: Token) {
    exists l :: OutBody(l) in kv && l.from == obj && (linkType == "*" || l.ltype == linkType) && l.to == t
  }

  lemma TypeTargetsAre(kv: Kv, obj: Token, linkType: string, t: Token)
    ensures linkType == "" ==> (t in TypeTargets(kv, obj, linkType) <==> t == obj)
    ensures linkType != "" ==> (t in TypeTargets(kv, obj, linkType) <==> LeadsTo(kv, obj, linkType, t))
  {
    if linkType != "" && t in TypeTargets(kv, obj, linkType) {
      var l :| l in OutLinks(kv, obj, linkType) && l.to == t;
      OutLinksAre(kv, obj, linkType, l);
    }
    if linkType != "" && LeadsTo(kv, obj, linkType, t) {
      var l :| OutBody(l) in kv && l.from == obj && (linkType == "*" || l.ltype == linkType) && l.to == t;
      OutLinksAre(kv, obj, linkType, l);
    }
  }

  /** What a filter can ask of a link, read off its body. */
  function FactsOfBody(b: Body): set<Feature> {
    (if b.name.Some? then {Feature("name", b.name.value)} else {})
    + set t | t in b.tags :: Feature("tag", t)
  }

  /** Scanning the bodies: some link of the type leads to `t` and satisfies some disjunct. */
  ghost predicate ScanFinds(kv: Kv, obj: Token, linkType: string, d: Dnf, t: Token) {
    exists l :: HasLink(kv, l) && l.from == obj && (linkType == "*" || l.ltype == linkType) && l.to == t
                && Matches(d, FactsOfBody(BodyOf(kv, l)))
  }

  /** GetSpecificLinkIndices */
  method SpecificLinkIndices(kv: Kv, l: LinkId) returns (indices: set<Feature>)
    ensures forall f :: f in indices <==>
              ValidToken(f.name) && ValidToken(f.value) && OutIndex(l, f.name, f.value) in kv
  {
    var keys := set k | k in kv && k.OutIndex? && k.link == l;
    indices := {};
    while keys != {}
      invariant keys <= set k | k in kv && k.OutIndex? && k.link == l
      invariant forall f :: f in indices <==>
                  ValidToken(f.name) && ValidToken(f.value) && OutIndex(l, f.name, f.value) in kv
                  && OutIndex(l, f.name, f.value) !in keys
    {
      var k :| k in keys;
      keys := keys - {k};
      indices := indices + {Feature(k.index, k.value)};
    }
  }

  method ConjunctionFound(fs: seq<Feature>, indices: set<Feature>) returns (found: bool)
    ensures found <==> Conjunction(fs, indices)
  {
    var i := 0;
    while i < |fs|
      invariant i <= |fs|
      invariant forall j :: 0 <= j < i ==> fs[j] in indices
    {
      if fs[i] !in indices {
        return false;
      }
      i := i + 1;
    }
    return true;
  }

  method DisjunctFound(d: Dnf, indices: set<Feature>) returns (found: bool)
    ensures found <==> Matches(d, indices)
  {
    var i := 0;
    while i < |d|
      invariant i <= |d|
      invariant forall j :: 0 <= j < i ==> !Conjunction(d[j], indices)
    {
      found := ConjunctionFound(d[i], indices);
      if found {
        return true;
      }
      i := i + 1;
    }
    return false;
  }

  lemma IndicesAreFacts(kv: Kv, l: LinkId, indices: set<Feature>)
    requires Indexed(kv) && HasLink(kv, l)
    requires forall f :: f in indices <==>
               ValidToken(f.name) && ValidToken(f.value) && OutIndex(l, f.name, f.value) in kv
    ensures indices == FactsOfBody(BodyOf(kv, l))
  {
    TypedHas(kv, l);
    forall f
      ensures f in indices <==> f in FactsOfBody(BodyOf(kv, l))
    {
      if ValidToken(f.name) && ValidToken(f.value) {
        assert IndexAgrees(kv, l, f.name, f.value);
      }
    }
  }

  /** Matching through the index keys finds exactly the targets that scanning the bodies finds; a filter without
      any disjunct asks for nothing. */
  method TargetsByIndex(kv: Kv, obj: Token, linkType: string, d: Dnf) returns (targets: set<Token>)
    requires Indexed(kv)
    ensures d == [] && linkType == "" ==> targets == {obj}
    ensures d == [] && linkType != "" ==> forall t :: t in targets <==> LeadsTo(kv, obj, linkType, t)
    ensures d != [] ==> forall t :: t in targets <==> ScanFinds(kv, obj, linkType, d, t)
  {
    if d == [] {
      forall t
        ensures linkType != "" ==> (t in TypeTargets(kv, obj, linkType) <==> LeadsTo(kv, obj, linkType, t))
      {
        TypeTargetsAre(kv, obj, linkType, t);
      }
      return TypeTargets(kv, obj, linkType);
    }
    var todo := OutLinks(kv, obj, linkType);
    targets := {};
    ghost var done: set<LinkId> := {};
    while todo != {}
      invariant done !! todo && done + todo == OutLinks(kv, obj, linkType)
      invariant forall t :: t in targets <==>
                  exists l :: l in done && HasLink(kv, l) && l.to == t && Matches(d, FactsOfBody(BodyOf(kv, l)))
    {
      var l :| l in todo;
      todo := todo - {l};
      OutLinksAre(kv, obj, linkType, l);
      TypedHas(kv, l);
      var indices := SpecificLinkIndices(kv, l);
      IndicesAreFacts(kv, l, indices);
      if l.to !in targets {
        var found := DisjunctFound(d, indices);
        if found {
          targets := targets + {l.to};
        }
      }
      done := done + {l};
    }
    forall t
      ensures t in targets <==> ScanFinds(kv, obj, linkType, d, t)
    {
      if ScanFinds(kv, obj, linkType, d, t) {
        var l :| HasLink(kv, l) && l.from == obj && (linkType == "*" || l.ltype == linkType) && l.to == t
                 && Matches(d, FactsOfBody(BodyOf(kv, l)));
        OutLinksAre(kv, obj, linkType, l);
        assert l in done;
      }
      if t in targets {
        var l :| l in done && HasLink(kv, l) && l.to == t && Matches(d, FactsOfBody(BodyOf(kv, l)));
        OutLinksAre(kv, obj, linkType, l);
      }
    }
  }
}
