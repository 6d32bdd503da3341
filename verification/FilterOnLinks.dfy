/** When a computed filter means what its expression says on the links that the graph can hold. */
module FilterOnLinks {
  import opened Wrappers
  import opened Tokens
  import opened GraphStore
  import opened Filter
  import opened LinkMatch

  predicate LinkFeature(f: Feature) {
    (f.name == "name" || f.name == "tag") && ValidToken(f.value)
  }

  /** Some link may have all these features: they are features of links, and at most one name is among them. */
  predicate Possible(c: seq<Feature>) {
    && (forall f <- c :: LinkFeature(f))
    && (forall f <- c, g <- c :: f.name == "name" == g.name ==> f == g)
  }

  /** Each conjunction of the distributed form that a link may satisfy includes some computed conjunction: a finite
      check on the expression. */
  predicate Exact(e: Expr) {
    forall c <- Distributed(e) :: Possible(c) ==> CoveredBy(c, Computed(e))
  }

  // ---------------------------------------------------------------- a link for a conjunction

  function TagsOf(c: seq<Feature>): (ts: seq<Token>)
    requires forall f <- c :: LinkFeature(f)
    ensures forall t :: t in ts <==> Feature("tag", t) in c
  {
    if c == [] then [] else
      var f := c[|c| - 1];
      assert c == c[..|c| - 1] + [f];
      assert f in c && LinkFeature(f);
      var tag: Token := f.value;
      if f.name == "tag" then TagsOf(c[..|c| - 1]) + [tag] else TagsOf(c[..|c| - 1])
  }

  function TotalLength(c: seq<Feature>): (n: nat)
    ensures forall f <- c :: |f.value| <= n
  {
    if c == [] then 0 else
      assert c == c[..|c| - 1] + [c[|c| - 1]];
      TotalLength(c[..|c| - 1]) + |c[|c| - 1].value|
  }

  /** A name that no feature of the filter has. */
  function FreshName(d: Dnf): (name: LinkName)
    ensures name != "" && Feature("name", name) !in Flatten(d)
  {
    seq(TotalLength(Flatten(d)) + 1, _ => 'a')
  }

  /** A link body with exactly these features, and a name of its own if they hold none. */
  ghost function LinkFor(c: seq<Feature>, spare: LinkName): (b: Body)
    requires Possible(c) && spare != ""
    ensures b.Named()
  {
    if exists f <- c :: f.name == "name" then
      var f :| f in c && f.name == "name";
      Body(Some(f.value), TagsOf(c), "")
    else Body(Some(spare), TagsOf(c), "")
  }

  lemma FactsOfLinkFor(c: seq<Feature>, spare: LinkName, f: Feature)
    requires Possible(c) && spare != ""
    ensures f in c ==> f in FactsOfBody(LinkFor(c, spare))
    ensures f in FactsOfBody(LinkFor(c, spare)) ==> f in c || f == Feature("name", spare)
  {
  }

  // ---------------------------------------------------------------- the condition

  lemma FactsAreLinkFeatures(b: Body)
    requires b.Named()
    ensures forall f <- FactsOfBody(b) :: LinkFeature(f)
    ensures forall f <- FactsOfBody(b), g <- FactsOfBody(b) :: f.name == "name" == g.name ==> f == g
  {
  }

  lemma ExactSuffices(e: Expr, b: Body)
    requires Exact(e) && b.Named()
    ensures Agree(e, FactsOfBody(b))
  {
    var facts := FactsOfBody(b);
    DistributedIsMeaning(e, facts);
    if e.Holds(facts) {
      var c :| c in Distributed(e) && Conjunction(c, facts);
      FactsAreLinkFeatures(b);
      CoveredMatches(c, Computed(e), facts);
    }
    if Matches(Computed(e), facts) {
      ComputedImpliesMeaning(e, facts);
    }
  }

  lemma ExactIsNeeded(e: Expr, c: seq<Feature>)
    requires c in Distributed(e) && Possible(c)
    requires Agree(e, FactsOfBody(LinkFor(c, FreshName(Computed(e)))))
    ensures CoveredBy(c, Computed(e))
  {
    var spare := FreshName(Computed(e));
    var facts := FactsOfBody(LinkFor(c, spare));
    forall f
      ensures f in c ==> f in facts
      ensures f in facts ==> f in c || f == Feature("name", spare)
    {
      FactsOfLinkFor(c, spare, f);
    }
    DistributedIsMeaning(e, facts);
    assert Conjunction(c, facts);
    var d :| d in Computed(e) && Conjunction(d, facts);
    FlattenContains(Computed(e));
    assert Includes(c, d);
  }

  /** The computed filter means what the expression says on every link a store can hold exactly under that check. */
  lemma ExactIffMeaning(e: Expr)
    ensures Exact(e) <==> forall b: Body | b.Named() :: Agree(e, FactsOfBody(b))
  {
    if Exact(e) {
      forall b: Body | b.Named()
        ensures Agree(e, FactsOfBody(b))
      {
        ExactSuffices(e, b);
      }
    } else {
      var c :| c in Distributed(e) && Possible(c) && !CoveredBy(c, Computed(e));
      if Agree(e, FactsOfBody(LinkFor(c, FreshName(Computed(e))))) {
        ExactIsNeeded(e, c);
      }
    }
  }
}
