/** Link filters: how the `&&` and `||` operators combine their operands, and what that means. */
module Filter {

  datatype Feature = Feature(name: string, value: string)

  /** A disjunction of conjunctions. */
  type Dnf = seq<seq<Feature>>

  datatype Expr =
    | Name(value: string)
    | Tags(values: seq<string>)
    | And(left: Expr, right: Expr)
    | Or(left: Expr, right: Expr)
  {
    /** `name('')` and `tags()` are evaluation errors. */
    predicate WellFormed() {
      match this
      case Name(v) => v != ""
      case Tags(vs) => vs != []
      case And(l, r) => l.WellFormed() && r.WellFormed()
      case Or(l, r) => l.WellFormed() && r.WellFormed()
    }

    /** The Boolean meaning on the features of a link. */
    predicate Holds(facts: set<Feature>) {
      match this
      case Name(v) => Feature("name", v) in facts
      case Tags(vs) => forall v <- vs :: Feature("tag", v) in facts
      case And(l, r) => l.Holds(facts) && r.Holds(facts)
      case Or(l, r) => l.Holds(facts) || r.Holds(facts)
    }
  }

  /** The calls of `name` and `tags` in a filter. */
  function Atoms(e: Expr): seq<Expr> {
    match e
    case And(l, r) => Atoms(l) + Atoms(r)
    case Or(l, r) => Atoms(l) + Atoms(r)
    case _ => [e]
  }

  /** A filter is in order exactly when none of its calls is an evaluation error, however they are combined. */
  lemma {:induction false} WellFormedIff(e: Expr)
    ensures e.WellFormed() <==> Name("") !in Atoms(e) && Tags([]) !in Atoms(e)
  {
    match e
    case Name(_) =>
    case Tags(_) =>
    case And(l, r) => WellFormedIff(l); WellFormedIff(r);
    case Or(l, r) => WellFormedIff(l); WellFormedIff(r);
  }

  function TagFeatures(vs: seq<string>): (fs: seq<Feature>)
    ensures |fs| == |vs| && forall k :: 0 <= k < |vs| ==> fs[k] == Feature("tag", vs[k])
  {
    seq(|vs|, k requires 0 <= k < |vs| => Feature("tag", vs[k]))
  }

  function Flatten(d: Dnf): seq<Feature> {
    if d == [] then [] else Flatten(d[..|d| - 1]) + d[|d| - 1]
  }

  /** `&&` as computed: every right disjunct is appended to each left one. */
  function AndDnf(a: Dnf, b: Dnf): (r: Dnf)
    ensures |r| == |a| && forall i :: 0 <= i < |a| ==> r[i] == a[i] + Flatten(b)
  {
    seq(|a|, i requires 0 <= i < |a| => a[i] + Flatten(b))
  }

  /** What the evaluation of a filter expression computes. */
  function Computed(e: Expr): Dnf {
    match e
    case Name(v) => [[Feature("name", v)]]
    case Tags(vs) => [TagFeatures(vs)]
    case And(l, r) => AndDnf(Computed(l), Computed(r))
    case Or(l, r) => Computed(l) + Computed(r)
  }

  predicate Conjunction(fs: seq<Feature>, facts: set<Feature>) {
    forall f <- fs :: f in facts
  }

  predicate Matches(d: Dnf, facts: set<Feature>) {
    exists c :: c in d && Conjunction(c, facts)
  }

  /** The filter object the operators extend in place. */
  class FilterData {
    var dnf: Dnf

    constructor (d: Dnf)
      ensures dnf == d
    {
      dnf := d;
    }

    method OrWith(b: FilterData)
      requires b != this
      modifies this
      ensures dnf == old(dnf) + b.dnf
    {
      dnf := dnf + b.dnf;
    }

    method AndWith(b: FilterData)
      requires b != this
      modifies this
      ensures dnf == AndDnf(old(dnf), b.dnf)
    {
      ghost var a := dnf;
      var k := 0;
      assert b.dnf[..0] == [];
      assert forall j :: 0 <= j < |a| ==> a[j] + [] == a[j];
      while k < |b.dnf|
        invariant k <= |b.dnf| && unchanged(b)
        invariant dnf == AndDnf(a, b.dnf[..k])
      {
        var i := 0;
        while i < |dnf|
          invariant i <= |dnf| == |a| && unchanged(b)
          invariant forall j :: 0 <= j < i ==> dnf[j] == a[j] + Flatten(b.dnf[..k]) + b.dnf[k]
          invariant forall j :: i <= j < |a| ==> dnf[j] == a[j] + Flatten(b.dnf[..k])
        {
          dnf := dnf[i := dnf[i] + b.dnf[k]];
          i := i + 1;
        }
        assert b.dnf[..k + 1][..k] == b.dnf[..k];
        forall j | 0 <= j < |a|
          ensures dnf[j] == a[j] + Flatten(b.dnf[..k + 1])
        {
          assert a[j] + Flatten(b.dnf[..k]) + b.dnf[k] == a[j] + (Flatten(b.dnf[..k]) + b.dnf[k]);
        }
        k := k + 1;
      }
      assert b.dnf[..k] == b.dnf;
    }
  }

  /** Evaluates a filter expression; null stands for an evaluation error. */
  method Evaluate(e: Expr) returns (r: FilterData?)
    ensures r != null <==> e.WellFormed()
    ensures r != null ==> fresh(r) && r.dnf == Computed(e)
  {
    match e
    case Name(v) =>
      if v == "" {
        r := null;
      } else {
        r := new FilterData([[Feature("name", v)]]);
      }
    case Tags(vs) =>
      if vs == [] {
        r := null;
      } else {
        r := new FilterData([TagFeatures(vs)]);
      }
    case And(left, right) =>
      r := Evaluate(left);
      var b := Evaluate(right);
      if r != null && b != null {
        r.AndWith(b);
      } else {
        r := null;
      }
    case Or(left, right) =>
      r := Evaluate(left);
      var b := Evaluate(right);
      if r != null && b != null {
        r.OrWith(b);
      } else {
        r := null;
      }
  }

  // ---------------------------------------------------------------- meaning

  lemma {:induction false} FlattenContains(d: Dnf)
    ensures forall f :: f in Flatten(d) <==> exists c :: c in d && f in c
  {
    if d != [] {
      var init, last := d[..|d| - 1], d[|d| - 1];
      FlattenContains(init);
      assert d == init + [last];
      forall f
        ensures f in Flatten(d) <==> exists c :: c in d && f in c
      {
        if f in last {
          assert last in d;
        }
        if c :| c in init && f in c {
          assert c in d;
        }
      }
    }
  }

  lemma {:induction false} ComputedNotEmpty(e: Expr)
    ensures Computed(e) != []
  {
    match e
    case Name(_) =>
    case Tags(_) =>
    case And(l, r) => ComputedNotEmpty(l);
    case Or(l, r) => ComputedNotEmpty(l);
  }

  /** The computed `&&` holds when one left disjunct and all right disjuncts hold. */
  lemma AndDnfMatches(a: Dnf, b: Dnf, facts: set<Feature>)
    ensures Matches(AndDnf(a, b), facts) <==> Matches(a, facts) && forall c <- b :: Conjunction(c, facts)
  {
    FlattenContains(b);
    if c :| c in AndDnf(a, b) && Conjunction(c, facts) {
      var i :| 0 <= i < |a| && AndDnf(a, b)[i] == c;
      forall f <- a[i]
        ensures f in facts
      {
        assert f in c;
      }
      assert a[i] in a && Conjunction(a[i], facts);
      forall d <- b
        ensures Conjunction(d, facts)
      {
        forall f <- d
          ensures f in facts
        {
          assert f in Flatten(b) && f in c;
        }
      }
    }
    if Matches(a, facts) && forall c <- b :: Conjunction(c, facts) {
      var c :| c in a && Conjunction(c, facts);
      var i :| 0 <= i < |a| && a[i] == c;
      var r := AndDnf(a, b)[i];
      forall f <- r
        ensures f in facts
      {
        assert f in a[i] || f in Flatten(b);
      }
      assert r in AndDnf(a, b) && Conjunction(r, facts);
    }
  }

  lemma OrMatches(a: Dnf, b: Dnf, facts: set<Feature>)
    ensures Matches(a + b, facts) <==> Matches(a, facts) || Matches(b, facts)
  {
    assert forall c :: c in a + b <==> c in a || c in b;
  }

  lemma AtomMatches(c: seq<Feature>, facts: set<Feature>)
    ensures Matches([c], facts) <==> Conjunction(c, facts)
  {
    assert c in [c];
  }

  lemma TagsMatch(vs: seq<string>, facts: set<Feature>)
    ensures Conjunction(TagFeatures(vs), facts) <==> Tags(vs).Holds(facts)
  {
    if Conjunction(TagFeatures(vs), facts) {
      forall v <- vs
        ensures Feature("tag", v) in facts
      {
        var k :| 0 <= k < |vs| && vs[k] == v;
        assert TagFeatures(vs)[k] in TagFeatures(vs);
      }
    }
  }

  /** Whatever the computed filter accepts satisfies the Boolean meaning of the expression. */
  lemma {:induction false} ComputedImpliesMeaning(e: Expr, facts: set<Feature>)
    requires Matches(Computed(e), facts)
    ensures e.Holds(facts)
  {
    match e
    case Name(v) => AtomMatches([Feature("name", v)], facts); assert Feature("name", v) in [Feature("name", v)];
    case Tags(vs) => AtomMatches(TagFeatures(vs), facts); TagsMatch(vs, facts);
    case And(l, r) =>
      AndDnfMatches(Computed(l), Computed(r), facts);
      ComputedImpliesMeaning(l, facts);
      ComputedNotEmpty(r);
      assert Computed(r)[0] in Computed(r);
      ComputedImpliesMeaning(r, facts);
    case Or(l, r) =>
      OrMatches(Computed(l), Computed(r), facts);
      if Matches(Computed(l), facts) {
        ComputedImpliesMeaning(l, facts);
      } else {
        ComputedImpliesMeaning(r, facts);
      }
  }

  /** Every right operand of `&&` came out as one conjunction. */
  predicate SingleRight(e: Expr) {
    match e
    case Name(_) => true
    case Tags(_) => true
    case And(l, r) => SingleRight(l) && SingleRight(r) && |Computed(r)| == 1
    case Or(l, r) => SingleRight(l) && SingleRight(r)
  }

  lemma {:induction false} SingleRightIsExact(e: Expr, facts: set<Feature>)
    requires SingleRight(e)
    ensures Matches(Computed(e), facts) <==> e.Holds(facts)
  {
    match e
    case Name(v) => AtomMatches([Feature("name", v)], facts); assert Feature("name", v) in [Feature("name", v)];
    case Tags(vs) => AtomMatches(TagFeatures(vs), facts); TagsMatch(vs, facts);
    case And(l, r) =>
      AndDnfMatches(Computed(l), Computed(r), facts);
      SingleRightIsExact(l, facts);
      SingleRightIsExact(r, facts);
      assert Computed(r) == [Computed(r)[0]];
      AtomMatches(Computed(r)[0], facts);
    case Or(l, r) =>
      OrMatches(Computed(l), Computed(r), facts);
      SingleRightIsExact(l, facts);
      SingleRightIsExact(r, facts);
  }

  // ---------------------------------------------------------------- filters without parentheses

  /** `a && b && c`, grouped from the left. */
  function Conjoined(atoms: seq<Expr>): Expr
    requires atoms != []
  {
    if |atoms| == 1 then atoms[0] else And(Conjoined(atoms[..|atoms| - 1]), atoms[|atoms| - 1])
  }

  /** `a && b || c && d || ...`, `&&` binding tighter, both grouped from the left. */
  function Unparenthesised(rows: seq<seq<Expr>>): Expr
    requires rows != [] && forall i :: 0 <= i < |rows| ==> rows[i] != []
  {
    if |rows| == 1 then Conjoined(rows[0])
    else Or(Unparenthesised(rows[..|rows| - 1]), Conjoined(rows[|rows| - 1]))
  }

  predicate IsAtom(e: Expr) {
    e.Name? || e.Tags?
  }

  lemma {:induction false} ConjoinedIsSingle(atoms: seq<Expr>)
    requires atoms != [] && forall a <- atoms :: IsAtom(a)
    ensures SingleRight(Conjoined(atoms))
  {
    if |atoms| > 1 {
      ConjoinedIsSingle(atoms[..|atoms| - 1]);
      assert IsAtom(atoms[|atoms| - 1]);
    } else {
      assert IsAtom(atoms[0]);
    }
  }

  /** Filters written without parentheses mean what they say. */
  lemma {:induction false} UnparenthesisedIsSingle(rows: seq<seq<Expr>>)
    requires rows != [] && forall i :: 0 <= i < |rows| ==> rows[i] != []
    requires forall i :: 0 <= i < |rows| ==> forall a <- rows[i] :: IsAtom(a)
    ensures SingleRight(Unparenthesised(rows))
  {
    if |rows| > 1 {
      UnparenthesisedIsSingle(rows[..|rows| - 1]);
    }
    ConjoinedIsSingle(rows[|rows| - 1]);
  }

  // ---------------------------------------------------------------- the distributed form

  function Distributed(e: Expr): Dnf {
    match e
    case Name(v) => [[Feature("name", v)]]
    case Tags(vs) => [TagFeatures(vs)]
    case And(l, r) => Product(Distributed(l), Distributed(r))
    case Or(l, r) => Distributed(l) + Distributed(r)
  }

  /** Each left conjunction with each right one. */
  function Product(a: Dnf, b: Dnf): Dnf {
    if b == [] then [] else Product(a, b[..|b| - 1]) + AndDnf(a, [b[|b| - 1]])
  }

  lemma {:induction false} ProductMatches(a: Dnf, b: Dnf, facts: set<Feature>)
    ensures Matches(Product(a, b), facts) <==> Matches(a, facts) && Matches(b, facts)
  {
    if b != [] {
      var init, last := b[..|b| - 1], b[|b| - 1];
      ProductMatches(a, init, facts);
      AndDnfMatches(a, [last], facts);
      OrMatches(Product(a, init), AndDnf(a, [last]), facts);
      OrMatches(init, [last], facts);
      AtomMatches(last, facts);
      assert b == init + [last];
      assert last in [last];
    }
  }

  lemma {:induction false} DistributedIsMeaning(e: Expr, facts: set<Feature>)
    ensures Matches(Distributed(e), facts) <==> e.Holds(facts)
  {
    match e
    case Name(v) => AtomMatches([Feature("name", v)], facts); assert Feature("name", v) in [Feature("name", v)];
    case Tags(vs) => AtomMatches(TagFeatures(vs), facts); TagsMatch(vs, facts);
    case And(l, r) =>
      ProductMatches(Distributed(l), Distributed(r), facts);
      DistributedIsMeaning(l, facts);
      DistributedIsMeaning(r, facts);
    case Or(l, r) =>
      OrMatches(Distributed(l), Distributed(r), facts);
      DistributedIsMeaning(l, facts);
      DistributedIsMeaning(r, facts);
  }

  predicate Includes(big: seq<Feature>, small: seq<Feature>) {
    forall f <- small :: f in big
  }

  /** The conjunction includes some conjunction of the form. */
  predicate CoveredBy(c: seq<Feature>, d: Dnf) {
    exists x :: x in d && Includes(c, x)
  }

  /** The computed filter and the meaning of the expression agree on a link with these features. */
  predicate Agree(e: Expr, facts: set<Feature>) {
    Matches(Computed(e), facts) <==> e.Holds(facts)
  }

  lemma CoveredMatches(c: seq<Feature>, d: Dnf, facts: set<Feature>)
    requires CoveredBy(c, d) && Conjunction(c, facts)
    ensures Matches(d, facts)
  {
    var x :| x in d && Includes(c, x);
    assert Conjunction(x, facts);
  }

  /** A parenthesised right operand with two disjuncts is not understood: the link named `a` with the tag `t`
      satisfies `name('a') && (tags('t') || tags('u'))` but the computed filter rejects it. */
  lemma ParenthesisedCounterexample()
    ensures var e := And(Name("a"), Or(Tags(["t"]), Tags(["u"])));
            var facts := {Feature("name", "a"), Feature("tag", "t")};
            e.Holds(facts) && !Matches(Computed(e), facts)
  {
    var e := And(Name("a"), Or(Tags(["t"]), Tags(["u"])));
    var facts := {Feature("name", "a"), Feature("tag", "t")};
    AndDnfMatches(Computed(e.left), Computed(e.right), facts);
    assert TagFeatures(["u"])[0] == Feature("tag", "u");
    assert Computed(e.right)[1] in Computed(e.right) && TagFeatures(["u"])[0] in Computed(e.right)[1];
  }
}
