/** Keys as paths in the cache's trie, and the order-free part of its traversals. */
module Paths {
  import Tokens

  datatype Path = Root | Under(parent: Path, token: string)

  predicate DotFree(p: Path) {
    p.Under? ==> '.' !in p.token && DotFree(p.parent)
  }

  function PathOf(ts: seq<string>): Path {
    if ts == [] then Root else Under(PathOf(ts[..|ts| - 1]), ts[|ts| - 1])
  }

  /** The path of a key: its parts between the dots. */
  function KeyPath(key: string): (p: Path)
    ensures p.Under?
  {
    PathOf(Tokens.Split(key))
  }

  /** What a traversal writes before the next token. */
  function Prefix(p: Path): string {
    if p.Root? then "" else Render(p) + "."
  }

  function Render(p: Path): string
    requires p.Under?
  {
    (if p.parent.Root? then "" else Render(p.parent) + ".") + p.token
  }

  lemma PathOfPrefix(ts: seq<string>, i: nat)
    requires i < |ts|
    ensures PathOf(ts[..i + 1]) == Under(PathOf(ts[..i]), ts[i])
  {
    assert ts[..i + 1][..i] == ts[..i];
  }

  lemma {:induction false} SplitHasNoDot(s: string)
    ensures forall k :: 0 <= k < |Tokens.Split(s)| ==> '.' !in Tokens.Split(s)[k]
    decreases |s|
  {
    var i := Tokens.FirstDot(s);
    if i < |s| {
      SplitHasNoDot(s[i + 1..]);
    }
  }

  lemma {:induction false} JoinSplit(s: string)
    ensures Tokens.Join(Tokens.Split(s)) == s
    decreases |s|
  {
    var i := Tokens.FirstDot(s);
    if i < |s| {
      JoinSplit(s[i + 1..]);
      assert s == s[..i] + "." + s[i + 1..];
    }
  }

  lemma {:induction false} JoinSnoc(ts: seq<string>, t: string)
    ensures Tokens.Join(ts + [t]) == if ts == [] then t else Tokens.Join(ts) + "." + t
  {
    if ts == [] {
      assert ts + [t] == [t];
    } else {
      assert (ts + [t])[1..] == ts[1..] + [t];
      JoinSnoc(ts[1..], t);
    }
  }

  lemma {:induction false} RenderPathOf(ts: seq<string>)
    requires ts != []
    ensures Render(PathOf(ts)) == Tokens.Join(ts)
    decreases |ts|
  {
    var init := ts[..|ts| - 1];
    assert ts == init + [ts[|ts| - 1]];
    JoinSnoc(init, ts[|ts| - 1]);
    if init != [] {
      RenderPathOf(init);
    }
  }

  lemma {:induction false} PathOfDotFree(ts: seq<string>)
    requires forall k :: 0 <= k < |ts| ==> '.' !in ts[k]
    ensures DotFree(PathOf(ts))
    decreases |ts|
  {
    if ts != [] {
      PathOfDotFree(ts[..|ts| - 1]);
    }
  }

  function TokensOf(p: Path): seq<string> {
    if p.Root? then [] else TokensOf(p.parent) + [p.token]
  }

  lemma {:induction false} TokensOfDotFree(p: Path)
    requires DotFree(p)
    ensures forall k :: 0 <= k < |TokensOf(p)| ==> '.' !in TokensOf(p)[k]
    ensures PathOf(TokensOf(p)) == p
  {
    if p.Under? {
      TokensOfDotFree(p.parent);
      assert TokensOf(p)[..|TokensOf(p)| - 1] == TokensOf(p.parent);
    }
  }

  /** A key and its path determine each other. */
  lemma KeyAndPath(key: string)
    ensures DotFree(KeyPath(key)) && Render(KeyPath(key)) == key
  {
    SplitHasNoDot(key);
    PathOfDotFree(Tokens.Split(key));
    RenderPathOf(Tokens.Split(key));
    JoinSplit(key);
  }

  lemma PathAndKey(p: Path)
    requires p.Under? && DotFree(p)
    ensures KeyPath(Render(p)) == p
  {
    TokensOfDotFree(p);
    RenderPathOf(TokensOf(p));
    Tokens.SplitJoin(TokensOf(p));
  }

  // ---------------------------------------------------------------- below a path

  predicate AtOrBelow(base: Path, p: Path) {
    p == base || (p.Under? && AtOrBelow(base, p.parent))
  }

  predicate Below(base: Path, p: Path) {
    p.Under? && AtOrBelow(base, p.parent)
  }

  function Depth(p: Path): nat {
    if p.Root? then 0 else 1 + Depth(p.parent)
  }

  lemma {:induction false} BelowIsDeeper(base: Path, p: Path)
    requires AtOrBelow(base, p)
    ensures Depth(base) <= Depth(p)
  {
    if p != base {
      BelowIsDeeper(base, p.parent);
    }
  }

  // ---------------------------------------------------------------- walking the paths at or below one

  ghost predicate Closed(domain: set<Path>) {
    forall p, t :: Under(p, t) in domain ==> p in domain
  }

  ghost predicate Distinct<T>(s: seq<T>) {
    forall i, j :: 0 <= i < j < |s| ==> s[i] != s[j]
  }

  /** `popped` were taken from the stack. */
  ghost predicate Taken(domain: set<Path>, base: Path, popped: set<Path>) {
    popped <= domain && forall p <- popped :: AtOrBelow(base, p)
  }

  /** `stack` are still on it. */
  ghost predicate Waiting(domain: set<Path>, base: Path, popped: set<Path>, stack: seq<Path>) {
    && (forall k :: 0 <= k < |stack| ==> stack[k] in domain && stack[k] !in popped && AtOrBelow(base, stack[k]))
    && Distinct(stack)
  }

  /** The children of what was taken, and the base itself, were pushed. */
  ghost predicate Covered(domain: set<Path>, base: Path, popped: set<Path>, stack: seq<Path>) {
    && (base in popped || base in stack)
    && (forall p, t :: Under(p, t) in domain && p in popped ==> Under(p, t) in popped || Under(p, t) in stack)
  }

  /** Nothing else was. */
  ghost predicate Grounded(base: Path, popped: set<Path>, stack: seq<Path>) {
    && (forall p, t :: Under(p, t) in popped && Under(p, t) != base ==> p in popped)
    && (forall p, t :: Under(p, t) in stack && Under(p, t) != base ==> p in popped)
  }

  ghost predicate Walk(domain: set<Path>, base: Path, popped: set<Path>, stack: seq<Path>) {
    Taken(domain, base, popped) && Waiting(domain, base, popped, stack)
    && Covered(domain, base, popped, stack) && Grounded(base, popped, stack)
  }

  ghost function Children(p: Path, order: seq<string>): seq<Path> {
    seq(|order|, k requires 0 <= k < |order| => Under(p, order[k]))
  }

  lemma ChildrenSnoc(p: Path, order: seq<string>, t: string)
    ensures Children(p, order + [t]) == Children(p, order) + [Under(p, t)]
  {
  }

  /** The stack after its top was taken and the children in `order` were pushed. */
  ghost function Advanced(stack: seq<Path>, order: seq<string>): seq<Path>
    requires stack != []
  {
    stack[..|stack| - 1] + Children(stack[|stack| - 1], order)
  }

  lemma AdvancedMembers(stack: seq<Path>, order: seq<string>, q: Path)
    requires stack != []
    ensures q in Advanced(stack, order) <==>
      q in stack[..|stack| - 1] || (q.Under? && q.parent == stack[|stack| - 1] && q.token in order)
  {
    var next := Advanced(stack, order);
    var n := |stack| - 1;
    if q.Under? && q.parent == stack[n] && q.token in order {
      var k :| 0 <= k < |order| && order[k] == q.token;
      assert next[n + k] == q;
    }
    if q in stack[..n] {
      var k :| 0 <= k < n && stack[k] == q;
      assert next[k] == q;
    }
  }

  lemma WalkStart(domain: set<Path>, base: Path)
    requires base in domain
    ensures Walk(domain, base, {}, [base])
  {
  }

  /** A child of the top of the stack was never pushed before. */
  lemma ChildIsNew(base: Path, popped: set<Path>, stack: seq<Path>, t: string)
    requires stack != [] && stack[|stack| - 1] !in popped && AtOrBelow(base, stack[|stack| - 1])
    requires Grounded(base, popped, stack)
    ensures var child := Under(stack[|stack| - 1], t); child !in popped && child !in stack && child != stack[|stack| - 1]
  {
    var top := stack[|stack| - 1];
    BelowIsDeeper(base, top);
    assert Depth(Under(top, t)) > Depth(base);
  }

  lemma WaitingStep(domain: set<Path>, base: Path, popped: set<Path>, stack: seq<Path>, order: seq<string>)
    requires Waiting(domain, base, popped, stack) && Grounded(base, popped, stack) && stack != [] && Distinct(order)
    requires forall t <- order :: Under(stack[|stack| - 1], t) in domain
    ensures Waiting(domain, base, popped + {stack[|stack| - 1]}, Advanced(stack, order))
  {
    var n := |stack| - 1;
    var next := Advanced(stack, order);
    forall k | n <= k < |next|
      ensures next[k] == Under(stack[n], order[k - n]) && next[k] in domain && next[k] !in popped && next[k] !in stack
    {
      assert order[k - n] in order;
      ChildIsNew(base, popped, stack, order[k - n]);
    }
    forall k | 0 <= k < n
      ensures next[k] == stack[k] && next[k] in stack
    {
    }
  }

  lemma GroundedStep(base: Path, popped: set<Path>, stack: seq<Path>, order: seq<string>)
    requires Grounded(base, popped, stack) && stack != []
    ensures Grounded(base, popped + {stack[|stack| - 1]}, Advanced(stack, order))
  {
    var top := stack[|stack| - 1];
    assert top in stack;
    forall p, t | Under(p, t) in Advanced(stack, order) && Under(p, t) != base
      ensures p in popped + {top}
    {
      AdvancedMembers(stack, order, Under(p, t));
      if p != top {
        assert Under(p, t) in stack;
      }
    }
  }

  lemma CoveredStep(domain: set<Path>, base: Path, popped: set<Path>, stack: seq<Path>, order: seq<string>)
    requires Covered(domain, base, popped, stack) && stack != []
    requires forall t :: Under(stack[|stack| - 1], t) in domain ==> t in order
    ensures Covered(domain, base, popped + {stack[|stack| - 1]}, Advanced(stack, order))
  {
    var n := |stack| - 1;
    var next := Advanced(stack, order);
    forall q | q in stack && q != stack[n]
      ensures q in next
    {
      var k :| 0 <= k < |stack| && stack[k] == q;
      assert next[k] == q;
    }
    forall p, t | Under(p, t) in domain && p in popped + {stack[n]}
      ensures Under(p, t) in popped + {stack[n]} || Under(p, t) in next
    {
      AdvancedMembers(stack, order, Under(p, t));
    }
  }

  lemma WalkStep(domain: set<Path>, base: Path, popped: set<Path>, stack: seq<Path>, order: seq<string>)
    requires Walk(domain, base, popped, stack) && stack != [] && Distinct(order)
    requires forall t :: t in order <==> Under(stack[|stack| - 1], t) in domain
    ensures Walk(domain, base, popped + {stack[|stack| - 1]}, Advanced(stack, order))
  {
    WaitingStep(domain, base, popped, stack, order);
    GroundedStep(base, popped, stack, order);
    CoveredStep(domain, base, popped, stack, order);
  }

  /** When the stack is empty, everything at or below `base` was taken. */
  lemma {:induction false} WalkedAll(domain: set<Path>, base: Path, popped: set<Path>, p: Path)
    requires Walk(domain, base, popped, []) && Closed(domain) && p in domain && AtOrBelow(base, p)
    ensures p in popped
  {
    if p != base {
      assert Under(p.parent, p.token) in domain;
      WalkedAll(domain, base, popped, p.parent);
    }
  }
}
