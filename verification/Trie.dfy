/** The cache as a tree of nodes, without eviction, against a flat map from keys to values. */
module Trie {
  import opened Wrappers
  import opened CacheEntry
  import opened Paths
  import Tokens

  /** `path` stands for the node's parent and its key in it. */
  class Node {
    ghost const path: Path
    var entry: Entry
    var children: map<string, Node>

    constructor (ghost path: Path, e: Entry)
      ensures this.path == path && entry == e && children == map[]
    {
      this.path := path;
      entry, children := e, map[];
    }
  }

  /** What the key validation accepts: the empty key, a key without dots, or one with dots inside. */
  predicate ValidKey(key: string) {
    && (forall c <- key :: Tokens.IsTokenChar(c) || c == '.')
    && (key != "" ==> key[0] != '.' && key[|key| - 1] != '.')
  }

  /** An entry of the traversal's stack: a node, the key text that leads to it, how far below the start it is. */
  datatype Frame = Frame(node: Node, suffix: string, depth: nat) {
    function ChildPrefix(): string {
      if depth == 0 then suffix else suffix + "."
    }
  }

  ghost function PathsOf(stack: seq<Frame>): seq<Path> {
    seq(|stack|, k requires 0 <= k < |stack| => stack[k].node.path)
  }

  predicate Live(n: Node)
    reads n
  {
    n.entry.value.Some?
  }

  /** The keys of the live children of a node, behind `prefix`. */
  function LiveChildren(n: Node, prefix: string): set<string>
    reads n, n.children.Values
  {
    set t | t in n.children && Live(n.children[t]) :: prefix + t
  }

  class Store {
    const root: Node
    ghost var nodes: map<Path, Node>

    /** `nodes` holds every node under its path, and only once. */
    ghost predicate Valid()
      reads this, nodes.Values
    {
      && Root in nodes && nodes[Root] == root
      && (forall p <- nodes :: nodes[p].path == p && DotFree(p))
      && (forall p <- nodes :: Live(nodes[p]) ==> p.Under? && p.token != "")
      && (forall p, t :: Linked(p, t))
    }

    /** A node's children are the nodes one token further. */
    ghost predicate Linked(p: Path, t: string)
      reads this, nodes.Values
    {
      && (Under(p, t) in nodes <==> p in nodes && t in nodes[p].children)
      && (Under(p, t) in nodes ==> nodes[p].children[t] == nodes[Under(p, t)])
    }

    /** The live keys with their values. */
    ghost function Contents(): map<Path, Bytes>
      reads this, nodes.Values
    {
      map p | p in nodes && Live(nodes[p]) :: nodes[p].entry.value.value
    }

    constructor ()
      ensures Valid() && Contents() == map[] && fresh(nodes.Values)
    {
      root := new Node(Root, Entry(None, InUse, -1, false, true));
      new;
      nodes := map[Root := root];
    }

    /** Below a missing node there is none. */
    lemma {:induction false} NoneBelowMissing(ts: seq<string>, i: nat)
      requires Valid() && i <= |ts| && PathOf(ts[..i]) !in nodes
      ensures PathOf(ts) !in nodes
      decreases |ts| - i
    {
      if i == |ts| {
        assert ts[..i] == ts;
      } else {
        PathOfPrefix(ts, i);
        assert Linked(PathOf(ts[..i]), ts[i]);
        NoneBelowMissing(ts, i + 1);
      }
    }

    lemma MissingOnTheWay(key: string, i: nat)
      requires Valid() && i < |Tokens.Split(key)| && PathOf(Tokens.Split(key)[..i]) !in nodes
      ensures KeyPath(key).parent !in nodes
    {
      var tokens := Tokens.Split(key);
      var above := tokens[..|tokens| - 1];
      assert above[..i] == tokens[..i];
      NoneBelowMissing(above, i);
    }

    /** Links a new node below a present one. */
    method AddChild(ghost p: Path, parent: Node, token: string, child: Node)
      requires Valid() && p in nodes && nodes[p] == parent && '.' !in token && token !in parent.children
      requires child.path == Under(p, token) && child.children == map[] && (Live(child) ==> token != "")
      modifies this`nodes, parent`children
      ensures Valid() && nodes == old(nodes)[Under(p, token) := child]
    {
      parent.children := parent.children[token := child];
      nodes := nodes[Under(p, token) := child];
      assert old(Linked(p, token));
      forall q, t
        ensures Linked(q, t)
      {
        assert old(Linked(q, t));
      }
    }

    /** The child a token leads to, created if asked for. */
    method Descend(ghost p: Path, current: Node, token: string, create: bool, now: int) returns (child: Node?)
      requires Valid() && p in nodes && nodes[p] == current && '.' !in token
      modifies if create then {this, current} else {}
      ensures Valid() && fresh(nodes.Values - old(nodes.Values)) && Contents() == old(Contents())
      ensures current.entry == old(current.entry)
      ensures nodes == if Under(p, token) in old(nodes) || child == null then old(nodes) else old(nodes)[Under(p, token) := child]
      ensures child != null && Under(p, token) !in old(nodes) ==> child.entry == Entry(None, InUse, now, false, true)
      ensures child == null ==> !create && Under(p, token) !in nodes
      ensures child != null ==> Under(p, token) in nodes && nodes[Under(p, token)] == child
    {
      assert Linked(p, token);
      if token in current.children {
        child := current.children[token];
      } else if create {
        child := new Node(Under(p, token), Entry(None, InUse, now, false, true));
        AddChild(p, current, token, child);
        assert forall q <- old(nodes) :: nodes[q] == old(nodes[q]) && nodes[q].entry == old(nodes[q].entry);
        assert forall q <- nodes :: q in old(nodes) || !Live(nodes[q]);
      } else {
        child := null;
      }
    }

    /** The node above the key's last token, created with all before it if asked for. */
    method LastParent(key: string, create: bool, now: int) returns (last: string, parent: Node?)
      requires Valid()
      modifies if create then {this} + nodes.Values else {}
      ensures Valid() && fresh(nodes.Values - old(nodes.Values)) && Contents() == old(Contents())
      ensures forall q <- nodes.Keys - old(nodes.Keys) :: nodes[q].entry == Entry(None, InUse, now, false, true)
      ensures create ==> parent != null
      ensures parent != null ==> KeyPath(key).parent in nodes && parent == nodes[KeyPath(key).parent] && last == KeyPath(key).token
      ensures parent == null ==> last == "" && KeyPath(key).parent !in nodes
    {
      var tokens := Tokens.Split(key);
      SplitHasNoDot(key);
      var current := root;
      var i := 0;
      while i < |tokens| - 1
        invariant 0 <= i <= |tokens| - 1
        invariant Valid() && fresh(nodes.Values - old(nodes.Values)) && Contents() == old(Contents())
        invariant forall q <- nodes.Keys - old(nodes.Keys) :: nodes[q].entry == Entry(None, InUse, now, false, true)
        invariant PathOf(tokens[..i]) in nodes && nodes[PathOf(tokens[..i])] == current
      {
        PathOfPrefix(tokens, i);
        var child := Descend(PathOf(tokens[..i]), current, tokens[i], create, now);
        if child == null {
          MissingOnTheWay(key, i + 1);
          return "", null;
        }
        current := child;
        i := i + 1;
      }
      return tokens[i], current;
    }

    /** Gives a present node a new entry. */
    method Fill(ghost p: Path, node: Node, e: Entry)
      requires Valid() && p in nodes && nodes[p] == node && p.Under? && (e.value.Some? ==> p.token != "")
      modifies node`entry
      ensures Valid() && node.entry == e
      ensures Contents() == if e.value.Some? then old(Contents())[p := e.value.value] else old(Contents()) - {p}
    {
      node.entry := e;
      forall q, t
        ensures Linked(q, t)
      {
        assert old(Linked(q, t));
      }
    }

    /** Sets the value of a token in a node, present or not. */
    method Store(ghost p: Path, parent: Node, token: string, value: Bytes, updateInKv: bool, at: int)
      requires Valid() && p in nodes && nodes[p] == parent && '.' !in token && token != ""
      modifies this, nodes.Values
      ensures Valid() && fresh(nodes.Values - old(nodes.Values))
      ensures Contents() == old(Contents())[Under(p, token) := value]
      ensures Under(p, token) in nodes && nodes[Under(p, token)].entry == Filled(value, updateInKv, at)
    {
      assert Linked(p, token);
      if token in parent.children {
        Fill(Under(p, token), parent.children[token], Filled(value, updateInKv, at));
      } else {
        var child := new Node(Under(p, token), Filled(value, updateInKv, at));
        AddChild(p, parent, token, child);
      }
    }

    method SetValue(key: string, value: Bytes, updateInKv: bool, at: int, now: int) returns (ok: bool)
      requires Valid()
      modifies this, nodes.Values
      ensures Valid() && fresh(nodes.Values - old(nodes.Values))
      ensures ok <==> ValidKey(key)
      ensures Contents() == if ok && key != "" then old(Contents())[KeyPath(key) := value] else old(Contents())
      ensures ok && key != "" ==> KeyPath(key) in nodes && nodes[KeyPath(key)].entry == Filled(value, updateInKv, at)
    {
      if !ValidKey(key) {
        return false;
      }
      var last, parent := LastParent(key, true, now);
      LastTokenOf(key);
      if |last| > 0 && parent != null {
        Store(KeyPath(key).parent, parent, last, value, updateInKv, at);
      }
      return true;
    }

    method SetValueIfDoesNotExist(key: string, value: Bytes, updateInKv: bool, at: int, now: int) returns (ok: bool)
      requires Valid()
      modifies this, nodes.Values
      ensures Valid() && fresh(nodes.Values - old(nodes.Values))
      ensures ok <==> ValidKey(key) && key != "" && KeyPath(key) !in old(Contents())
      ensures Contents() == if ok then old(Contents())[KeyPath(key) := value] else old(Contents())
      ensures ok ==> KeyPath(key) in nodes && nodes[KeyPath(key)].entry == Filled(value, updateInKv, at)
    {
      if !ValidKey(key) {
        return false;
      }
      var last, parent := LastParent(key, true, now);
      LastTokenOf(key);
      ok := false;
      if |last| > 0 && parent != null {
        assert Linked(KeyPath(key).parent, last);
        if last !in parent.children || !Live(parent.children[last]) {
          Store(KeyPath(key).parent, parent, last, value, updateInKv, at);
          ok := true;
        }
      }
    }

    method DeleteValue(key: string, updateInKv: bool, at: int)
      requires Valid()
      modifies nodes.Values
      ensures Valid() && nodes == old(nodes)
      ensures Contents() == old(Contents()) - {KeyPath(key)}
      ensures KeyPath(key) in old(Contents()) ==>
        nodes[KeyPath(key)].entry == old(nodes[KeyPath(key)].entry).Delete(updateInKv, at)
    {
      var last, parent := LastParent(key, false, at);
      assert Linked(KeyPath(key).parent, KeyPath(key).token);
      if |last| > 0 && parent != null {
        if last in parent.children && Live(parent.children[last]) {
          var node := parent.children[last];
          Fill(KeyPath(key), node, node.entry.Delete(updateInKv, at));
        }
      }
    }

    /** The cached value; a key without a node is looked up in the key/value store, which this model leaves empty. */
    method GetValue(key: string) returns (value: Option<Bytes>)
      requires Valid()
      ensures value == if KeyPath(key) in Contents() then Some(Contents()[KeyPath(key)]) else None
    {
      var last, parent := LastParent(key, false, 0);
      assert Linked(KeyPath(key).parent, KeyPath(key).token);
      value := None;
      if |last| > 0 && parent != null {
        if last in parent.children {
          value := parent.children[last].entry.value;
        }
      }
    }

    /** The keys of the live nodes just below `popped`. */
    ghost function LiveBelow(popped: set<Path>): set<string>
      reads this, nodes.Values
    {
      set p | p in nodes && Live(nodes[p]) && p.Under? && p.parent in popped :: Render(p)
    }

    /** A frame of a node at or below `base` carries the text of its key. */
    ghost predicate FrameOk(base: Path, f: Frame)
      reads this
    {
      var p := f.node.path;
      && p in nodes && f.node == nodes[p] && AtOrBelow(base, p)
      && (f.depth == 0 <==> p == base)
      && f.suffix == if p == base then Prefix(base) else if p.Under? then Render(p) else ""
    }

    ghost predicate FramesOk(base: Path, stack: seq<Frame>)
      reads this
    {
      forall f <- stack :: FrameOk(base, f)
    }

    lemma FrameOfChild(base: Path, f: Frame, t: string)
      requires Valid() && FrameOk(base, f) && t in f.node.children
      ensures f.node.children[t].path == Under(f.node.path, t)
      ensures FrameOk(base, Frame(f.node.children[t], f.ChildPrefix() + t, f.depth + 1))
    {
      assert Linked(f.node.path, t);
      BelowIsDeeper(base, f.node.path);
      assert Depth(Under(f.node.path, t)) > Depth(base);
    }

    lemma LiveBelowGrows(base: Path, popped: set<Path>, f: Frame)
      requires Valid() && FrameOk(base, f)
      ensures LiveBelow(popped + {f.node.path}) == LiveBelow(popped) + LiveChildren(f.node, f.ChildPrefix())
    {
      var p := f.node.path;
      forall t | t in f.node.children
        ensures Under(p, t) in nodes && nodes[Under(p, t)] == f.node.children[t] && Render(Under(p, t)) == f.ChildPrefix() + t
      {
        assert Linked(p, t);
      }
      forall q | q in nodes && q.Under? && q.parent == p
        ensures q.token in f.node.children && f.node.children[q.token] == nodes[q]
      {
        assert Linked(p, q.token);
      }
    }

    /** Pushes the children of a node and collects the keys of the live ones. */
    method PushChildren(ghost base: Path, frame: Frame, stack: seq<Frame>, keys: set<string>)
      returns (pushed: seq<Frame>, found: set<string>, ghost order: seq<string>)
      requires Valid() && FrameOk(base, frame) && FramesOk(base, stack)
      ensures FramesOk(base, pushed) && PathsOf(pushed) == PathsOf(stack) + Children(frame.node.path, order)
      ensures Distinct(order) && forall t :: t in order <==> t in frame.node.children
      ensures found == keys + LiveChildren(frame.node, frame.ChildPrefix())
    {
      pushed, found, order := stack, keys, [];
      var rest := frame.node.children.Keys;
      while rest != {}
        invariant rest <= frame.node.children.Keys
        invariant FramesOk(base, pushed) && PathsOf(pushed) == PathsOf(stack) + Children(frame.node.path, order)
        invariant Distinct(order) && forall t :: t in order <==> t in frame.node.children && t !in rest
        invariant found == keys + set t | t in frame.node.children && t !in rest && Live(frame.node.children[t]) :: frame.ChildPrefix() + t
        decreases |rest|
      {
        var t :| t in rest;
        var child := frame.node.children[t];
        if Live(child) {
          found := found + {frame.ChildPrefix() + t};
        }
        FrameOfChild(base, frame, t);
        ChildrenSnoc(frame.node.path, order, t);
        PathsOfPush(pushed, Frame(child, frame.ChildPrefix() + t, frame.depth + 1));
        pushed := pushed + [Frame(child, frame.ChildPrefix() + t, frame.depth + 1)];
        order := order + [t];
        rest := rest - {t};
      }
    }

    lemma PathsClosed()
      requires Valid()
      ensures Closed(nodes.Keys)
    {
      forall p, t | Under(p, t) in nodes.Keys
        ensures p in nodes.Keys
      {
        assert Linked(p, t);
      }
    }

    lemma ChildPaths(p: Path)
      requires Valid() && p in nodes
      ensures forall t :: t in nodes[p].children <==> Under(p, t) in nodes.Keys
    {
      forall t
        ensures t in nodes[p].children <==> Under(p, t) in nodes.Keys
      {
        assert Linked(p, t);
      }
    }

    /** Where the traversal stands: the walk over the paths, the frames of those still to visit, the keys found. */
    ghost predicate Walking(base: Path, popped: set<Path>, stack: seq<Frame>, keys: set<string>)
      reads this, nodes.Values
    {
      Walk(nodes.Keys, base, popped, PathsOf(stack)) && FramesOk(base, stack) && keys == LiveBelow(popped)
    }

    /** Pops one node and pushes its children. */
    method VisitTop(ghost base: Path, ghost popped: set<Path>, stack: seq<Frame>, keys: set<string>)
      returns (left: seq<Frame>, found: set<string>)
      requires Valid() && stack != [] && Walking(base, popped, stack, keys)
      ensures Walking(base, popped + {stack[|stack| - 1].node.path}, left, found)
      ensures stack[|stack| - 1].node.path in nodes.Keys - popped
    {
      var frame := stack[|stack| - 1];
      ghost var paths := PathsOf(stack);
      assert PathsOf(stack[..|stack| - 1]) == paths[..|stack| - 1];
      LiveBelowGrows(base, popped, frame);
      ChildPaths(frame.node.path);
      ghost var order;
      left, found, order := PushChildren(base, frame, stack[..|stack| - 1], keys);
      WalkStep(nodes.Keys, base, popped, paths, order);
    }

    /** The traversal for a pattern that ends in '>': an explicit stack of nodes, popped from its end. */
    method KeysBelow(ghost base: Path, start: Node, prefix: string) returns (keys: set<string>)
      requires Valid() && base in nodes && nodes[base] == start && prefix == Prefix(base)
      ensures forall k :: k in keys <==> KeyPath(k) in Contents() && Below(base, KeyPath(k))
    {
      var stack := [Frame(start, prefix, 0)];
      ghost var popped: set<Path> := {};
      keys := {};
      assert PathsOf(stack) == [base];
      WalkStart(nodes.Keys, base);
      while stack != []
        invariant Walking(base, popped, stack, keys)
        decreases nodes.Keys - popped
      {
        ghost var top := stack[|stack| - 1].node.path;
        stack, keys := VisitTop(base, popped, stack, keys);
        popped := popped + {top};
      }
      AllLiveBelow(base, popped);
    }

    /** A finished walk has found the live keys below its base. */
    lemma AllLiveBelow(base: Path, popped: set<Path>)
      requires Valid() && Walk(nodes.Keys, base, popped, [])
      ensures forall k :: k in LiveBelow(popped) <==> KeyPath(k) in Contents() && Below(base, KeyPath(k))
    {
      PathsClosed();
      forall k
        ensures k in LiveBelow(popped) <==> KeyPath(k) in Contents() && Below(base, KeyPath(k))
      {
        KeyAndPath(k);
        if KeyPath(k) in Contents() && Below(base, KeyPath(k)) {
          assert Under(KeyPath(k).parent, KeyPath(k).token) in nodes.Keys;
          WalkedAll(nodes.Keys, base, popped, KeyPath(k).parent);
        }
        if k in LiveBelow(popped) {
          var p :| p in nodes && Live(nodes[p]) && p.Under? && p.parent in popped && Render(p) == k;
          PathAndKey(p);
        }
      }
    }

    /** A pattern that ends in '*' asks for one level, in '>' for all below; any other asks whether its node is there,
        live or not. */
    method GetKeysByPattern(pattern: string) returns (keys: set<string>)
      requires Valid()
      ensures KeyPath(pattern).token == "*" ==>
        forall k :: k in keys <==> KeyPath(k) in Contents() && KeyPath(k).parent == KeyPath(pattern).parent
      ensures KeyPath(pattern).token == ">" ==>
        forall k :: k in keys <==> KeyPath(k) in Contents() && Below(KeyPath(pattern).parent, KeyPath(k))
      ensures KeyPath(pattern).token !in {"*", ">"} ==>
        keys == if KeyPath(pattern) in nodes && KeyPath(pattern).token != "" then {pattern} else {}
    {
      var last, parent := LastParent(pattern, false, 0);
      keys := {};
      if |last| > 0 && parent != null {
        ghost var base := KeyPath(pattern).parent;
        KeyAndPath(pattern);
        var prefix := pattern[..|pattern| - 1];
        if last == "*" {
          assert prefix == Prefix(base);
          keys := LiveChildren(parent, prefix);
          OneLevel(base, parent);
        } else if last == ">" {
          assert prefix == Prefix(base);
          keys := KeysBelow(base, parent, prefix);
        } else {
          assert Linked(base, last);
          if last in parent.children {
            keys := {pattern};
          }
        }
      } else {
        ghost var base := KeyPath(pattern).parent;
        assert forall t :: Linked(base, t);
        forall k | KeyPath(k) in nodes && Below(base, KeyPath(k))
          ensures base in nodes
        {
          assert Linked(KeyPath(k).parent, KeyPath(k).token);
          AboveIsPresent(base, KeyPath(k).parent);
        }
      }
    }

    lemma {:induction false} AboveIsPresent(base: Path, p: Path)
      requires Valid() && p in nodes && AtOrBelow(base, p)
      ensures base in nodes
    {
      if p != base {
        assert Linked(p.parent, p.token);
        AboveIsPresent(base, p.parent);
      }
    }

    lemma OneLevel(base: Path, n: Node)
      requires Valid() && base in nodes && nodes[base] == n
      ensures forall k :: k in LiveChildren(n, Prefix(base)) <==> KeyPath(k) in Contents() && KeyPath(k).parent == base
    {
      forall k
        ensures k in LiveChildren(n, Prefix(base)) <==> KeyPath(k) in Contents() && KeyPath(k).parent == base
      {
        KeyAndPath(k);
        assert Linked(base, KeyPath(k).token);
        if k in LiveChildren(n, Prefix(base)) {
          var t :| t in n.children && Live(n.children[t]) && Prefix(base) + t == k;
          assert Linked(base, t);
          assert Render(Under(base, t)) == k;
          PathAndKey(Under(base, t));
        }
      }
    }
  }

  lemma PathsOfPush(stack: seq<Frame>, f: Frame)
    ensures PathsOf(stack + [f]) == PathsOf(stack) + [f.node.path]
  {
  }

  /** Of the valid keys, only the empty one ends in an empty token. */
  lemma LastTokenOf(key: string)
    ensures '.' !in KeyPath(key).token && DotFree(KeyPath(key).parent)
    ensures ValidKey(key) ==> (KeyPath(key).token == "" <==> key == "")
  {
    KeyAndPath(key);
    var p := KeyPath(key);
    assert key == (if p.parent.Root? then "" else Render(p.parent) + ".") + p.token;
  }
}
