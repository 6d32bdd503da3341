/** Each kind of delivery keeps the invariant of the call-tree protocol. */
module CtraSteps {
  import opened PairGraph
  import opened Ctra
  import opened CtraInvariant

  /** `t` plus an answer to `caller` owes `caller` one more. */
  lemma AnsweredCounts(t: Net, caller: Caller, result: set<string>, c: Caller)
    ensures Balance(t.Answered(caller, result), c) == Balance(t, c) + (if c == caller then 1 else 0)
  {
    if caller.Aggregator? {
      OwnersReply(t.msgs, caller.pair, result);
    }
  }

  lemma TakenCounts(s: Net, i: nat, c: Caller)
    requires i < |s.msgs|
    ensures Balance(s, c) == Balance(s.Taken(i), c) + (if s.msgs[i].Owner() == c then 1 else 0)
  {
    OwnersTaken(s, i);
  }

  lemma AnsweredIsOk(g: System, t: Net, caller: Caller, result: set<string>)
    requires forall m <- t.msgs :: MsgOk(g, t, m)
    requires forall w <- t.written :: w <= g.Answer()
    requires Live(t.aggs, caller)
    requires result <= g.Answer()
    ensures var s := t.Answered(caller, result);
            && (forall m <- s.msgs :: MsgOk(g, s, m))
            && (forall w <- s.written :: w <= g.Answer())
  {
    var s := t.Answered(caller, result);
    forall m <- s.msgs
      ensures MsgOk(g, s, m)
    {
      if m in t.msgs {
        assert MsgOk(g, t, m);
      }
    }
  }

  lemma AggKept(g: System, s: Net, s': Net, p: Pair)
    requires p in s.aggs && AggOk(g, s, p)
    requires p in s'.aggs && s'.aggs[p] == s.aggs[p]
    requires Live(s'.aggs, s.aggs[p].caller)
    requires Outstanding(s', Aggregator(p)) == Outstanding(s, Aggregator(p))
    ensures AggOk(g, s', p)
  {
  }

  // ---------------------------------------------------------------- a call answered at once

  /** A duplicate call always has an aggregation to answer to. */
  lemma DuplicateHasCaller(g: System, s: Net, h: History, i: nat)
    requires Counted(g, s) && Treed(s.aggs, h.chain)
    requires i < |s.msgs| && s.msgs[i].Call? && s.msgs[i].to in s.aggs
    ensures s.msgs[i].caller.Aggregator?
  {
    OwnerCounts(s.msgs, s.msgs[i]);
    TreeHasRoot(g, s, h, s.msgs[i].to);
  }

  lemma CallAnsweredCounts(s: Net, i: nat, result: set<string>, c: Caller)
    requires i < |s.msgs| && s.msgs[i].Call?
    ensures Balance(s.Taken(i).Answered(s.msgs[i].caller, result), c) == Balance(s, c)
  {
    TakenCounts(s, i, c);
    AnsweredCounts(s.Taken(i), s.msgs[i].caller, result, c);
  }

  lemma CallAnsweredKeepsCounted(g: System, s: Net, i: nat, result: set<string>)
    requires Counted(g, s) && i < |s.msgs| && s.msgs[i].Call? && result <= g.Answer()
    ensures Counted(g, s.Taken(i).Answered(s.msgs[i].caller, result))
  {
    var t, caller := s.Taken(i), s.msgs[i].caller;
    var s' := t.Answered(caller, result);
    OwnersTaken(s, i);
    assert MsgOk(g, s, s.msgs[i]);
    CallAnsweredCounts(s, i, result, Process);
    forall m <- t.msgs
      ensures MsgOk(g, t, m)
    {
      assert MsgOk(g, s, m);
    }
    AnsweredIsOk(g, t, caller, result);
    forall p <- s'.aggs
      ensures AggOk(g, s', p)
    {
      CallAnsweredCounts(s, i, result, Aggregator(p));
      AggKept(g, s, s', p);
    }
  }

  // ---------------------------------------------------------------- a call that spreads

  ghost predicate Spreads(g: System, s: Net, i: nat, order: seq<Pair>, s': Net) {
    && i < |s.msgs| && s.msgs[i].Call?
    && var to := s.msgs[i].to;
       && to !in s.aggs && to in g.expand && order != [] && Enumerates(order, g.Calls(to))
       && s' == OnCall(g, s.Taken(i), to, s.msgs[i].caller, order)
  }

  lemma SpreadCounts(g: System, s: Net, i: nat, order: seq<Pair>, s': Net, c: Caller)
    requires Spreads(g, s, i, order, s')
    ensures Balance(s', c) == Balance(s, c) + (if c == Aggregator(s.msgs[i].to) then |order| else 0)
  {
    var t, to, caller := s.Taken(i), s.msgs[i].to, s.msgs[i].caller;
    TakenCounts(s, i, c);
    OwnersAdded(t.msgs, CallsTo(order, to));
    OwnersOfCalls(order, to, c);
    ChildrenAdded(s.aggs, to, Aggregation(g.Found(to), |order|, caller), c);
  }

  lemma SpreadKeepsCounted(g: System, s: Net, i: nat, order: seq<Pair>, s': Net)
    requires g.Valid() && Counted(g, s) && Spreads(g, s, i, order, s')
    ensures Counted(g, s')
  {
    var t, to, caller := s.Taken(i), s.msgs[i].to, s.msgs[i].caller;
    OwnersTaken(s, i);
    assert MsgOk(g, s, s.msgs[i]);
    UnregisteredOwesNothing(g, s, to);
    SpreadCounts(g, s, i, order, s', Process);
    forall p <- s'.aggs
      ensures AggOk(g, s', p)
    {
      SpreadCounts(g, s, i, order, s', Aggregator(p));
      if p != to {
        AggKept(g, s, s', p);
      }
    }
    forall m <- s'.msgs
      ensures MsgOk(g, s', m)
    {
      if m in t.msgs {
        assert MsgOk(g, s, m);
      } else {
        assert m in CallsTo(order, to);
        assert m.to in g.Calls(to);
        g.CallReachable(to, m.to);
      }
    }
  }

  // ---------------------------------------------------------------- a reply

  ghost predicate Collects(s: Net, i: nat, s': Net) {
    && i < |s.msgs| && s.msgs[i].Reply?
    && var to := s.msgs[i].to;
       && to in s.aggs && s.aggs[to].callbacks > 1
       && s' == OnReply(s.Taken(i), to, s.msgs[i].result)
  }

  ghost predicate Releases(s: Net, i: nat, s': Net) {
    && i < |s.msgs| && s.msgs[i].Reply?
    && var to := s.msgs[i].to;
       && to in s.aggs && s.aggs[to].callbacks == 1
       && s' == OnReply(s.Taken(i), to, s.msgs[i].result)
  }

  lemma CollectCounts(s: Net, i: nat, s': Net, c: Caller)
    requires Collects(s, i, s')
    ensures Balance(s', c) == Balance(s, c) - (if c == Aggregator(s.msgs[i].to) then 1 else 0)
  {
    TakenCounts(s, i, c);
    ChildrenKept(s.aggs, s.msgs[i].to, s'.aggs[s.msgs[i].to], c);
  }

  lemma CollectKeepsCounted(g: System, s: Net, i: nat, s': Net)
    requires Counted(g, s) && Collects(s, i, s')
    ensures Counted(g, s')
  {
    var t, to := s.Taken(i), s.msgs[i].to;
    OwnersTaken(s, i);
    assert MsgOk(g, s, s.msgs[i]);
    CollectCounts(s, i, s', Process);
    forall p <- s'.aggs
      ensures AggOk(g, s', p)
    {
      assert AggOk(g, s, p);
      CollectCounts(s, i, s', Aggregator(p));
    }
    forall m <- s'.msgs
      ensures MsgOk(g, s', m)
    {
      assert MsgOk(g, s, m);
    }
  }

  lemma ReleaseCounts(s: Net, i: nat, s': Net, c: Caller)
    requires Releases(s, i, s')
    ensures Balance(s', c) == Balance(s, c) - (if c == Aggregator(s.msgs[i].to) then 1 else 0)
  {
    var t, to := s.Taken(i), s.msgs[i].to;
    var caller := s.aggs[to].caller;
    var t' := t.(aggs := t.aggs - {to});
    TakenCounts(s, i, c);
    ChildrenRemoved(t.aggs, to, c);
    AnsweredCounts(t', caller, s.aggs[to].result + s.msgs[i].result, c);
  }

  /** After its release nothing in the network or in a context refers to the aggregation any more. */
  lemma ReleaseLeavesNothing(g: System, s: Net, i: nat, s': Net)
    requires Releases(s, i, s') && AggOk(g, s, s.msgs[i].to)
    ensures s.msgs[i].to !in s'.aggs
    ensures Outstanding(s', Aggregator(s.msgs[i].to)) == 0
    ensures forall m <- s'.msgs :: m.Owner() != Aggregator(s.msgs[i].to)
    ensures forall p <- s.aggs :: s.aggs[p].caller != Aggregator(s.msgs[i].to)
  {
    var to := s.msgs[i].to;
    ReleaseCounts(s, i, s', Aggregator(to));
    forall m <- s'.msgs
      ensures m.Owner() != Aggregator(to)
    {
      OwnerCounts(s'.msgs, m);
    }
    TakenCounts(s, i, Aggregator(to));
    assert Children(s.aggs, Aggregator(to)) == {};
    forall p <- s.aggs
      ensures s.aggs[p].caller != Aggregator(to)
    {
      assert p !in Children(s.aggs, Aggregator(to));
    }
  }

  lemma ReleaseKeepsAgg(g: System, s: Net, i: nat, s': Net, p: Pair)
    requires Releases(s, i, s') && p in s.aggs && p != s.msgs[i].to && AggOk(g, s, p)
    requires s.aggs[p].caller != Aggregator(s.msgs[i].to)
    ensures p in s'.aggs && AggOk(g, s', p)
  {
    ReleaseCounts(s, i, s', Aggregator(p));
    AggKept(g, s, s', p);
  }

  lemma ReleaseKeepsMsgs(g: System, s: Net, i: nat, s': Net)
    requires (forall m <- s.msgs :: MsgOk(g, s, m)) && (forall w <- s.written :: w <= g.Answer())
    requires Releases(s, i, s')
    requires MsgOk(g, s, s.msgs[i]) && AggOk(g, s, s.msgs[i].to)
    requires forall m <- s'.msgs :: m.Owner() != Aggregator(s.msgs[i].to)
    requires s.aggs[s.msgs[i].to].caller != Aggregator(s.msgs[i].to)
    ensures forall m <- s'.msgs :: MsgOk(g, s', m)
    ensures forall w <- s'.written :: w <= g.Answer()
  {
    var t, m := s.Taken(i), s.msgs[i];
    var a := s.aggs[m.to];
    var t' := t.(aggs := t.aggs - {m.to});
    OwnersTaken(s, i);
    assert s' == t'.Answered(a.caller, a.result + m.result);
    forall x <- t'.msgs
      ensures MsgOk(g, t', x)
    {
      assert MsgOk(g, s, x);
      assert x in s'.msgs;
    }
    AnsweredIsOk(g, t', a.caller, a.result + m.result);
  }

  lemma ReleaseKeepsCounted(g: System, s: Net, i: nat, s': Net)
    requires Counted(g, s) && Releases(s, i, s')
    ensures Counted(g, s')
  {
    var to := s.msgs[i].to;
    assert MsgOk(g, s, s.msgs[i]);
    assert AggOk(g, s, to);
    ReleaseLeavesNothing(g, s, i, s');
    ReleaseKeepsMsgs(g, s, i, s');
    ReleaseCounts(s, i, s', Process);
    forall p <- s'.aggs
      ensures AggOk(g, s', p)
    {
      assert AggOk(g, s, p);
      ReleaseKeepsAgg(g, s, i, s', p);
    }
  }
}
