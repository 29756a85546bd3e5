/** In which order, how often, and to whom entries are delivered. */
module OperatorDelivery {
  import opened OperatorProtocol
  import opened OperatorStream

  predicate Owned(g: Group, consumer: string, e: nat) {
    e in g.pending && g.pending[e] == consumer
  }

  predicate OwnsNothing(r: Redis, consumer: string) {
    r.group.Some? ==> FirstOwned(r.group.value, consumer, 0).None?
  }

  /** How much may go wrong: crashes and failed acks, or nothing but lost replies and read errors. */
  datatype Discipline = Orderly | Faultless

  /** The group survives, no pending read errors, and a restart keeps its consumer name or takes an unused one;
      a faultless run has no crash, failed write or failed ack either. */
  predicate Allowed(d: Discipline, s: Sys, a: Action) {
    && !a.DestroyGroup? && !a.PendingFails?
    && (a.Start? ==> a.consumer == s.consumer || OwnsNothing(s.redis, a.consumer))
    && (d.Faultless? ==>
          && !a.Crash? && !a.WriteFails? && (a.Ack? ==> a.removed) && (a.Start? ==> s.redis.group.None?))
  }

  predicate IsAllowedRun(d: Discipline, u: Setup, s: Sys, run: seq<Action>)
    decreases |run|
  {
    run != [] ==>
      Enabled(u, s, run[0]) && Allowed(d, s, run[0]) && IsAllowedRun(d, u, After(u, s, run[0]), run[1..])
  }

  predicate InHand(pc: Pc) {
    pc.Checking? || pc.Executing? || pc.Writing? || pc.Acking?
  }

  /** Whatever the consumer has pending or in hand is the entry delivered last. */
  ghost predicate OrderInv(s: Sys) {
    match s.redis.group
    case None => s.pc.Down? && s.deliveries == []
    case Some(g) =>
      && (forall e: nat :: Owned(g, s.consumer, e) ==> e + 1 == g.cursor)
      && (InHand(s.pc) ==> s.pc.entry + 1 == g.cursor)
      && (s.pc.NeedNew? ==> forall e: nat :: !Owned(g, s.consumer, e))
      && (forall k :: 0 <= k < |s.deliveries| ==> s.deliveries[k] < g.cursor)
      && (forall j, k :: 0 <= j < k < |s.deliveries| ==> s.deliveries[j] <= s.deliveries[k])
  }

  lemma {:induction false} ReadKeepsOrder(u: Setup, s: Sys, a: Action)
    requires Inv(u, s) && OrderInv(s) && Enabled(u, s, a) && (a.PendingOk? || a.NewOk? || a.NewLost? || a.NewFails?)
    ensures OrderInv(After(u, s, a))
  {
    if s.redis.group.Some? {
      var g, t := s.redis.group.value, After(u, s, a);
      if a.PendingOk? && t.pc.Checking? {
        assert Owned(g, s.consumer, t.pc.entry);
      }
      forall e: nat | Owned(t.redis.group.value, t.consumer, e)
        ensures e + 1 == t.redis.group.value.cursor
      {
        assert Owned(g, t.consumer, e) || e == g.cursor;
      }
    }
  }

  lemma {:induction false} StartKeepsOrder(u: Setup, s: Sys, consumer: string)
    requires Inv(u, s) && OrderInv(s) && Enabled(u, s, Start(consumer)) && Allowed(Orderly, s, Start(consumer))
    ensures OrderInv(After(u, s, Start(consumer)))
  {
    var t := After(u, s, Start(consumer));
    forall e: nat | Owned(t.redis.group.value, t.consumer, e)
      ensures e + 1 == t.redis.group.value.cursor
    {
      assert Owned(s.redis.group.value, t.consumer, e);
    }
  }

  lemma {:induction false} StepKeepsOrder(u: Setup, s: Sys, a: Action)
    requires Inv(u, s) && OrderInv(s) && Enabled(u, s, a) && Allowed(Orderly, s, a)
    ensures OrderInv(After(u, s, a))
  {
    match a
    case Start(consumer) => StartKeepsOrder(u, s, consumer);
    case PendingOk => ReadKeepsOrder(u, s, a);
    case NewOk => ReadKeepsOrder(u, s, a);
    case NewLost => ReadKeepsOrder(u, s, a);
    case NewFails(_) => ReadKeepsOrder(u, s, a);
    case Ack(_) =>
      if s.redis.group.Some? {
        assert forall e: nat :: Owned(After(u, s, a).redis.group.value, s.consumer, e) ==>
            Owned(s.redis.group.value, s.consumer, e);
      }
    case _ =>
  }

  lemma {:induction false} RunKeepsOrder(u: Setup, s: Sys, run: seq<Action>)
    requires Inv(u, s) && OrderInv(s) && IsAllowedRun(Orderly, u, s, run)
    ensures IsRun(u, s, run) && Inv(u, Final(u, s, run)) && OrderInv(Final(u, s, run))
    decreases |run|
  {
    if run != [] {
      StepKeepsInv(u, s, run[0]);
      StepKeepsOrder(u, s, run[0]);
      RunKeepsOrder(u, After(u, s, run[0]), run[1..]);
    }
  }

  /** While the group survives and no pending read errors, entries come in stream order, crashes included,
      and the consumer never has more than one pending. */
  lemma {:induction false} InOrderOnePending(u: Setup, stream: seq<Fields>, run: seq<Action>)
    requires IsAllowedRun(Orderly, u, Init(stream), run)
    ensures IsRun(u, Init(stream), run)
    ensures var s := Final(u, Init(stream), run);
      && (forall j, k :: 0 <= j < k < |s.deliveries| ==> s.deliveries[j] <= s.deliveries[k])
      && (s.redis.group.Some? ==>
            var g := s.redis.group.value;
            forall e: nat, f: nat :: Owned(g, s.consumer, e) && Owned(g, s.consumer, f) ==> e == f)
  {
    RunKeepsOrder(u, Init(stream), run);
  }

  /** The deliveries so far are the stream's entries one by one; at most the last delivered one, whose reply was
      lost, has not reached the loop. */
  ghost predicate OnceInv(s: Sys) {
    && (forall k :: 0 <= k < |s.deliveries| ==> s.deliveries[k] == k)
    && match s.redis.group
       case None => s.pc.Down? && s.deliveries == []
       case Some(g) =>
         && !s.pc.Down?
         && (forall e :: e in g.pending ==> g.pending[e] == s.consumer)
         && (InHand(s.pc) ==>
               |s.deliveries| == g.cursor == s.pc.entry + 1 && g.pending.Keys == {s.pc.entry})
         && (s.pc.NeedNew? ==> |s.deliveries| == g.cursor && g.pending.Keys == {})
         && (s.pc.Top? ==>
               || (|s.deliveries| == g.cursor && g.pending.Keys == {})
               || (|s.deliveries| + 1 == g.cursor && g.pending.Keys == {g.cursor - 1}))
         && (forall e :: 0 <= e < g.cursor ==> e in g.pending || e in s.acked)
  }

  lemma {:induction false} StepKeepsOnce(u: Setup, s: Sys, a: Action)
    requires Inv(u, s) && OnceInv(s) && Enabled(u, s, a) && Allowed(Faultless, s, a)
    ensures OnceInv(After(u, s, a))
  {
    if a.PendingOk? {
      var g := s.redis.group.value;
      assert forall e :: e in g.pending.Keys ==> Owned(g, s.consumer, e);
      if g.pending.Keys == {g.cursor - 1} {
        assert g.cursor - 1 in g.pending.Keys;
      }
      var first := FirstOwned(g, s.consumer, 0);
      if first.Some? {
        assert first.value in g.pending.Keys;
      }
    } else if a.NewOk? || a.NewLost? {
      var g := s.redis.group.value;
      if g.cursor < |s.redis.stream| {
        assert g.pending[g.cursor := s.consumer].Keys == {g.cursor};
      }
    } else if a.Ack? {
      assert (s.redis.group.value.pending - {s.pc.entry}).Keys == {};
    }
  }

  lemma {:induction false} RunKeepsOnce(u: Setup, s: Sys, run: seq<Action>)
    requires Inv(u, s) && OnceInv(s) && IsAllowedRun(Faultless, u, s, run)
    ensures IsRun(u, s, run) && Inv(u, Final(u, s, run)) && OnceInv(Final(u, s, run))
    decreases |run|
  {
    if run != [] {
      StepKeepsInv(u, s, run[0]);
      StepKeepsOnce(u, s, run[0]);
      RunKeepsOnce(u, After(u, s, run[0]), run[1..]);
    }
  }

  /** Without crashes and failed acks the `k`-th delivery is entry `k`: each is handled once, in order; and once the
      loop is back at its top, all but possibly one entry of a lost reply are acknowledged. */
  lemma {:induction false} ExactlyOnce(u: Setup, stream: seq<Fields>, run: seq<Action>)
    requires IsAllowedRun(Faultless, u, Init(stream), run)
    ensures IsRun(u, Init(stream), run)
    ensures var s := Final(u, Init(stream), run);
      && (forall k :: 0 <= k < |s.deliveries| ==> s.deliveries[k] == k)
      && (s.pc.Top? ==> forall e :: 0 <= e < |s.deliveries| ==> e in s.acked)
      && (s.redis.group.Some? ==> |s.deliveries| <= s.redis.group.value.cursor <= |s.deliveries| + 1)
  {
    RunKeepsOnce(u, Init(stream), run);
  }

  // ---------- Redelivery ----------

  /** Entry `e` is pending for `owner`, who is not running, and the loop has nothing of it in hand. */
  ghost predicate Stranded(s: Sys, owner: string, e: nat) {
    && s.redis.group.Some? && Owned(s.redis.group.value, owner, e)
    && s.consumer != owner && !(InHand(s.pc) && s.pc.entry == e) && CursorInv(s)
  }

  lemma {:induction false} StepStrands(u: Setup, s: Sys, a: Action, owner: string, e: nat)
    requires Enabled(u, s, a) && Stranded(s, owner, e) && a != DestroyGroup && a != Start(owner)
    ensures Stranded(After(u, s, a), owner, e)
    ensures var d := After(u, s, a).deliveries; d == s.deliveries || (exists f :: f != e && d == s.deliveries + [f])
  {
    if a.PendingOk? || a.NewOk? {
      var t := After(u, s, a);
      if t.pc.Checking? {
        assert t.pc.entry != e && t.deliveries == s.deliveries + [t.pc.entry];
      }
    }
  }

  /** Only the consumer that was given an entry can get it again: until the group is destroyed or the owner's
      name returns, nothing delivers it, whoever runs and however long. */
  lemma {:induction false} StrandedUntilOwnerReturns(u: Setup, s: Sys, run: seq<Action>, owner: string, e: nat)
    requires IsRun(u, s, run) && Stranded(s, owner, e)
    requires forall k :: 0 <= k < |run| ==> run[k] != DestroyGroup && run[k] != Start(owner)
    ensures var t := Final(u, s, run);
      && Stranded(t, owner, e) && s.deliveries <= t.deliveries && e !in t.deliveries[|s.deliveries|..]
    decreases |run|
  {
    if run != [] {
      assert run[0] != DestroyGroup && run[0] != Start(owner);
      StepStrands(u, s, run[0], owner, e);
      var t := After(u, s, run[0]);
      assert forall k :: 0 <= k < |run[1..]| ==> run[1..][k] == run[k + 1];
      StrandedUntilOwnerReturns(u, t, run[1..], owner, e);
      var f := Final(u, s, run);
      assert f.deliveries[|s.deliveries|..] == t.deliveries[|s.deliveries|..] + f.deliveries[|t.deliveries|..];
    }
  }

  lemma {:induction false} Extended(u: Setup, s: Sys, run: seq<Action>, a: Action)
    returns (longer: seq<Action>, t: Sys)
    requires IsRun(u, s, run) && Enabled(u, Final(u, s, run), a)
    ensures longer == run + [a] && IsRun(u, s, longer) && t == Final(u, s, longer) == After(u, Final(u, s, run), a)
    decreases |run|
  {
    longer, t := run + [a], After(u, Final(u, s, run), a);
    if run == [] {
      assert longer[1..] == [];
    } else {
      assert longer[1..] == run[1..] + [a];
      var _, _ := Extended(u, After(u, s, run[0]), run[1..], a);
    }
  }

  /** It happens: a crash between delivery and result, then a restart under another name (the name contains the
      process id), leaves a good command without a result and pending for a consumer that is gone. */
  lemma {:induction false} RenameStrands(u: Setup, fields: Fields, before: string, after: string)
    returns (run: seq<Action>, s: Sys)
    requires before != after && Acceptable(u.lit, fields)
    ensures IsRun(u, Init([fields]), run) && s == Final(u, Init([fields]), run)
    ensures s.pc.Top? && s.consumer == after && s.redis.stream == [fields]
    ensures Stranded(s, before, 0) && !Settled(u, s, 0)
  {
    var s0 := Init([fields]);
    ParseIsMessageXorError(u.lit, fields, 0);
    run, s := Extended(u, s0, [], Start(before));
    run, s := Extended(u, s0, run, PendingOk);
    run, s := Extended(u, s0, run, NewOk);
    run, s := Extended(u, s0, run, Crash);
    run, s := Extended(u, s0, run, Start(after));
  }

  lemma {:induction false} Compose(u: Setup, s: Sys, run: seq<Action>, more: seq<Action>)
    requires IsRun(u, s, run) && IsRun(u, Final(u, s, run), more)
    ensures IsRun(u, s, run + more) && Final(u, s, run + more) == Final(u, Final(u, s, run), more)
    decreases |run|
  {
    if run == [] {
      assert run + more == more;
    } else {
      assert (run + more)[1..] == run[1..] + more;
      Compose(u, After(u, s, run[0]), run[1..], more);
    }
  }
}
