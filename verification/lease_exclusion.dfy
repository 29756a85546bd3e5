/** At most one pod leads on a fresh success, whatever is lost, late, retried or restarted. */
module LeaseExclusion {
  import opened LeaseRecords
  import opened LeaseBackends
  import opened LeaderElection
  import opened LeaseProtocol

  /** `id` leads and every pod's clock still reads within the stored duration of its last success. */
  ghost predicate FreshLeader(c: Config, s: State, id: Identity)
    requires WellFormed(c, s)
  {
    && id in s.pods
    && s.pods[id].elector.isLeader
    && s.now + c.skew <= s.pods[id].elector.lastRenewSuccess + StoredDuration(c, id)
  }

  /** A fresh leader is the holder in the store, with a renew time no older than its own last success. */
  lemma {:induction false} FreshLeaderIsHolder(c: Config, s: State, id: Identity)
    requires c.skew >= 0.0 && Reachable(c, s)
    ensures WellFormed(c, s)
    ensures FreshLeader(c, s, id) ==>
              && Current(s.log).Some?
              && Current(s.log).value.holder == id
              && s.pods[id].elector.lastRenewSuccess <= Current(s.log).value.renewTime
  {
    ReachableInv(c, s);
    if FreshLeader(c, s, id) {
      assert PodInv(c, s.now, s.log, id, s.pods[id]);
    }
  }

  lemma {:induction false} MutualExclusion(c: Config, s: State, i: Identity, j: Identity)
    requires c.skew >= 0.0 && Reachable(c, s)
    ensures WellFormed(c, s)
    ensures FreshLeader(c, s, i) && FreshLeader(c, s, j) ==> i == j
  {
    FreshLeaderIsHolder(c, s, i);
    FreshLeaderIsHolder(c, s, j);
  }

  /** In every reachable state each pod's callbacks alternate, and it leads exactly when one more
      "started" than "stopped" was fired. */
  lemma {:induction false} CallbacksBalance(c: Config, s: State, id: Identity)
    requires c.skew >= 0.0 && Reachable(c, s) && id in s.pods
    ensures s.pods[id].elector.Valid()
    ensures var e := s.pods[id].elector;
      Count(e.callbacks, StartedLeading) - Count(e.callbacks, StoppedLeading) == if e.isLeader then 1 else 0
  {
    ReachableInv(c, s);
    assert PodInv(c, s.now, s.log, id, s.pods[id]);
    StartedMinusStopped(s.pods[id].elector);
  }
}
