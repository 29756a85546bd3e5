/** The sequence of stored records read as a list of terms of office. */
module LeaseHistory {
  import opened Wrappers
  import opened LeaseRecords
  import opened LeaseBackends
  import opened LeaseProtocol

  datatype Term = Term(holder: Identity, since: real, renewed: real)

  /** Consecutive records of one holder make one term. */
  function Terms(log: Log): seq<Term> {
    if log == [] then []
    else
      var earlier := Terms(log[..|log| - 1]);
      var r := log[|log| - 1];
      if earlier != [] && earlier[|earlier| - 1].holder == r.holder then
        earlier[|earlier| - 1 := earlier[|earlier| - 1].(renewed := r.renewTime)]
      else
        earlier + [Term(r.holder, r.renewTime, r.renewTime)]
  }

  function HolderChanges(log: Log): nat {
    if |log| <= 1 then 0
    else HolderChanges(log[..|log| - 1]) + if log[|log| - 2].holder != log[|log| - 1].holder then 1 else 0
  }

  /** Term `k` is a pod's, and if another precedes it that was another pod's and had run out for longer
      than its holder's stored duration. */
  ghost predicate TermOk(c: Config, terms: seq<Term>, k: nat)
    requires k < |terms|
  {
    && terms[k].holder in c.pods && terms[k].since <= terms[k].renewed
    && (k > 0 ==>
          && terms[k - 1].holder in c.pods
          && terms[k - 1].holder != terms[k].holder
          && terms[k].since > terms[k - 1].renewed + StoredDuration(c, terms[k - 1].holder))
  }

  ghost predicate Separated(c: Config, terms: seq<Term>) {
    forall k :: 0 <= k < |terms| ==> TermOk(c, terms, k)
  }

  lemma {:induction false} LogInvPrefix(c: Config, log: Log, n: nat)
    requires LogInv(c, log) && n <= |log|
    ensures LogInv(c, log[..n])
  {
    forall k | 0 <= k < n
      ensures LinkOk(c, log[..n], k)
    {
      assert LinkOk(c, log, k);
      assert log[..n][..k] == log[..k];
    }
  }

  /** What a record proposed on top of another says about that other one. */
  lemma {:induction false} LinkShape(c: Config, log: Log, n: nat)
    requires LogInv(c, log) && n < |log|
    ensures log[n].holder in c.pods && log[n].duration == StoredDuration(c, log[n].holder)
    ensures n == 0 ==> log[n].transitions == 0 && log[n].acquireTime == log[n].renewTime
    ensures n > 0 && log[n - 1].holder == log[n].holder ==>
              && log[n].transitions == log[n - 1].transitions && log[n].acquireTime == log[n - 1].acquireTime
              && log[n - 1].renewTime <= log[n].renewTime
    ensures n > 0 && log[n - 1].holder != log[n].holder ==>
              && log[n].transitions == log[n - 1].transitions + 1 && log[n].acquireTime == log[n].renewTime
              && log[n - 1].Expiry() < log[n].renewTime
  {
    assert LinkOk(c, log, n);
  }

  /** The current record tells its whole term, and its transition counter counts the holder changes exactly. */
  lemma {:induction false} LogIsTerms(c: Config, log: Log)
    requires LogInv(c, log)
    ensures Separated(c, Terms(log))
    ensures log != [] ==>
              var r, terms := log[|log| - 1], Terms(log);
              && r.transitions == HolderChanges(log) == |terms| - 1
              && terms[|terms| - 1] == Term(r.holder, r.acquireTime, r.renewTime)
    decreases |log|
  {
    if log != [] {
      var n := |log| - 1;
      var before, terms := Terms(log[..n]), Terms(log);
      LogInvPrefix(c, log, n);
      LogIsTerms(c, log[..n]);
      LinkShape(c, log, n);
      if n > 0 {
        LinkShape(c, log, n - 1);
        assert log[..n][n - 1] == log[n - 1];
      }
      forall k | 0 <= k < |terms|
        ensures TermOk(c, terms, k)
      {
        if k < |before| {
          assert TermOk(c, before, k);
        }
      }
    }
  }

  lemma {:induction false} ReachableLogIsTerms(c: Config, s: State)
    requires c.skew >= 0.0 && Reachable(c, s)
    ensures Separated(c, Terms(s.log))
    ensures s.log != [] ==>
              var r, terms := s.log[|s.log| - 1], Terms(s.log);
              && r.version == Some(|s.log|)
              && r.transitions == HolderChanges(s.log) == |terms| - 1
              && terms[|terms| - 1] == Term(r.holder, r.acquireTime, r.renewTime)
  {
    ReachableInv(c, s);
    LogIsTerms(c, s.log);
    LogInvNumbered(c, s.log);
  }

  /** Renew times never go back between any two records, when no stored duration is negative. */
  lemma {:induction false} RenewTimeNeverDecreases(c: Config, log: Log, j: nat, k: nat)
    requires LogInv(c, log) && j <= k < |log|
    requires forall id :: id in c.pods ==> StoredDuration(c, id) >= 0.0
    ensures log[j].renewTime <= log[k].renewTime
    decreases k
  {
    if j < k {
      RenewTimeNeverDecreases(c, log, j, k - 1);
      LinkShape(c, log, k);
      LinkShape(c, log, k - 1);
    }
  }

  function AppliedWrites(c: Config, s: State, run: seq<Action>): nat
    requires IsRun(c, s, run)
    decreases |run|
  {
    if run == [] then 0
    else
      var a := run[0];
      (if a.Deliver? && Admits(s.log, Encoded(c.backend, a.request.write)) then 1 else 0)
        + AppliedWrites(c, After(c, s, a), run[1..])
  }

  /** Over every run the version counts the writes that were applied, and nothing stored is ever rewritten. */
  lemma {:induction false} VersionCountsWrites(c: Config, s: State, run: seq<Action>)
    requires IsRun(c, s, run)
    ensures |Final(c, s, run).log| == |s.log| + AppliedWrites(c, s, run)
    ensures s.log <= Final(c, s, run).log
    decreases |run|
  {
    if run != [] {
      VersionCountsWrites(c, After(c, s, run[0]), run[1..]);
    }
  }
}
