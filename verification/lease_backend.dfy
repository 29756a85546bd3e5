/** The in-memory Lease store: one record guarded by compare-and-swap on its version. */
module LeaseBackends {
  import opened Wrappers
  import opened LeaseRecords

  datatype WriteResult = Written(record: LeaseRecord) | Conflict

  /** A write as it reaches the store. */
  datatype Write = Create(record: LeaseRecord) | Update(record: LeaseRecord)

  /** The store as the log of every record it ever held: the last one is current. */
  type Log = seq<LeaseRecord>

  function Current(log: Log): Option<LeaseRecord> {
    if log == [] then None else Some(log[|log| - 1])
  }

  /** Whether the compare-and-swap lets `write` through. */
  predicate Admits(log: Log, write: Write) {
    match write
    case Create(_) => log == []
    case Update(record) => log != [] && record.version == log[|log| - 1].version
  }

  function Stamped(record: LeaseRecord, version: nat): LeaseRecord {
    record.(version := Some(version))
  }

  function Applied(log: Log, write: Write): Log {
    if Admits(log, write) then log + [Stamped(write.record, |log| + 1)] else log
  }

  function AppliedAll(log: Log, writes: seq<Write>): Log
    decreases |writes|
  {
    if writes == [] then log else AppliedAll(Applied(log, writes[0]), writes[1..])
  }

  /** Every stored record carries the number of the write that stored it. */
  ghost predicate Numbered(log: Log) {
    forall k :: 0 <= k < |log| ==> log[k].version == Some(k + 1)
  }

  /** Compare-and-swap: of two writes prepared from the same observation at most one is applied,
      and one is refused whenever anything was stored after the observation. */
  lemma {:induction false} CompareAndSwap(log: Log, others: seq<Write>, mine: LeaseRecord)
    requires Numbered(log) && log != [] && mine.version == Some(|log|)
    ensures Numbered(AppliedAll(log, others)) && log <= AppliedAll(log, others)
    ensures Admits(AppliedAll(log, others), Update(mine)) <==> AppliedAll(log, others) == log
  {
    AppliedAllExtends(log, others);
  }

  lemma {:induction false} AppliedAllExtends(log: Log, writes: seq<Write>)
    requires Numbered(log)
    ensures Numbered(AppliedAll(log, writes)) && log <= AppliedAll(log, writes)
    decreases |writes|
  {
    if writes != [] {
      AppliedAllExtends(Applied(log, writes[0]), writes[1..]);
    }
  }

  class InMemoryLeaseBackend {
    var record: Option<LeaseRecord>
    var version: nat
    ghost var log: Log

    ghost predicate Valid()
      reads this
    {
      version == |log| && record == Current(log) && Numbered(log)
    }

    constructor ()
      ensures Valid() && log == []
    {
      record, version, log := None, 0, [];
    }

    method Get() returns (observed: Option<LeaseRecord>)
      requires Valid()
      ensures observed == Current(log)
    {
      observed := record;
    }

    /** Stores `initial` when there is no Lease yet. */
    method CreateLease(initial: LeaseRecord) returns (r: WriteResult)
      requires Valid()
      modifies this
      ensures Valid() && log == Applied(old(log), Create(initial))
      ensures r == if old(log) == [] then Written(log[|log| - 1]) else Conflict
    {
      if record.Some? {
        return Conflict;
      }
      version := version + 1;
      var stored := initial.(version := Some(version));
      record := Some(stored);
      log := log + [stored];
      r := Written(stored);
    }

    /** Replaces the record when `candidate` carries its version. */
    method UpdateLease(candidate: LeaseRecord) returns (r: WriteResult)
      requires Valid()
      modifies this
      ensures Valid() && log == Applied(old(log), Update(candidate))
      ensures r == if Admits(old(log), Update(candidate)) then Written(log[|log| - 1]) else Conflict
    {
      if record.None? {
        return Conflict;
      }
      if candidate.version != record.value.version {
        return Conflict;
      }
      version := version + 1;
      var stored := candidate.(version := Some(version));
      record := Some(stored);
      log := log + [stored];
      r := Written(stored);
    }

    /** The writes other pods get through between two calls of one pod. */
    method Interfere(writes: seq<Write>)
      requires Valid()
      modifies this
      ensures Valid() && log == AppliedAll(old(log), writes)
    {
      for k := 0 to |writes|
        invariant Valid()
        invariant AppliedAll(log, writes[k..]) == AppliedAll(old(log), writes)
      {
        assert writes[k..][0] == writes[k] && writes[k..][1..] == writes[k + 1..];
        match writes[k]
        case Create(initial) => var _ := CreateLease(initial);
        case Update(candidate) => var _ := UpdateLease(candidate);
      }
    }
  }
}
