/**
 * Which rent splits apply on a date: the last schedule entry that has come
 * into force by then.
 */
module Schedule {
  import opened Wrappers
  import opened Calendar
  import opened Configuration

  predicate Applies(e: RentEntry, t: Date) {
    OnOrBefore(e.since, t)
  }

  /** The splits of the highest-indexed entry in force at `t`, found from the end of the schedule. */
  function ApplicableSplits(schedule: seq<RentEntry>, t: Date): Result<Splits, Error>
  {
    if schedule == [] then Err(RentNotFound(t))
    else if Applies(schedule[|schedule| - 1], t) then Ok(schedule[|schedule| - 1].splits)
    else ApplicableSplits(schedule[..|schedule| - 1], t)
  }

  /** `i` is the last entry of the schedule in force at `t`. */
  predicate IsLastApplicable(schedule: seq<RentEntry>, t: Date, i: int) {
    && 0 <= i < |schedule|
    && Applies(schedule[i], t)
    && forall j :: i < j < |schedule| ==> !Applies(schedule[j], t)
  }

  /** The lookup returns the splits of the last entry in force. */
  lemma {:induction false} ApplicableSplitsPicksLast(schedule: seq<RentEntry>, t: Date, i: int)
    requires IsLastApplicable(schedule, t, i)
    ensures ApplicableSplits(schedule, t) == Ok(schedule[i].splits)
    decreases |schedule|
  {
    if i < |schedule| - 1 {
      var prefix := schedule[..|schedule| - 1];
      assert IsLastApplicable(prefix, t, i);
      ApplicableSplitsPicksLast(prefix, t, i);
    }
  }

  /** The lookup fails exactly when no entry is in force, the empty schedule included. */
  lemma {:induction false} ApplicableSplitsFails(schedule: seq<RentEntry>, t: Date)
    ensures ApplicableSplits(schedule, t).Err? <==> forall i :: 0 <= i < |schedule| ==> !Applies(schedule[i], t)
    ensures ApplicableSplits(schedule, t).Err? ==> ApplicableSplits(schedule, t).error == RentNotFound(t)
    decreases |schedule|
  {
    if schedule != [] {
      var prefix := schedule[..|schedule| - 1];
      ApplicableSplitsFails(prefix, t);
      if !Applies(schedule[|schedule| - 1], t) {
        forall i | 0 <= i < |schedule| - 1
          ensures schedule[i] == prefix[i]
        {
        }
      }
    }
  }

  /** A schedule listed by effective date, oldest first. */
  predicate Ascending(schedule: seq<RentEntry>) {
    forall i, j :: 0 <= i < j < |schedule| ==> OnOrBefore(schedule[i].since, schedule[j].since)
  }

  /** On an ascending schedule the lookup finds the entry with the latest effective date not after `t`. */
  lemma {:induction false} ApplicableSplitsLatest(schedule: seq<RentEntry>, t: Date)
    requires Ascending(schedule)
    requires ApplicableSplits(schedule, t).Ok?
    ensures exists i :: && 0 <= i < |schedule|
                        && Applies(schedule[i], t)
                        && ApplicableSplits(schedule, t) == Ok(schedule[i].splits)
                        && forall j :: 0 <= j < |schedule| && Applies(schedule[j], t) ==>
                                       OnOrBefore(schedule[j].since, schedule[i].since)
  {
    ApplicableSplitsFails(schedule, t);
    var k :| 0 <= k < |schedule| && Applies(schedule[k], t);
    var i := LastApplicableFrom(schedule, t, k);
    ApplicableSplitsPicksLast(schedule, t, i);
    assert forall j :: 0 <= j < |schedule| && Applies(schedule[j], t) ==>
                       OnOrBefore(schedule[j].since, schedule[i].since);
  }

  /** The last entry in force, searched for from a known entry in force onward. */
  lemma {:induction false} LastApplicableFrom(schedule: seq<RentEntry>, t: Date, k: int) returns (i: int)
    requires 0 <= k < |schedule| && Applies(schedule[k], t)
    ensures k <= i && IsLastApplicable(schedule, t, i)
    decreases |schedule| - k
  {
    if j :| k < j < |schedule| && Applies(schedule[j], t) {
      i := LastApplicableFrom(schedule, t, j);
    } else {
      i := k;
    }
  }
}
