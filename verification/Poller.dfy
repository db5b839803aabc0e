/**
 * scheduler: the per-domain rate limit of the revalidation poller, whose map of last dispatches is pruned
 * when it grows, against a map that is never pruned. Times and durations are arbitrary integers in one
 * unit; the clock is read again at every step and never goes back.
 */
module Poller {
  type Domain = string
  type Seen = map<Domain, int>

  const GC_SIZE: nat := 10_000

  predicate RateLimited(seen: Seen, domain: Domain, now: int, rateLimit: int) {
    domain != "" && domain in seen && now - seen[domain] < rateLimit
  }

  function Pruned(seen: Seen, cutoff: int): Seen { map d | d in seen && seen[d] >= cutoff :: seen[d] }

  /** Marking at `now`; the clock is read again, at `gcAt`, when the map has outgrown its size. */
  function Marked(seen: Seen, domain: Domain, now: int, gcAt: int, rateLimit: int): Seen {
    if domain == "" then seen
    else
      var m := seen[domain := now];
      if |m| > GC_SIZE then Pruned(m, gcAt - 2 * rateLimit) else m
  }

  /** One row of a tick: the domain, whether the dispatcher takes the job, and the clock readings. */
  datatype RowEvent = RowEvent(domain: Domain, accepted: bool, checkAt: int, markAt: int, gcAt: int)

  class Poller {
    const rateLimit: int
    var lastByDom: Seen

    constructor (rateLimit: int)
      ensures lastByDom == map[] && this.rateLimit == rateLimit
    {
      this.rateLimit, lastByDom := rateLimit, map[];
    }

    method IsRateLimited(domain: Domain, now: int) returns (b: bool)
      ensures b == RateLimited(lastByDom, domain, now, rateLimit)
    {
      if domain == "" {
        return false;
      }
      if domain !in lastByDom {
        return false;
      }
      return now - lastByDom[domain] < rateLimit;
    }

    method MarkSeen(domain: Domain, now: int, gcAt: int)
      modifies this
      ensures lastByDom == Marked(old(lastByDom), domain, now, gcAt, rateLimit)
      ensures domain == "" ==> lastByDom == old(lastByDom)
      ensures domain != "" && |old(lastByDom)[domain := now]| <= 10_000 ==> lastByDom == old(lastByDom)[domain := now]
      ensures domain != "" && |old(lastByDom)[domain := now]| > 10_000 ==>
        forall d :: d in lastByDom <==>
          d in old(lastByDom)[domain := now] && old(lastByDom)[domain := now][d] >= gcAt - 2 * rateLimit
    {
      if domain == "" {
        return;
      }
      lastByDom := lastByDom[domain := now];
      if |lastByDom| > GC_SIZE {
        var cutoff := gcAt - 2 * rateLimit;
        ghost var was := lastByDom;
        var todo := lastByDom.Keys;
        while todo != {}
          invariant todo <= was.Keys
          invariant forall d :: d in lastByDom <==> d in was && (d in todo || was[d] >= cutoff)
          invariant forall d :: d in lastByDom ==> lastByDom[d] == was[d]
          decreases todo
        {
          var k :| k in todo;
          todo := todo - {k};
          if lastByDom[k] < cutoff {
            lastByDom := lastByDom - {k};
          }
        }
      }
    }

    /** One sweep over the rows that are due. */
    method Tick(rows: seq<RowEvent>) returns (dispatched: seq<nat>, skipped: nat)
      modifies this
      ensures dispatched == Dispatched(old(lastByDom), rows, rateLimit)
      ensures lastByDom == SeenAfter(old(lastByDom), rows, rateLimit)
      ensures skipped + |dispatched| <= |rows|
    {
      dispatched, skipped := [], 0;
      ghost var was := lastByDom;
      for i := 0 to |rows|
        invariant dispatched == Dispatched(was, rows[..i], rateLimit)
        invariant lastByDom == SeenAfter(was, rows[..i], rateLimit)
        invariant skipped + |dispatched| <= i
      {
        var r := rows[i];
        assert rows[..i + 1][..i] == rows[..i];
        var limited := IsRateLimited(r.domain, r.checkAt);
        if limited {
          skipped := skipped + 1;
          continue;
        }
        if !r.accepted {
          continue;
        }
        MarkSeen(r.domain, r.markAt, r.gcAt);
        dispatched := dispatched + [i];
      }
      assert rows[..|rows|] == rows;
    }
  }

  // ----- runs: the rows of any number of ticks, one after the other

  predicate Goes(seen: Seen, r: RowEvent, rateLimit: int) {
    !RateLimited(seen, r.domain, r.checkAt, rateLimit) && r.accepted
  }

  function SeenAfter(seen: Seen, rows: seq<RowEvent>, rateLimit: int): Seen {
    if rows == [] then seen
    else
      var (s, r) := (SeenAfter(seen, rows[..|rows| - 1], rateLimit), rows[|rows| - 1]);
      if Goes(s, r, rateLimit) then Marked(s, r.domain, r.markAt, r.gcAt, rateLimit) else s
  }

  /** The positions of the rows that were dispatched and marked. */
  function Dispatched(seen: Seen, rows: seq<RowEvent>, rateLimit: int): seq<nat> {
    if rows == [] then []
    else
      var (front, r) := (rows[..|rows| - 1], rows[|rows| - 1]);
      if Goes(SeenAfter(seen, front, rateLimit), r, rateLimit) then Dispatched(seen, front, rateLimit) + [|rows| - 1]
      else Dispatched(seen, front, rateLimit)
  }

  /** The reference: the same loop over a map that is never pruned. */
  function FullSeen(rows: seq<RowEvent>, rateLimit: int): Seen {
    if rows == [] then map[]
    else
      var (s, r) := (FullSeen(rows[..|rows| - 1], rateLimit), rows[|rows| - 1]);
      if Goes(s, r, rateLimit) && r.domain != "" then s[r.domain := r.markAt] else s
  }

  function FullDispatched(rows: seq<RowEvent>, rateLimit: int): (at: seq<nat>)
    ensures forall i :: i in at ==> i < |rows|
  {
    if rows == [] then []
    else
      var (front, r) := (rows[..|rows| - 1], rows[|rows| - 1]);
      if Goes(FullSeen(front, rateLimit), r, rateLimit) then FullDispatched(front, rateLimit) + [|rows| - 1]
      else FullDispatched(front, rateLimit)
  }

  /** The clock never goes back, within a row or from row to row. */
  ghost predicate Monotone(rows: seq<RowEvent>) {
    && (forall i :: 0 <= i < |rows| ==> rows[i].checkAt <= rows[i].markAt <= rows[i].gcAt)
    && (forall i, j :: 0 <= i < j < |rows| ==> rows[i].gcAt <= rows[j].checkAt)
  }

  /** The pruned map is part of the full one; what is missing was too old at time `now` to matter. */
  ghost predicate Agree(seen: Seen, full: Seen, now: int, rateLimit: int) {
    && (forall d :: d in seen ==> d in full && seen[d] == full[d])
    && (forall d :: d in full ==> full[d] <= now)
    && (forall d :: d in full && d !in seen ==> full[d] < now - 2 * rateLimit)
  }

  lemma {:induction false} SameDecision(seen: Seen, full: Seen, now: int, later: int, domain: Domain, rateLimit: int)
    requires Agree(seen, full, now, rateLimit) && now <= later
    ensures RateLimited(seen, domain, later, rateLimit) == RateLimited(full, domain, later, rateLimit)
  {
  }

  lemma {:induction false} MarkAgrees(seen: Seen, full: Seen, now: int, r: RowEvent, rateLimit: int)
    requires Agree(seen, full, now, rateLimit) && now <= r.checkAt <= r.markAt <= r.gcAt
    ensures Agree(Marked(seen, r.domain, r.markAt, r.gcAt, rateLimit),
                  if r.domain == "" then full else full[r.domain := r.markAt], r.gcAt, rateLimit)
  {
  }

  lemma {:induction false} AgreeLater(seen: Seen, full: Seen, now: int, later: int, rateLimit: int)
    requires Agree(seen, full, now, rateLimit) && now <= later
    ensures Agree(seen, full, later, rateLimit)
  {
  }

  /** Pruning never changes a decision: the same rows are dispatched as with a map that only grows. */
  lemma {:induction false} PruningIsInvisible(rows: seq<RowEvent>, rateLimit: int)
    requires Monotone(rows)
    ensures Dispatched(map[], rows, rateLimit) == FullDispatched(rows, rateLimit)
    ensures rows != [] ==>
      Agree(SeenAfter(map[], rows, rateLimit), FullSeen(rows, rateLimit), rows[|rows| - 1].gcAt, rateLimit)
  {
    hide Agree, Marked, RateLimited;
    if rows != [] {
      var (front, r) := (rows[..|rows| - 1], rows[|rows| - 1]);
      PruningIsInvisible(front, rateLimit);
      var (seen, full) := (SeenAfter(map[], front, rateLimit), FullSeen(front, rateLimit));
      assert Agree(seen, full, r.checkAt, rateLimit) by {
        if front == [] {
          NothingSeen(r.checkAt, rateLimit);
        } else {
          assert front[|front| - 1].gcAt <= r.checkAt;
          AgreeLater(seen, full, front[|front| - 1].gcAt, r.checkAt, rateLimit);
        }
      }
      SameDecision(seen, full, r.checkAt, r.checkAt, r.domain, rateLimit);
      MarkAgrees(seen, full, r.checkAt, r, rateLimit);
      AgreeLater(seen, full, r.checkAt, r.gcAt, rateLimit);
    }
  }

  lemma {:induction false} NothingSeen(now: int, rateLimit: int)
    ensures Agree(map[], map[], now, rateLimit)
  {
  }

  /** The full map holds the last dispatch of every domain. */
  lemma {:induction false} FullRemembers(rows: seq<RowEvent>, rateLimit: int, i: nat)
    requires Monotone(rows) && i in FullDispatched(rows, rateLimit)
    ensures i < |rows| && rows[i].accepted
    ensures rows[i].domain != "" ==>
      rows[i].domain in FullSeen(rows, rateLimit) && rows[i].markAt <= FullSeen(rows, rateLimit)[rows[i].domain]
  {
    var (front, r) := (rows[..|rows| - 1], rows[|rows| - 1]);
    if i != |rows| - 1 {
      FullRemembers(front, rateLimit, i);
      if Goes(FullSeen(front, rateLimit), r, rateLimit) && r.domain == rows[i].domain {
        assert rows[i].markAt <= rows[i].gcAt <= r.checkAt <= r.markAt;
      }
    }
  }

  lemma {:induction false} FullSpaced(rows: seq<RowEvent>, rateLimit: int, i: nat, j: nat)
    requires Monotone(rows) && i in FullDispatched(rows, rateLimit) && j in FullDispatched(rows, rateLimit) && i < j
    ensures j < |rows| && (rows[i].domain == rows[j].domain != "" ==> rows[i].markAt + rateLimit <= rows[j].checkAt)
  {
    var front := rows[..|rows| - 1];
    FullRemembers(rows, rateLimit, j);
    assert i in FullDispatched(front, rateLimit);
    if j == |rows| - 1 {
      FullRemembers(front, rateLimit, i);
    } else {
      FullSpaced(front, rateLimit, i, j);
    }
  }

  /** Two dispatches of one non-empty domain are at least the rate limit apart, mark to check, over every run. */
  lemma {:induction false} DispatchesAreSpaced(rows: seq<RowEvent>, rateLimit: int, i: nat, j: nat)
    requires Monotone(rows) && i < j
    requires i in Dispatched(map[], rows, rateLimit) && j in Dispatched(map[], rows, rateLimit)
    ensures j < |rows| && (rows[i].domain == rows[j].domain != "" ==> rows[j].markAt - rows[i].markAt >= rateLimit)
  {
    PruningIsInvisible(rows, rateLimit);
    FullSpaced(rows, rateLimit, i, j);
  }

  /** Every entry of the full map is the mark of a dispatched row. */
  lemma {:induction false} MarkedByRow(rows: seq<RowEvent>, rateLimit: int, d: Domain) returns (j: nat)
    requires d in FullSeen(rows, rateLimit)
    ensures j < |rows| && j in FullDispatched(rows, rateLimit)
    ensures rows[j].domain == d && rows[j].markAt == FullSeen(rows, rateLimit)[d]
  {
    hide RateLimited;
    var (front, r) := (rows[..|rows| - 1], rows[|rows| - 1]);
    if Goes(FullSeen(front, rateLimit), r, rateLimit) && r.domain == d != "" {
      j := |front|;
      assert FullDispatched(rows, rateLimit)[|FullDispatched(front, rateLimit)|] == j;
    } else {
      j := MarkedByRow(front, rateLimit, d);
      assert j in FullDispatched(rows, rateLimit);
    }
  }

  /** No row of this domain was dispatched less than the rate limit before this check. */
  ghost predicate Rested(rows: seq<RowEvent>, dispatched: seq<nat>, i: nat, rateLimit: int)
    requires i < |rows|
  {
    forall j :: 0 <= j < i && j in dispatched && rows[j].domain == rows[i].domain ==>
      rows[i].checkAt >= rows[j].markAt + rateLimit
  }

  lemma {:induction false} LastRowIff(rows: seq<RowEvent>, rateLimit: int)
    requires Monotone(rows) && rows != []
    ensures var (front, r) := (rows[..|rows| - 1], rows[|rows| - 1]);
      Goes(FullSeen(front, rateLimit), r, rateLimit) <==>
        r.accepted && (r.domain == "" || Rested(rows, FullDispatched(front, rateLimit), |front|, rateLimit))
  {
    var (front, r) := (rows[..|rows| - 1], rows[|rows| - 1]);
    forall j | 0 <= j < |front| && j in FullDispatched(front, rateLimit) && rows[j].domain == r.domain != ""
      ensures r.domain in FullSeen(front, rateLimit) && rows[j].markAt <= FullSeen(front, rateLimit)[r.domain]
    {
      FullRemembers(front, rateLimit, j);
    }
    if r.domain in FullSeen(front, rateLimit) { var j := MarkedByRow(front, rateLimit, r.domain); }
  }

  lemma {:induction false} FullDispatchedIff(rows: seq<RowEvent>, rateLimit: int, i: nat)
    requires Monotone(rows) && i < |rows|
    ensures i in FullDispatched(rows, rateLimit) <==>
      rows[i].accepted && (rows[i].domain == "" || Rested(rows, FullDispatched(rows, rateLimit), i, rateLimit))
  {
    hide Goes, FullSeen;
    var (front, r) := (rows[..|rows| - 1], rows[|rows| - 1]);
    LastRowIff(rows, rateLimit);
    SameBefore(rows, rateLimit);
    assert Rested(rows, FullDispatched(rows, rateLimit), i, rateLimit)
      <==> Rested(rows, FullDispatched(front, rateLimit), i, rateLimit);
    if i < |front| {
      FullDispatchedIff(front, rateLimit, i);
      assert forall j :: 0 <= j <= i ==> front[j] == rows[j];
      assert Rested(front, FullDispatched(front, rateLimit), i, rateLimit)
        <==> Rested(rows, FullDispatched(front, rateLimit), i, rateLimit);
    }
  }

  lemma {:induction false} SameBefore(rows: seq<RowEvent>, rateLimit: int)
    requires rows != []
    ensures forall j :: 0 <= j < |rows| - 1 ==>
      (j in FullDispatched(rows, rateLimit) <==> j in FullDispatched(rows[..|rows| - 1], rateLimit))
    ensures |rows| - 1 in FullDispatched(rows, rateLimit) <==>
      Goes(FullSeen(rows[..|rows| - 1], rateLimit), rows[|rows| - 1], rateLimit)
  {
    hide Goes, FullSeen;
    var front := FullDispatched(rows[..|rows| - 1], rateLimit);
    assert (front + [|rows| - 1])[|front|] == |rows| - 1;
  }

  /**
   * Over every run, with pruning, a row is dispatched exactly if the dispatcher takes it and its domain is
   * empty or was last dispatched at least the rate limit before.
   */
  lemma {:induction false} DispatchedIff(rows: seq<RowEvent>, rateLimit: int, i: nat)
    requires Monotone(rows) && i < |rows|
    ensures i in Dispatched(map[], rows, rateLimit) <==>
      rows[i].accepted && (rows[i].domain == "" || Rested(rows, Dispatched(map[], rows, rateLimit), i, rateLimit))
  {
    hide Dispatched, FullDispatched, Rested;
    PruningIsInvisible(rows, rateLimit);
    FullDispatchedIff(rows, rateLimit, i);
  }
}
