/**
 * Browser extension: the concurrency-limited queue of URL checks on a trusted surface. A job is denoted by
 * its position among all queued jobs. A reply arrives in two steps, as promise callbacks do: first the
 * result is cached and the job's callback called, later the slot is freed and the queue drained.
 */
module SurfaceQueue {
  import opened Wrappers

  type Key = string
  type Reply = string

  const MAX_CONCURRENT: nat := 4

  /**
   * `jobs` holds the keys of all jobs ever queued, `started` the jobs in the order in which their check was
   * sent, `called` those whose callback has run, in order, and `freed` those whose slot is free again.
   */
  datatype State = State(jobs: seq<Key>, pending: seq<nat>, inflight: nat, cache: map<Key, Reply>,
                         started: seq<nat>, called: seq<nat>, freed: set<nat>)

  const INITIAL: State := State([], [], 0, map[], [], [], {})

  function Drained(s: State): State
    decreases |s.pending|
  {
    if s.inflight < MAX_CONCURRENT && |s.pending| > 0 then
      Drained(s.(pending := s.pending[1..], inflight := s.inflight + 1, started := s.started + [s.pending[0]]))
    else s
  }

  /** A cached key answers at once; otherwise a job joins the queue. */
  function Queued(s: State, key: Key): State {
    if key in s.cache then s
    else Drained(s.(jobs := s.jobs + [key], pending := s.pending + [|s.jobs|]))
  }

  predicate AwaitsReply(s: State, job: nat) { job in s.started && job < |s.jobs| && job !in s.called }

  function Delivered(s: State, job: nat, r: Reply): State
    requires job < |s.jobs|
  {
    s.(cache := s.cache[s.jobs[job] := r], called := s.called + [job])
  }

  predicate HoldsSlot(s: State, job: nat) { job in s.called && job !in s.freed && s.inflight > 0 }

  function Freed(s: State, job: nat): State
    requires s.inflight > 0
  {
    Drained(s.(inflight := s.inflight - 1, freed := s.freed + {job}))
  }

  class Surface {
    var inflight: nat
    var pending: seq<nat>
    var cache: map<Key, Reply>
    var jobs: seq<Key>
    ghost var started: seq<nat>
    ghost var called: seq<nat>
    ghost var freed: set<nat>

    ghost function View(): State
      reads this
    {
      State(jobs, pending, inflight, cache, started, called, freed)
    }

    constructor ()
      ensures View() == INITIAL
    {
      inflight, pending, cache, jobs, started, called, freed := 0, [], map[], [], [], [], {};
    }

    method Drain()
      modifies this`inflight, this`pending, this`started
      ensures View() == Drained(old(View()))
    {
      while inflight < MAX_CONCURRENT && |pending| > 0
        invariant Drained(View()) == Drained(old(View()))
        decreases |pending|
      {
        ghost var job := pending[0];
        pending := pending[1..];
        inflight := inflight + 1;
        started := started + [job];
      }
    }

    /** Returns what the callback is given at once, if the key is cached. */
    method Queue(key: Key) returns (answer: Option<Reply>)
      modifies this
      ensures answer == if key in old(cache) then Some(old(cache[key])) else None
      ensures View() == Queued(old(View()), key)
    {
      if key in cache {
        return Some(cache[key]);
      }
      jobs, pending := jobs + [key], pending + [|jobs|];
      Drain();
      return None;
    }

    method OnReply(job: nat, r: Reply)
      requires job < |jobs|
      modifies this
      ensures View() == Delivered(old(View()), job, r)
    {
      cache := cache[jobs[job] := r];
      called := called + [job];
    }

    method OnSettled(ghost job: nat)
      requires inflight > 0
      modifies this
      ensures View() == Freed(old(View()), job)
    {
      inflight := inflight - 1;
      freed := freed + {job};
      Drain();
    }
  }

  // ----- runs

  datatype Event = Request(key: Key) | Answer(job: nat, r: Reply) | Settle(job: nat)

  function Next(s: State, e: Event): State {
    match e
    case Request(key) => Queued(s, key)
    case Answer(job, r) => if AwaitsReply(s, job) then Delivered(s, job, r) else s
    case Settle(job) => if HoldsSlot(s, job) then Freed(s, job) else s
  }

  function Run(es: seq<Event>): State {
    if es == [] then INITIAL else Next(Run(es[..|es| - 1]), es[|es| - 1])
  }

  ghost predicate Consecutive(s: seq<nat>, from: nat) { forall i :: 0 <= i < |s| ==> s[i] == from + i }

  ghost predicate Distinct(s: seq<nat>) { forall i, j :: 0 <= i < j < |s| ==> s[i] != s[j] }

  /** Everything but the work-conservation clause, which holds between steps only. */
  ghost predicate Ok(s: State) {
    && Consecutive(s.started, 0) && Consecutive(s.pending, |s.started|)
    && |s.started| + |s.pending| == |s.jobs|
    && Distinct(s.called) && (forall i :: i in s.called ==> i < |s.started|)
    && (forall i :: i in s.freed ==> i in s.called)
    && s.inflight + |s.freed| == |s.started| && s.inflight <= MAX_CONCURRENT
    && (forall k :: k in s.cache <==> exists i :: i in s.called && i < |s.jobs| && s.jobs[i] == k)
  }

  ghost predicate Busy(s: State) { s.pending != [] ==> s.inflight == MAX_CONCURRENT }

  lemma {:induction false} DrainedKeeps(s: State)
    requires Ok(s)
    ensures Ok(Drained(s)) && Busy(Drained(s))
    ensures Drained(s).jobs == s.jobs && Drained(s).called == s.called
    ensures Drained(s).freed == s.freed && Drained(s).cache == s.cache
    decreases |s.pending|
  {
    if s.inflight < MAX_CONCURRENT && |s.pending| > 0 {
      DrainedKeeps(s.(pending := s.pending[1..], inflight := s.inflight + 1, started := s.started + [s.pending[0]]));
    }
  }

  lemma {:induction false} QueuedKeeps(s: State, key: Key)
    requires Ok(s) && Busy(s)
    ensures Ok(Queued(s, key)) && Busy(Queued(s, key))
  {
    hide Drained;
    if key !in s.cache {
      var t := s.(jobs := s.jobs + [key], pending := s.pending + [|s.jobs|]);
      assert Ok(t) by {
        forall k ensures k in t.cache <==> exists i :: i in t.called && i < |t.jobs| && t.jobs[i] == k {
          if k in t.cache {
            var i :| i in s.called && i < |s.jobs| && s.jobs[i] == k;
            assert t.jobs[i] == k;
          }
        }
      }
      DrainedKeeps(t);
    }
  }

  lemma {:induction false} DeliveredKeeps(s: State, job: nat, r: Reply)
    requires Ok(s) && Busy(s) && AwaitsReply(s, job)
    ensures Ok(Delivered(s, job, r)) && Busy(Delivered(s, job, r))
  {
  }

  lemma {:induction false} FreedKeeps(s: State, job: nat)
    requires Ok(s) && Busy(s) && HoldsSlot(s, job)
    ensures Ok(Freed(s, job)) && Busy(Freed(s, job))
  {
    hide Drained;
    DrainedKeeps(s.(inflight := s.inflight - 1, freed := s.freed + {job}));
  }

  lemma {:induction false} Always(es: seq<Event>)
    ensures Ok(Run(es)) && Busy(Run(es))
  {
    hide Ok, Busy, Queued, Delivered, Freed;
    if es == [] {
      InitialOk();
    } else {
      var (s, e) := (Run(es[..|es| - 1]), es[|es| - 1]);
      Always(es[..|es| - 1]);
      match e
      case Request(key) => QueuedKeeps(s, key);
      case Answer(job, r) => if AwaitsReply(s, job) { DeliveredKeeps(s, job, r); }
      case Settle(job) => if HoldsSlot(s, job) { FreedKeeps(s, job); }
    }
  }

  lemma {:induction false} InitialOk()
    ensures Ok(INITIAL) && Busy(INITIAL)
  {
  }

  // ----- what the queue promises, in every interleaving

  /** At most four checks are in flight, and a job waits only while all four slots are taken. */
  lemma {:induction false} LimitedAndBusy(es: seq<Event>)
    ensures Run(es).inflight <= 4
    ensures Run(es).pending != [] ==> Run(es).inflight == 4
  {
    Always(es);
  }

  /** Every queued job is waiting, in flight or finished; nothing is lost or doubled. */
  lemma {:induction false} Conserved(es: seq<Event>)
    ensures var s := Run(es);
      |s.jobs| == |s.pending| + s.inflight + |s.freed| && s.started + s.pending == seq(|s.jobs|, i requires 0 <= i => i)
  {
    Always(es);
  }

  /** Checks start first in, first out, each job's once. */
  lemma {:induction false} StartsInOrder(es: seq<Event>, i: nat)
    requires i < |Run(es).started|
    ensures Run(es).started[i] == i && |Run(es).started| <= |Run(es).jobs|
  {
    Always(es);
  }

  function Elems(s: seq<nat>): (r: set<nat>)
    ensures forall x :: x in r <==> x in s
  {
    if s == [] then {}
    else
      assert s == s[..|s| - 1] + [s[|s| - 1]];
      Elems(s[..|s| - 1]) + {s[|s| - 1]}
  }

  function Upto(n: nat): (r: set<nat>)
    ensures |r| == n
    ensures forall x: nat :: x in r <==> x < n
  {
    if n == 0 then {}
    else
      assert n - 1 !in Upto(n - 1);
      Upto(n - 1) + {n - 1}
  }

  lemma {:induction false} CardOfSeq(s: seq<nat>)
    requires Distinct(s)
    ensures |Elems(s)| == |s|
  {
    if s != [] {
      CardOfSeq(s[..|s| - 1]);
      assert s[|s| - 1] !in s[..|s| - 1];
    }
  }

  lemma {:induction false} CardOfDistinct(s: seq<nat>, n: nat)
    requires Distinct(s) && forall i :: i in s ==> i < n
    ensures |s| <= n
    ensures |s| == n ==> forall i :: 0 <= i < n ==> i in s
  {
    CardOfSeq(s);
    CardOfSubset(Elems(s), Upto(n));
    if |s| == n {
      forall i | 0 <= i < n ensures i in s { assert i in Upto(n); }
    }
  }

  lemma {:induction false} CardOfSubset(a: set<nat>, b: set<nat>)
    requires a <= b
    ensures |a| <= |b| && (|a| == |b| ==> a == b)
  {
    if a != {} {
      var x :| x in a;
      CardOfSubset(a - {x}, b - {x});
    }
  }

  /** No callback runs twice; once nothing is in flight every callback has run, and nothing is left waiting. */
  lemma {:induction false} EveryCallbackOnce(es: seq<Event>)
    ensures Distinct(Run(es).called)
    ensures Run(es).inflight == 0 ==>
      Run(es).pending == [] && |Run(es).called| == |Run(es).jobs| &&
        forall job :: 0 <= job < |Run(es).jobs| ==> job in Run(es).called
  {
    hide Run;
    Always(es);
    var s := Run(es);
    var n := |s.started|;
    if s.inflight == 0 {
      CardOfDistinct(s.called, n);
      CardOfSeq(s.called);
      CardOfSubset(s.freed, Elems(s.called));
      assert |s.called| == n;
    }
  }

  /**
   * A request leads to a new check exactly when no job with that key has had its reply; so a URL is checked
   * again by every request made before the first reply, and never after it.
   */
  lemma {:induction false} CheckedAgainIff(es: seq<Event>, key: Key)
    ensures |Queued(Run(es), key).jobs| == |Run(es).jobs| + 1
      <==> forall i :: i in Run(es).called ==> i < |Run(es).jobs| && Run(es).jobs[i] != key
  {
    hide Run, Drained;
    Always(es);
    var s := Run(es);
    DrainedJobs(s.(jobs := s.jobs + [key], pending := s.pending + [|s.jobs|]));
  }

  lemma {:induction false} DrainedJobs(s: State)
    ensures Drained(s).jobs == s.jobs && Drained(s).called == s.called && Drained(s).cache == s.cache
    decreases |s.pending|
  {
    if s.inflight < MAX_CONCURRENT && |s.pending| > 0 {
      DrainedJobs(s.(pending := s.pending[1..], inflight := s.inflight + 1, started := s.started + [s.pending[0]]));
    }
  }

  /** Two requests for one key before any reply to it: two checks. */
  lemma {:induction false} CheckedTwice(es: seq<Event>, key: Key)
    requires forall i :: i in Run(es).called ==> i < |Run(es).jobs| && Run(es).jobs[i] != key
    ensures |Run(es + [Request(key)] + [Request(key)]).jobs| == |Run(es).jobs| + 2
  {
    hide Run, Drained;
    var a := es + [Request(key)];
    var b := a + [Request(key)];
    RunLast(es, Request(key));
    RunLast(a, Request(key));
    CheckedAgainIff(es, key);
    var s := Run(es);
    var t := s.(jobs := s.jobs + [key], pending := s.pending + [|s.jobs|]);
    DrainedJobs(t);
    assert key !in s.cache;
    assert Run(a) == Drained(t);
    Always(es);
    CheckedAgainIff(a, key);
    forall i | i in Run(a).called ensures i < |Run(a).jobs| && Run(a).jobs[i] != key {
      assert i in s.called && t.jobs[i] == s.jobs[i];
    }
  }

  lemma {:induction false} RunLast(es: seq<Event>, e: Event)
    ensures Run(es + [e]) == Next(Run(es), e)
  {
  }

  /** The last reply that came in for a job with this key. */
  function LastReply(es: seq<Event>, key: Key): Option<Reply> {
    if es == [] then None
    else
      var (front, e) := (es[..|es| - 1], es[|es| - 1]);
      var s := Run(front);
      if e.Answer? && AwaitsReply(s, e.job) && s.jobs[e.job] == key then Some(e.r) else LastReply(front, key)
  }

  /** The cache holds exactly the last reply for each key, so a cached answer is that reply. */
  lemma {:induction false} CacheHoldsLastReply(es: seq<Event>, key: Key)
    ensures LastReply(es, key) == if key in Run(es).cache then Some(Run(es).cache[key]) else None
  {
    if es != [] {
      var (front, e) := (es[..|es| - 1], es[|es| - 1]);
      var s := Run(front);
      CacheHoldsLastReply(front, key);
      match e
      case Request(k) => if k !in s.cache { DrainedJobs(s.(jobs := s.jobs + [k], pending := s.pending + [|s.jobs|])); }
      case Answer(_, _) =>
      case Settle(job) =>
        if HoldsSlot(s, job) { DrainedJobs(s.(inflight := s.inflight - 1, freed := s.freed + {job})); }
    }
  }

  /** A request whose key is not cached is queued under its own key, behind all others; nothing else makes a job. */
  lemma {:induction false} OnlyRequestsMakeJobs(es: seq<Event>, e: Event)
    ensures Next(Run(es), e).jobs ==
      Run(es).jobs + (if e.Request? && e.key !in Run(es).cache then [e.key] else [])
  {
    var s := Run(es);
    match e
    case Request(k) => if k !in s.cache { DrainedJobs(s.(jobs := s.jobs + [k], pending := s.pending + [|s.jobs|])); }
    case Answer(_, _) =>
    case Settle(job) => if HoldsSlot(s, job) { DrainedJobs(s.(inflight := s.inflight - 1, freed := s.freed + {job})); }
  }

  /** Every job that has been started and not answered can be answered; its callback runs and its reply is cached. */
  lemma {:induction false} RepliesAreDelivered(es: seq<Event>, job: nat, r: Reply)
    requires job in Run(es).started && job !in Run(es).called
    ensures var (s, t) := (Run(es), Next(Run(es), Answer(job, r)));
      t.called == s.called + [job] && job < |s.jobs| && t.cache == s.cache[s.jobs[job] := r]
  {
    hide Run;
    Always(es);
  }

  lemma {:induction false} OneSlotHeld(s: State, job: nat)
    requires Ok(s) && job in s.called && job !in s.freed
    ensures s.inflight > 0
  {
    CardOfSubset(s.freed + {job}, Upto(|s.started|));
  }

  /** Every answered job gives its slot back once, and the next waiting job takes it. */
  lemma {:induction false} SlotsAreFreed(es: seq<Event>, job: nat)
    requires job in Run(es).called && job !in Run(es).freed
    ensures var (s, t) := (Run(es), Next(Run(es), Settle(job)));
      && s.inflight > 0 && t.freed == s.freed + {job}
      && t.inflight == (if s.pending == [] then s.inflight - 1 else s.inflight)
      && t.started == s.started + (if s.pending == [] then [] else [s.pending[0]])
  {
    hide Run;
    Always(es);
    var s := Run(es);
    OneSlotHeld(s, job);
    var a := s.(inflight := s.inflight - 1, freed := s.freed + {job});
    if s.pending != [] {
      var b := a.(pending := a.pending[1..], inflight := a.inflight + 1, started := a.started + [a.pending[0]]);
      assert Drained(b) == b;
    }
  }
}
