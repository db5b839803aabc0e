/**
 * verdict-api: coalescing of sandbox renders. A call is denoted by its position in the order of
 * registration, which stands for the identity of the inflight record; a caller moves through the
 * atomic steps of `do`: the first critical section, the end of `fn`, the broadcast, the second
 * critical section, and for a follower the wake-up or the end of its own context.
 */
module Coalescer {
  import opened Wrappers

  type Key = string
  type Outcome = string  // response and error of `fn`, as one value

  const TTL: nat := 60_000

  /** `endedAt` is when `fn` returned; `closed` says that the outcome has been broadcast. */
  datatype Call = Call(key: Key, startedAt: nat, outcome: Option<Outcome>, endedAt: nat, closed: bool)

  datatype Phase =
    | Idle
    | Running(call: nat)                    // leader: `fn` is running
    | Broadcasting(call: nat)               // leader: outcome stored, channel not closed yet
    | Leaving(call: nat)                    // leader: before the second critical section
    | Waiting(call: nat, since: nat)        // follower
    | Returned(call: nat, outcome: Outcome) // with the outcome of that call
    | GaveUp(call: nat)                     // follower whose context ended

  datatype State = State(now: nat, registered: map<Key, nat>, calls: seq<Call>, callers: map<nat, Phase>)

  const FRESH: State := State(0, map[], [], map[])

  datatype Step =
    | Tick(ms: nat)
    | Enter(caller: nat, key: Key, lag: nat)
    | FnReturns(caller: nat, outcome: Outcome)
    | Close(caller: nat)
    | Leave(caller: nat)
    | Wake(caller: nat)
    | ContextEnds(caller: nat)

  function PhaseOf(s: State, c: nat): Phase {
    if c in s.callers then s.callers[c] else Idle
  }

  function Captures(s: State, key: Key): bool {
    key in s.registered && s.registered[key] < |s.calls| && s.now - s.calls[s.registered[key]].startedAt < TTL
  }

  /** The first critical section; a new record reads the clock again, `lag` after the age check. */
  function EnterStep(s: State, c: nat, key: Key, lag: nat): State {
    if Captures(s, key) then
      s.(callers := s.callers[c := Waiting(s.registered[key], s.now)])
    else
      s.(now := s.now + lag,
         registered := s.registered[key := |s.calls|],
         calls := s.calls + [Call(key, s.now + lag, None, 0, false)],
         callers := s.callers[c := Running(|s.calls|)])
  }

  function FnReturnsStep(s: State, c: nat, outcome: Outcome): State
    requires PhaseOf(s, c).Running? && PhaseOf(s, c).call < |s.calls|
  {
    var i := PhaseOf(s, c).call;
    s.(calls := s.calls[i := s.calls[i].(outcome := Some(outcome), endedAt := s.now)],
       callers := s.callers[c := Broadcasting(i)])
  }

  function CloseStep(s: State, c: nat): State
    requires PhaseOf(s, c).Broadcasting? && PhaseOf(s, c).call < |s.calls|
  {
    var i := PhaseOf(s, c).call;
    s.(calls := s.calls[i := s.calls[i].(closed := true)], callers := s.callers[c := Leaving(i)])
  }

  /** The second critical section: the record is removed only if it is still the registered one. */
  function LeaveStep(s: State, c: nat): State
    requires PhaseOf(s, c).Leaving? && PhaseOf(s, c).call < |s.calls| && s.calls[PhaseOf(s, c).call].outcome.Some?
  {
    var i := PhaseOf(s, c).call;
    var key := s.calls[i].key;
    s.(registered := if key in s.registered && s.registered[key] == i then s.registered - {key} else s.registered,
       callers := s.callers[c := Returned(i, s.calls[i].outcome.value)])
  }

  predicate Enabled(s: State, e: Step) {
    match e
    case Tick(_) => true
    case Enter(c, _, _) => PhaseOf(s, c).Idle? || PhaseOf(s, c).Returned? || PhaseOf(s, c).GaveUp?
    case FnReturns(c, _) => PhaseOf(s, c).Running? && PhaseOf(s, c).call < |s.calls|
    case Close(c) => PhaseOf(s, c).Broadcasting? && PhaseOf(s, c).call < |s.calls|
    case Leave(c) =>
      PhaseOf(s, c).Leaving? && PhaseOf(s, c).call < |s.calls| && s.calls[PhaseOf(s, c).call].outcome.Some?
    case Wake(c) =>
      PhaseOf(s, c).Waiting? && PhaseOf(s, c).call < |s.calls|
      && s.calls[PhaseOf(s, c).call].closed && s.calls[PhaseOf(s, c).call].outcome.Some?
    case ContextEnds(c) => PhaseOf(s, c).Waiting?
  }

  /** One step of any caller; a step that is not enabled does nothing. */
  function Next(s: State, e: Step): State {
    if !Enabled(s, e) then s else
    match e
    case Tick(ms) => s.(now := s.now + ms)
    case Enter(c, key, lag) => EnterStep(s, c, key, lag)
    case FnReturns(c, outcome) => FnReturnsStep(s, c, outcome)
    case Close(c) => CloseStep(s, c)
    case Leave(c) => LeaveStep(s, c)
    case Wake(c) =>
      var i := PhaseOf(s, c).call;
      s.(callers := s.callers[c := Returned(i, s.calls[i].outcome.value)])
    case ContextEnds(c) => s.(callers := s.callers[c := GaveUp(PhaseOf(s, c).call)])
  }

  /** The state after an interleaving of steps. */
  function Run(steps: seq<Step>): State {
    if steps == [] then FRESH else Next(Run(steps[..|steps| - 1]), steps[|steps| - 1])
  }

  // ----- the invariant

  /** The lifetimes of two calls of one key do not overlap, or they started a TTL apart. */
  predicate Apart(early: Call, late: Call) {
    early.key == late.key ==>
      early.startedAt + TTL <= late.startedAt || (early.outcome.Some? && early.endedAt <= late.startedAt)
  }

  ghost predicate CallsOk(s: State) {
    && (forall i :: 0 <= i < |s.calls| ==>
          s.calls[i].startedAt <= s.now
          && (s.calls[i].outcome.Some? ==> s.calls[i].startedAt <= s.calls[i].endedAt <= s.now)
          && (s.calls[i].closed ==> s.calls[i].outcome.Some?))
    && (forall i, j :: 0 <= i < j < |s.calls| ==>
          s.calls[i].startedAt <= s.calls[j].startedAt && Apart(s.calls[i], s.calls[j]))
  }

  /** The registered call of a key is its newest one; without one, the newest has ended. */
  ghost predicate RegisteredOk(s: State) {
    && (forall k :: k in s.registered ==> s.registered[k] < |s.calls| && s.calls[s.registered[k]].key == k)
    && (forall i :: 0 <= i < |s.calls| ==> Covered(s, i))
  }

  predicate Covered(s: State, i: nat)
    requires i < |s.calls|
  {
    var k := s.calls[i].key;
    if k in s.registered then i <= s.registered[k]
    else s.calls[i].outcome.Some? || exists j :: i < j < |s.calls| && s.calls[j].key == k
  }

  predicate CallerOk(s: State, p: Phase) {
    match p
    case Idle => true
    case Running(i) => i < |s.calls| && s.calls[i].outcome.None?
    case Broadcasting(i) => i < |s.calls| && s.calls[i].outcome.Some? && !s.calls[i].closed
    case Leaving(i) => i < |s.calls| && s.calls[i].outcome.Some? && s.calls[i].closed
    case Waiting(i, since) => i < |s.calls| && s.calls[i].startedAt <= since < s.calls[i].startedAt + TTL
    case Returned(i, o) => i < |s.calls| && s.calls[i].closed && s.calls[i].outcome == Some(o)
    case GaveUp(i) => i < |s.calls|
  }

  predicate IsLeader(p: Phase) { p.Running? || p.Broadcasting? || p.Leaving? }

  predicate Leads(p: Phase, i: nat) { IsLeader(p) && p.call == i }

  /** Different leaders lead different calls. */
  ghost predicate LeadersDiffer(callers: map<nat, Phase>) {
    forall c, d | c in callers && d in callers && c != d && IsLeader(callers[c]) && IsLeader(callers[d]) ::
      callers[c].call != callers[d].call
  }

  ghost predicate CallersOk(s: State) {
    && (forall c :: c in s.callers ==> CallerOk(s, s.callers[c]))
    && LeadersDiffer(s.callers)
    && (forall i :: 0 <= i < |s.calls| && !s.calls[i].closed ==> Led(s, i))
  }

  ghost predicate Led(s: State, i: nat) { exists c :: c in s.callers && Leads(s.callers[c], i) }

  ghost predicate Inv(s: State) { CallsOk(s) && RegisteredOk(s) && CallersOk(s) }

  // ----- every step keeps the invariant

  lemma {:induction false} NewCallKeepsCalls(s: State, c: nat, key: Key, lag: nat)
    requires Inv(s) && !Captures(s, key)
    ensures CallsOk(EnterStep(s, c, key, lag))
  {
    hide CallersOk;
    var t := EnterStep(s, c, key, lag);
    var new_ := t.calls[|s.calls|];
    forall i | 0 <= i < |s.calls| ensures Apart(s.calls[i], new_) {
      if s.calls[i].key == key { NewCallIsApart(s, key, i, new_); }
    }
  }

  lemma {:induction false} NewCallIsApart(s: State, key: Key, i: nat, late: Call)
    requires CallsOk(s) && RegisteredOk(s) && !Captures(s, key)
    requires i < |s.calls| && s.calls[i].key == key == late.key && late.startedAt >= s.now
    ensures Apart(s.calls[i], late)
    decreases |s.calls| - i
  {
    assert Covered(s, i);
    if key in s.registered {
      var r := s.registered[key];
      if i < r { assert Apart(s.calls[i], s.calls[r]); }
    } else if s.calls[i].outcome.None? {
      var j :| i < j < |s.calls| && s.calls[j].key == key;
      NewCallIsApart(s, key, j, late);
      assert Apart(s.calls[i], s.calls[j]);
    }
  }

  lemma {:induction false} NewCallKeepsRegistered(s: State, c: nat, key: Key, lag: nat)
    requires Inv(s) && !Captures(s, key)
    ensures RegisteredOk(EnterStep(s, c, key, lag))
  {
    hide CallersOk, CallsOk;
    var t := EnterStep(s, c, key, lag);
    forall i | 0 <= i < |t.calls| ensures Covered(t, i) {
      if i < |s.calls| && s.calls[i].key != key {
        assert Covered(s, i);
        if s.calls[i].key !in s.registered && s.calls[i].outcome.None? {
          var j :| i < j < |s.calls| && s.calls[j].key == s.calls[i].key;
          assert t.calls[j] == s.calls[j];
        }
      }
    }
  }

  /** Only caller `c` moves; it stays out of every other leader's call. */
  ghost predicate Moves(s: State, t: State, c: nat) {
    && c in t.callers && t.callers == s.callers[c := t.callers[c]]
    && (IsLeader(t.callers[c]) ==>
          t.callers[c].call == |s.calls| || (c in s.callers && Leads(s.callers[c], t.callers[c].call)))
  }

  lemma {:induction false} LeadersStayDifferent(s: State, t: State, c: nat)
    requires CallersOk(s) && Moves(s, t, c)
    ensures LeadersDiffer(t.callers)
  {
  }

  lemma {:induction false} EnterKeepsCallers(s: State, c: nat, key: Key, lag: nat)
    requires Inv(s) && Enabled(s, Enter(c, key, lag))
    ensures CallersOk(EnterStep(s, c, key, lag))
  {
    var t := EnterStep(s, c, key, lag);
    LeadersStayDifferent(s, t, c);
    forall d | d in t.callers ensures CallerOk(t, t.callers[d]) {
      if d != c { assert CallerOk(s, s.callers[d]); }
    }
    forall i | 0 <= i < |t.calls| && !t.calls[i].closed ensures Led(t, i) {
      if i < |s.calls| {
        assert Led(s, i);
        var d :| d in s.callers && Leads(s.callers[d], i);
        assert d != c && t.callers[d] == s.callers[d];
      } else {
        assert Leads(t.callers[c], i);
      }
    }
  }

  /** The record of call `i` is rewritten by its own leader, which goes on leading it. */
  lemma {:induction false} RewriteKeepsCallers(s: State, t: State, c: nat, i: nat)
    requires Inv(s) && c in s.callers && Leads(s.callers[c], i) && i < |s.calls|
    requires c in t.callers && t.callers == s.callers[c := t.callers[c]] && Leads(t.callers[c], i)
    requires |t.calls| == |s.calls| && t.calls == s.calls[i := t.calls[i]]
    requires t.calls[i].key == s.calls[i].key && t.calls[i].startedAt == s.calls[i].startedAt
    requires s.calls[i].closed ==> t.calls[i] == s.calls[i]
    requires CallerOk(t, t.callers[c])
    ensures CallersOk(t)
  {
    LeadersStayDifferent(s, t, c);
    forall d | d in t.callers ensures CallerOk(t, t.callers[d]) {
      if d != c {
        assert CallerOk(s, s.callers[d]);
        assert IsLeader(s.callers[d]) ==> s.callers[d].call != i;
      }
    }
    forall k | 0 <= k < |t.calls| && !t.calls[k].closed ensures Led(t, k) {
      if k == i {
        assert Leads(t.callers[c], k);
      } else {
        assert Led(s, k);
        var d :| d in s.callers && Leads(s.callers[d], k);
        assert d != c && t.callers[d] == s.callers[d];
      }
    }
  }

  /** A caller that does not lead an open call moves on; no record changes. */
  lemma {:induction false} MoveKeepsCallers(s: State, t: State, c: nat)
    requires CallersOk(s) && c in s.callers && t.calls == s.calls
    requires IsLeader(s.callers[c]) ==> s.callers[c].call < |s.calls| && s.calls[s.callers[c].call].closed
    requires c in t.callers && t.callers == s.callers[c := t.callers[c]] && !IsLeader(t.callers[c])
    requires CallerOk(t, t.callers[c])
    ensures CallersOk(t)
  {
    LeadersStayDifferent(s, t, c);
    forall d | d in t.callers ensures CallerOk(t, t.callers[d]) {
      if d != c { assert CallerOk(s, s.callers[d]); }
    }
    forall k | 0 <= k < |t.calls| && !t.calls[k].closed ensures Led(t, k) {
      assert Led(s, k);
      var d :| d in s.callers && Leads(s.callers[d], k);
      assert d != c && t.callers[d] == s.callers[d];
    }
  }

  lemma {:induction false} FnReturnsKeeps(s: State, c: nat, outcome: Outcome)
    requires Inv(s) && Enabled(s, FnReturns(c, outcome))
    ensures Inv(FnReturnsStep(s, c, outcome))
  {
    var (i, t) := (PhaseOf(s, c).call, FnReturnsStep(s, c, outcome));
    assert CallerOk(s, s.callers[c]);
    assert CallsOk(t) by { hide CallersOk, RegisteredOk; }
    assert RegisteredOk(t) by {
      hide CallersOk, CallsOk;
      RewriteKeepsRegistered(s, t, i);
    }
    RewriteKeepsCallers(s, t, c, i);
  }

  lemma {:induction false} RewriteKeepsRegistered(s: State, t: State, i: nat)
    requires RegisteredOk(s) && i < |s.calls| == |t.calls| && t.calls == s.calls[i := t.calls[i]]
    requires t.calls[i].key == s.calls[i].key && (s.calls[i].outcome.Some? ==> t.calls[i].outcome.Some?)
    requires t.registered == s.registered
    ensures RegisteredOk(t)
  {
    forall k | 0 <= k < |t.calls| ensures Covered(t, k) {
      assert Covered(s, k);
      if s.calls[k].key !in s.registered && t.calls[k].outcome.None? {
        var j :| k < j < |s.calls| && s.calls[j].key == s.calls[k].key;
        assert t.calls[j].key == t.calls[k].key;
      }
    }
  }

  lemma {:induction false} CloseKeeps(s: State, c: nat)
    requires Inv(s) && Enabled(s, Close(c))
    ensures Inv(CloseStep(s, c))
  {
    var (i, t) := (PhaseOf(s, c).call, CloseStep(s, c));
    assert CallerOk(s, s.callers[c]);
    assert CallsOk(t) by { hide CallersOk, RegisteredOk; }
    assert RegisteredOk(t) by {
      hide CallersOk, CallsOk;
      RewriteKeepsRegistered(s, t, i);
    }
    RewriteKeepsCallers(s, t, c, i);
  }

  lemma {:induction false} LeaveKeeps(s: State, c: nat)
    requires Inv(s) && Enabled(s, Leave(c))
    ensures Inv(LeaveStep(s, c))
  {
    var (i, t) := (PhaseOf(s, c).call, LeaveStep(s, c));
    assert CallerOk(s, s.callers[c]);
    assert CallsOk(t) by { hide CallersOk, RegisteredOk; }
    assert RegisteredOk(t) by {
      hide CallersOk, CallsOk;
      LeaveKeepsRegistered(s, t, i);
    }
    MoveKeepsCallers(s, t, c);
  }

  lemma {:induction false} LeaveKeepsRegistered(s: State, t: State, i: nat)
    requires RegisteredOk(s) && i < |s.calls| && s.calls[i].outcome.Some? && t.calls == s.calls
    requires var key := s.calls[i].key;
      t.registered == if key in s.registered && s.registered[key] == i then s.registered - {key} else s.registered
    ensures RegisteredOk(t)
  {
    forall k | 0 <= k < |t.calls| ensures Covered(t, k) {
      assert Covered(s, k);
      if s.calls[k].key in s.registered && s.calls[k].key !in t.registered && k < i {
        assert t.calls[i].key == t.calls[k].key;
      } else if s.calls[k].key !in s.registered && s.calls[k].outcome.None? {
        var j :| k < j < |s.calls| && s.calls[j].key == s.calls[k].key;
        assert t.calls[j].key == t.calls[k].key;
      }
    }
  }

  lemma {:induction false} SameCallsKeep(s: State, t: State)
    requires CallsOk(s) && RegisteredOk(s)
    requires t.calls == s.calls && t.registered == s.registered && t.now >= s.now
    ensures CallsOk(t) && RegisteredOk(t)
  {
    forall k | 0 <= k < |t.calls| ensures Covered(t, k) {
      assert Covered(s, k);
      if s.calls[k].key !in s.registered && s.calls[k].outcome.None? {
        var j :| k < j < |s.calls| && s.calls[j].key == s.calls[k].key;
        assert t.calls[j].key == t.calls[k].key;
      }
    }
  }

  lemma {:induction false} NextKeeps(s: State, e: Step)
    requires Inv(s)
    ensures Inv(Next(s, e))
  {
    hide CallersOk, RegisteredOk, CallsOk, CallerOk;
    if Enabled(s, e) {
      match e
      case Tick(ms) => SameCallsKeep(s, Next(s, e)); TickKeepsCallers(s, ms);
      case Enter(c, key, lag) =>
        EnterKeepsCallers(s, c, key, lag);
        if Captures(s, key) {
          SameCallsKeep(s, Next(s, e));
        } else {
          NewCallKeepsCalls(s, c, key, lag);
          NewCallKeepsRegistered(s, c, key, lag);
        }
      case FnReturns(c, outcome) => FnReturnsKeeps(s, c, outcome);
      case Close(c) => CloseKeeps(s, c);
      case Leave(c) => LeaveKeeps(s, c);
      case Wake(c) => SameCallsKeep(s, Next(s, e)); FollowerKeepsCallers(s, e, c);
      case ContextEnds(c) => SameCallsKeep(s, Next(s, e)); FollowerKeepsCallers(s, e, c);
    }
  }

  lemma {:induction false} TickKeepsCallers(s: State, ms: nat)
    requires CallersOk(s)
    ensures CallersOk(s.(now := s.now + ms))
  {
  }

  lemma {:induction false} FollowerKeepsCallers(s: State, e: Step, c: nat)
    requires CallersOk(s) && (e == Wake(c) || e == ContextEnds(c)) && Enabled(s, e)
    ensures CallersOk(Next(s, e))
  {
    assert CallerOk(s, s.callers[c]);
    MoveKeepsCallers(s, Next(s, e), c);
  }

  lemma {:induction false} RunKeeps(steps: seq<Step>)
    ensures Inv(Run(steps))
  {
    hide Next, CallersOk, RegisteredOk, CallsOk;
    if steps == [] {
      FreshOk();
    } else {
      RunKeeps(steps[..|steps| - 1]);
      NextKeeps(Run(steps[..|steps| - 1]), steps[|steps| - 1]);
    }
  }

  lemma {:induction false} FreshOk()
    ensures Inv(FRESH)
  {
  }

  // ----- what callers can rely on, in every interleaving

  /** `fn` is running on behalf of call `i` at time `t`. */
  predicate RunsAt(call: Call, t: nat) {
    call.startedAt <= t && (call.outcome.Some? ==> t < call.endedAt)
  }

  /** Two runs of `fn` for one key that overlap started at least one TTL apart. */
  lemma {:induction false} OverlapsAreApart(steps: seq<Step>, i: nat, j: nat, t: nat)
    requires i < j < |Run(steps).calls| && Run(steps).calls[i].key == Run(steps).calls[j].key
    requires RunsAt(Run(steps).calls[i], t) && RunsAt(Run(steps).calls[j], t)
    ensures Run(steps).calls[i].startedAt + 60_000 <= Run(steps).calls[j].startedAt
  {
    RunKeeps(steps);
    assert Apart(Run(steps).calls[i], Run(steps).calls[j]);
  }

  /** Every call has at most one leader, and one as long as its outcome has not been broadcast. */
  lemma {:induction false} OneLeader(steps: seq<Step>, i: nat)
    requires i < |Run(steps).calls| && !Run(steps).calls[i].closed
    ensures exists c :: c in Run(steps).callers && Leads(Run(steps).callers[c], i)
              && forall d :: d in Run(steps).callers && Leads(Run(steps).callers[d], i) ==> d == c
  {
    RunKeeps(steps);
    var s := Run(steps);
    assert Led(s, i);
    var c :| c in s.callers && Leads(s.callers[c], i);
  }

  lemma {:induction false} NextKeepsOutcome(s: State, e: Step, i: nat)
    requires Inv(s) && i < |s.calls|
    ensures i < |Next(s, e).calls| && Next(s, e).calls[i].key == s.calls[i].key
    ensures s.calls[i].outcome.Some? ==> Next(s, e).calls[i].outcome == s.calls[i].outcome
  {
  }

  lemma {:induction false} OutcomeIsFinal(steps: seq<Step>, more: seq<Step>, i: nat)
    requires i < |Run(steps).calls|
    ensures i < |Run(steps + more).calls|
    ensures Run(steps).calls[i].outcome.Some? ==> Run(steps + more).calls[i].outcome == Run(steps).calls[i].outcome
  {
    hide Next, Inv;
    if more == [] {
      assert steps + more == steps;
    } else {
      var m := more[..|more| - 1];
      OutcomeIsFinal(steps, m, i);
      RunKeeps(steps + m);
      NextKeepsOutcome(Run(steps + m), more[|more| - 1], i);
      assert (steps + more)[..|steps + more| - 1] == steps + m;
    }
  }

  /**
   * Whoever returns without an error of its own context, leader or follower, returns what `fn` returned
   * for the call it led or joined; the outcome is set by then and never changes afterwards.
   */
  lemma {:induction false} ReturnsTheCallsOutcome(steps: seq<Step>, more: seq<Step>, c: nat)
    requires c in Run(steps).callers && Run(steps).callers[c].Returned?
    ensures var p := Run(steps).callers[c];
      p.call < |Run(steps + more).calls| && Run(steps + more).calls[p.call].outcome == Some(p.outcome)
  {
    RunKeeps(steps);
    assert CallerOk(Run(steps), Run(steps).callers[c]);
    OutcomeIsFinal(steps, more, Run(steps).callers[c].call);
  }

  /** A registered record disappears only by its own leader's hand once broadcast, or replaced after its TTL. */
  lemma {:induction false} SuccessorIsKept(steps: seq<Step>, e: Step, key: Key)
    requires key in Run(steps).registered
    requires var t := Next(Run(steps), e); key !in t.registered || t.registered[key] != Run(steps).registered[key]
    ensures var (s, t, i) := (Run(steps), Next(Run(steps), e), Run(steps).registered[key]);
      i < |s.calls| &&
      ((e.Leave? && e.caller in s.callers && Leads(s.callers[e.caller], i) && s.calls[i].closed)
       || (e.Enter? && e.key == key && s.now >= s.calls[i].startedAt + 60_000
           && key in t.registered && t.registered[key] == |s.calls|))
  {
    RunKeeps(steps);
    var s := Run(steps);
    if e.Leave? && Enabled(s, e) { assert CallerOk(s, s.callers[e.caller]); }
  }

  /** A follower joined its call before the TTL was over, so an unfinished leader captures nobody later. */
  lemma {:induction false} CapturedBeforeTtl(steps: seq<Step>, c: nat)
    requires c in Run(steps).callers && Run(steps).callers[c].Waiting?
    ensures var p := Run(steps).callers[c];
      p.call < |Run(steps).calls| && p.since < Run(steps).calls[p.call].startedAt + 60_000
  {
    RunKeeps(steps);
    assert CallerOk(Run(steps), Run(steps).callers[c]);
  }

  /** Once the registered call of a key is a TTL old, the next caller of that key runs `fn` itself. */
  lemma {:induction false} WedgedCallIsReplaced(steps: seq<Step>, c: nat, key: Key, lag: nat)
    requires Enabled(Run(steps), Enter(c, key, lag)) && key in Run(steps).registered
    ensures var (s, t) := (Run(steps), Next(Run(steps), Enter(c, key, lag)));
      s.registered[key] < |s.calls| &&
      (s.now >= s.calls[s.registered[key]].startedAt + 60_000 <==> PhaseOf(t, c) == Running(|s.calls|))
  {
    RunKeeps(steps);
  }

  // ----- who joins, who leads, and what they get, by the callers alone

  ghost predicate Newest(s: State, i: nat) {
    i < |s.calls| && forall j :: i < j < |s.calls| ==> s.calls[j].key != s.calls[i].key
  }

  /** Exactly the newest call of a key that still has its leader is registered. */
  ghost predicate RegisteredAreLed(s: State) {
    && (forall k :: k in s.registered ==> Led(s, s.registered[k]))
    && (forall i: nat :: Newest(s, i) && Led(s, i) ==>
          s.calls[i].key in s.registered && s.registered[s.calls[i].key] == i)
  }

  /** Who leads a call after caller `c` alone has moved. */
  lemma {:induction false} LedAfter(s: State, t: State, c: nat, i: nat)
    requires LeadersDiffer(s.callers) && c in t.callers && t.callers == s.callers[c := t.callers[c]]
    ensures Led(t, i) <==> Leads(t.callers[c], i) || (Led(s, i) && !(c in s.callers && Leads(s.callers[c], i)))
  {
    if Leads(t.callers[c], i) {
      assert Led(t, i);
    } else if Led(s, i) {
      var d :| d in s.callers && Leads(s.callers[d], i);
      assert d != c ==> t.callers[d] == s.callers[d];
    }
  }

  /** Steps that register and remove nothing keep every leader. */
  lemma {:induction false} LeadersStay(s: State, e: Step, i: nat)
    requires Inv(s) && !e.Leave? && !(e.Enter? && !Captures(s, e.key))
    ensures Led(Next(s, e), i) <==> Led(s, i)
  {
    hide CallsOk, RegisteredOk, CallerOk;
    if Enabled(s, e) && !e.Tick? { LedAfter(s, Next(s, e), e.caller, i); }
  }

  lemma {:induction false} OthersKeepLed(s: State, e: Step)
    requires Inv(s) && RegisteredAreLed(s) && !e.Leave? && !(e.Enter? && !Captures(s, e.key))
    ensures RegisteredAreLed(Next(s, e))
  {
    hide Inv, Led, CallsOk, CallersOk;
    var t := Next(s, e);
    SameRecords(s, e);
    forall k | k in t.registered ensures Led(t, t.registered[k]) { LeadersStay(s, e, t.registered[k]); }
    forall i: nat | Newest(t, i) && Led(t, i)
      ensures t.calls[i].key in t.registered && t.registered[t.calls[i].key] == i
    {
      LeadersStay(s, e, i);
      assert Newest(s, i);
    }
  }

  lemma {:induction false} SameRecords(s: State, e: Step)
    requires !e.Leave? && !(e.Enter? && !Captures(s, e.key))
    ensures var t := Next(s, e);
      && t.registered == s.registered && |t.calls| == |s.calls|
      && forall i :: 0 <= i < |s.calls| ==> t.calls[i].key == s.calls[i].key
  {
  }

  lemma {:induction false} EnterKeepsLed(s: State, e: Step)
    requires Inv(s) && RegisteredAreLed(s) && e.Enter? && Enabled(s, e) && !Captures(s, e.key)
    ensures RegisteredAreLed(Next(s, e))
  {
    hide CallsOk, CallerOk, Led;
    var t := Next(s, e);
    assert t.callers == s.callers[e.caller := t.callers[e.caller]];
    forall k | k in t.registered ensures Led(t, t.registered[k]) { LedAfter(s, t, e.caller, t.registered[k]); }
    forall i: nat | Newest(t, i) && Led(t, i)
      ensures t.calls[i].key in t.registered && t.registered[t.calls[i].key] == i
    {
      LedAfter(s, t, e.caller, i);
      if i < |s.calls| {
        assert t.calls[|s.calls|].key == e.key;
        assert forall j :: i < j < |s.calls| ==> t.calls[j] == s.calls[j];
        assert Newest(s, i);
      }
    }
  }

  lemma {:induction false} LeaveKeepsLed(s: State, e: Step)
    requires Inv(s) && RegisteredAreLed(s) && e.Leave? && Enabled(s, e)
    ensures RegisteredAreLed(Next(s, e))
  {
    hide CallsOk, CallerOk, Led;
    var t := Next(s, e);
    var i0 := PhaseOf(s, e.caller).call;
    forall k | k in t.registered ensures Led(t, t.registered[k]) { LedAfter(s, t, e.caller, t.registered[k]); }
    forall i: nat | Newest(t, i) && Led(t, i)
      ensures t.calls[i].key in t.registered && t.registered[t.calls[i].key] == i
    {
      LedAfter(s, t, e.caller, i);
      assert Newest(s, i);
    }
  }

  lemma {:induction false} RunRegistersLed(steps: seq<Step>)
    ensures RegisteredAreLed(Run(steps))
  {
    hide Next, Enabled, Captures, Inv, RegisteredAreLed;
    if steps == [] {
      NothingRegistered();
    } else {
      var (s, e) := (Run(steps[..|steps| - 1]), steps[|steps| - 1]);
      RunKeeps(steps[..|steps| - 1]);
      RunRegistersLed(steps[..|steps| - 1]);
      if !Enabled(s, e) {
        NotEnabled(s, e);
      } else if e.Leave? {
        LeaveKeepsLed(s, e);
      } else if e.Enter? && !Captures(s, e.key) {
        EnterKeepsLed(s, e);
      } else {
        OthersKeepLed(s, e);
      }
    }
  }

  lemma {:induction false} NothingRegistered()
    ensures RegisteredAreLed(FRESH)
  {
  }

  lemma {:induction false} NotEnabled(s: State, e: Step)
    requires !Enabled(s, e)
    ensures Next(s, e) == s
  {
  }

  /** A call a caller of this key can join: led, the newest of its key, and less than sixty seconds old. */
  ghost predicate Joinable(s: State, key: Key, i: nat) {
    Newest(s, i) && s.calls[i].key == key && Led(s, i) && s.now < s.calls[i].startedAt + 60_000
  }

  /**
   * In every interleaving a caller that comes in waits exactly for a call that is still led, the newest of
   * its key and less than sixty seconds old; where there is none, and only there, it leads a new call.
   */
  lemma {:induction false} JoinsIff(steps: seq<Step>, c: nat, key: Key, lag: nat)
    requires Enabled(Run(steps), Enter(c, key, lag))
    ensures var (s, t) := (Run(steps), Next(Run(steps), Enter(c, key, lag)));
      && (forall i: nat :: PhaseOf(t, c) == Waiting(i, s.now) <==> Joinable(s, key, i))
      && ((exists i: nat :: Joinable(s, key, i)) ==> t.calls == s.calls)
      && ((forall i: nat :: !Joinable(s, key, i)) ==>
            PhaseOf(t, c) == Running(|s.calls|) && t.calls == s.calls + [Call(key, s.now + lag, None, 0, false)])
  {
    hide Led, CallsOk, CallersOk;
    RunKeeps(steps);
    RunRegistersLed(steps);
    var s := Run(steps);
    if key in s.registered {
      RegisteredIsNewest(s, key);
      assert Led(s, s.registered[key]);
    }
    if Captures(s, key) { assert Joinable(s, key, s.registered[key]); }
  }

  lemma {:induction false} RegisteredIsNewest(s: State, key: Key)
    requires RegisteredOk(s) && key in s.registered
    ensures Newest(s, s.registered[key]) && s.calls[s.registered[key]].key == key
  {
    forall j | s.registered[key] < j < |s.calls| ensures s.calls[j].key != key { assert Covered(s, j); }
  }

  /** A caller of a key that no caller leads a call of runs `fn` itself, however young the last outcome is. */
  lemma {:induction false} NothingLedStartsAfresh(steps: seq<Step>, c: nat, key: Key, lag: nat)
    requires Enabled(Run(steps), Enter(c, key, lag))
    requires forall i: nat :: i < |Run(steps).calls| && Led(Run(steps), i) ==> Run(steps).calls[i].key != key
    ensures PhaseOf(Next(Run(steps), Enter(c, key, lag)), c) == Running(|Run(steps).calls|)
  {
    hide Run, Next, Led;
    JoinsIff(steps, c, key, lag);
    assert forall i: nat :: !Joinable(Run(steps), key, i);
  }

  /** Step `k` of the run is the return of `fn` in the leader of call `i`, with this outcome. */
  ghost predicate FnReturned(steps: seq<Step>, k: nat, i: nat, outcome: Outcome) {
    && k < |steps| && steps[k].FnReturns? && steps[k].outcome == outcome
    && PhaseOf(Run(steps[..k]), steps[k].caller) == Running(i)
  }

  /** The outcome of a call is what `fn` returned to its leader. */
  lemma {:induction false} OutcomeIsWhatFnReturned(steps: seq<Step>, i: nat)
    requires i < |Run(steps).calls| && Run(steps).calls[i].outcome.Some?
    ensures exists k: nat :: FnReturned(steps, k, i, Run(steps).calls[i].outcome.value)
  {
    var (front, e) := (steps[..|steps| - 1], steps[|steps| - 1]);
    var s := Run(front);
    if i < |s.calls| && s.calls[i].outcome.Some? {
      hide Next, Inv;
      RunKeeps(front);
      NextKeepsOutcome(s, e, i);
      OutcomeIsWhatFnReturned(front, i);
      var k: nat :| FnReturned(front, k, i, s.calls[i].outcome.value);
      assert steps[..k] == front[..k];
      assert FnReturned(steps, k, i, s.calls[i].outcome.value);
    } else {
      SetsOutcome(s, e, i);
      assert FnReturned(steps, |front|, i, Run(steps).calls[i].outcome.value);
    }
  }

  lemma {:induction false} SetsOutcome(s: State, e: Step, i: nat)
    requires i < |Next(s, e).calls| && Next(s, e).calls[i].outcome.Some?
    requires i < |s.calls| ==> s.calls[i].outcome.None?
    ensures e.FnReturns? && Next(s, e).calls[i].outcome == Some(e.outcome) && PhaseOf(s, e.caller) == Running(i)
  {
  }

  /**
   * In every interleaving, once `fn` has returned, its leader's two remaining steps hand the outcome to the
   * leader and to every follower that wakes then.
   */
  lemma {:induction false} EveryoneGetsTheOutcome(steps: seq<Step>, c: nat, d: nat, i: nat, since: nat,
          outcome: Outcome)
    requires PhaseOf(Run(steps), c) == Running(i) && PhaseOf(Run(steps), d) == Waiting(i, since)
    ensures var t := Next(Next(Next(Next(Run(steps), FnReturns(c, outcome)), Close(c)), Leave(c)), Wake(d));
      PhaseOf(t, c) == PhaseOf(t, d) == Returned(i, outcome) && !Led(t, i)
  {
    hide CallsOk, RegisteredOk;
    RunKeeps(steps);
    var s := Run(steps);
    assert CallerOk(s, s.callers[c]);
    var a := Next(s, FnReturns(c, outcome));
    var b := Next(a, Close(c));
    var t := Next(Next(b, Leave(c)), Wake(d));
    forall x | x in t.callers ensures !Leads(t.callers[x], i) {
      if x != c && x != d { assert t.callers[x] == s.callers[x]; }
    }
  }

  /** A follower whose own context ends gives up, and disturbs nobody. */
  lemma {:induction false} GivingUpIsAlone(s: State, c: nat, i: nat, since: nat)
    requires PhaseOf(s, c) == Waiting(i, since)
    ensures var t := Next(s, ContextEnds(c));
      && PhaseOf(t, c) == GaveUp(i) && t.calls == s.calls && t.registered == s.registered && t.now == s.now
      && forall d :: d != c ==> PhaseOf(t, d) == PhaseOf(s, d)
  {
  }

  // ----- the shared object

  /** The map under the mutex and the inflight records; the clock and the callers' places are ghost. */
  class Group {
    var registered: map<Key, nat>
    var calls: seq<Call>
    ghost var now: nat
    ghost var callers: map<nat, Phase>

    ghost function View(): State
      reads this
    {
      State(now, registered, calls, callers)
    }

    constructor ()
      ensures View() == FRESH
    {
      registered, calls, now, callers := map[], [], 0, map[];
    }

    /** First critical section, entered at time `t`: joins the registered call or registers a new one. */
    method Enter(ghost c: nat, key: Key, t: nat, lag: nat) returns (call: nat, leader: bool)
      requires Inv(View()) && t >= now && Enabled(View(), Step.Enter(c, key, lag))
      modifies this
      ensures View() == Next(Next(old(View()), Tick(t - old(now))), Step.Enter(c, key, lag))
      ensures PhaseOf(View(), c) == if leader then Running(call) else Waiting(call, t)
    {
      hide CallersOk, CallsOk, Covered;
      if key in registered && t - calls[registered[key]].startedAt < TTL {
        call, leader := registered[key], false;
        now, callers := t, callers[c := Waiting(call, t)];
        return;
      }
      registered := registered - {key};
      call, leader := |calls|, true;
      calls := calls + [Call(key, t + lag, None, 0, false)];
      registered := registered[key := call];
      now, callers := t + lag, callers[c := Running(call)];
    }

    /** The leader stores what `fn` returned at time `t`. */
    method Store(ghost c: nat, call: nat, outcome: Outcome, t: nat)
      requires Inv(View()) && t >= now && PhaseOf(View(), c) == Running(call)
      modifies this
      ensures View() == Next(Next(old(View()), Tick(t - old(now))), FnReturns(c, outcome))
    {
      assert CallerOk(View(), callers[c]);
      calls := calls[call := calls[call].(outcome := Some(outcome), endedAt := t)];
      now, callers := t, callers[c := Broadcasting(call)];
    }

    method Broadcast(ghost c: nat, call: nat)
      requires Inv(View()) && PhaseOf(View(), c) == Broadcasting(call)
      modifies this
      ensures View() == Next(old(View()), Close(c))
    {
      assert CallerOk(View(), callers[c]);
      calls := calls[call := calls[call].(closed := true)];
      callers := callers[c := Leaving(call)];
    }

    /** Second critical section. */
    method Remove(ghost c: nat, call: nat) returns (outcome: Outcome)
      requires Inv(View()) && PhaseOf(View(), c) == Leaving(call)
      modifies this
      ensures View() == Next(old(View()), Leave(c))
      ensures PhaseOf(View(), c) == Returned(call, outcome)
    {
      assert CallerOk(View(), callers[c]);
      var key := calls[call].key;
      if key in registered && registered[key] == call {
        registered := registered - {key};
      }
      outcome := calls[call].outcome.value;
      callers := callers[c := Returned(call, outcome)];
    }

    /** A follower is woken by the broadcast and reads the stored outcome. */
    method Join(ghost c: nat, call: nat, ghost since: nat) returns (outcome: Outcome)
      requires Inv(View()) && PhaseOf(View(), c) == Waiting(call, since) && call < |calls| && calls[call].closed
      modifies this
      ensures View() == Next(old(View()), Wake(c))
      ensures PhaseOf(View(), c) == Returned(call, outcome)
    {
      outcome := calls[call].outcome.value;
      callers := callers[c := Returned(call, outcome)];
    }
  }
}
