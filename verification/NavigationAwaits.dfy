/**
 * Browser extension: the navigation hook with every await a step of its own, so that navigations of one URL
 * interleave inside it. The atomic hook of `Navigation` is the case in which they do not.
 */
module NavigationAwaits {
  import opened Wrappers
  import N = Navigation

  type Url = N.Url

  /**
   * Where a navigation is in the hook: it has read a stamp and not removed it, has removed it and not looked
   * at the clock, has found no valid stamp, has taken the time for the throttle, or has read its counter.
   */
  datatype Stage =
    | Stamped(u: Url, stamp: nat)
    | Removed(u: Url, stamp: nat)
    | Unstamped(u: Url)
    | Clocked(u: Url, at: nat)
    | Counted(u: Url, at: nat, count: N.Count)

  /** `store` is the session storage with the clock and the marks; `navs` are the navigations in the hook. */
  datatype State = State(store: N.State, navs: map<nat, Stage>)

  const INITIAL: State := State(N.INITIAL, map[])

  /** `Leave` is a navigation that another check of the hook decides, or that ends with its service worker. */
  datatype Event =
    | Wait(ms: nat)
    | Apply(u: Url)
    | ReadToken(n: nat, u: Url)
    | RemoveToken(n: nat)
    | Decide(n: nat)
    | Clock(n: nat)
    | ReadCount(n: nat)
    | WriteCount(n: nat)
    | Leave(n: nat)
    | Clear

  function ReadTokenStep(s: State, n: nat, u: Url): State {
    if n in s.navs then s
    else if N.HasToken(s.store, u) then s.(navs := s.navs[n := Stamped(u, s.store.tokens[u])])
    else s.(navs := s.navs[n := Unstamped(u)])
  }

  function RemoveTokenStep(s: State, n: nat): State {
    if n in s.navs && s.navs[n].Stamped? then
      s.(store := s.store.(tokens := s.store.tokens - {s.navs[n].u}),
         navs := s.navs[n := Removed(s.navs[n].u, s.navs[n].stamp)])
    else s
  }

  function DecideStep(s: State, n: nat): State {
    if n in s.navs && s.navs[n].Removed? then
      if s.store.now - s.navs[n].stamp <= N.TOKEN_TTL then
        State(s.store.(trace := s.store.trace + [N.Passed(s.navs[n].u, s.store.now)]), s.navs - {n})
      else s.(navs := s.navs[n := Unstamped(s.navs[n].u)])
    else s
  }

  function ClockStep(s: State, n: nat): State {
    if n in s.navs && s.navs[n].Unstamped? then s.(navs := s.navs[n := Clocked(s.navs[n].u, s.store.now)]) else s
  }

  function ReadCountStep(s: State, n: nat): State {
    if n in s.navs && s.navs[n].Clocked? then
      var (u, at) := (s.navs[n].u, s.navs[n].at);
      s.(navs := s.navs[n := Counted(u, at, N.Current(s.store.(now := at), u))])
    else s
  }

  function WriteCountStep(s: State, n: nat): State {
    if n in s.navs && s.navs[n].Counted? then
      var (u, at, c) := (s.navs[n].u, s.navs[n].at, s.navs[n].count);
      var counts := s.store.counts[u := N.Count(c.count + 1, c.windowStart)];
      var trace := if c.count + 1 > N.LIMIT then s.store.trace
        else s.store.trace + [N.SentToHolding(u, at, c.windowStart)];
      State(s.store.(counts := counts, trace := trace), s.navs - {n})
    else s
  }

  function Next(s: State, e: Event): State {
    match e
    case Wait(ms) => s.(store := s.store.(now := s.store.now + ms))
    case Apply(u) => s.(store := N.Stamp(s.store, u))
    case ReadToken(n, u) => ReadTokenStep(s, n, u)
    case RemoveToken(n) => RemoveTokenStep(s, n)
    case Decide(n) => DecideStep(s, n)
    case Clock(n) => ClockStep(s, n)
    case ReadCount(n) => ReadCountStep(s, n)
    case WriteCount(n) => WriteCountStep(s, n)
    case Leave(n) => s.(navs := s.navs - {n})
    case Clear => State(s.store.(tokens := map[], counts := map[]), map[])
  }

  function RunFrom(s: State, es: seq<Event>): State {
    if es == [] then s else Next(RunFrom(s, es[..|es| - 1]), es[|es| - 1])
  }

  function Run(es: seq<Event>): State { RunFrom(INITIAL, es) }

  // ----- the atomic hook is a schedule of these steps

  /** Time, applies and restarts act on the storage as in the atomic model; a restart ends every navigation. */
  lemma {:induction false} SharedEvents(s: State, ms: nat, u: Url)
    ensures Next(s, Wait(ms)) == State(N.Next(s.store, N.Wait(ms)), s.navs)
    ensures Next(s, Apply(u)) == State(N.Next(s.store, N.Apply(u)), s.navs)
    ensures Next(s, Clear) == State(N.Next(s.store, N.Clear), map[])
  {
  }

  /** The steps of one navigation on its own; with `leaves` another check of the hook decides it. */
  function Alone(n: nat, u: Url, leaves: bool): seq<Event> {
    [ReadToken(n, u), RemoveToken(n), Decide(n)]
    + (if leaves then [Leave(n)] else [Clock(n), ReadCount(n), WriteCount(n)])
  }

  predicate Decided(s: N.State, u: Url, x: N.Context) {
    N.HookOutcome(s, u, x) in {N.PassedByOverride, N.PassedCached, N.Blocked}
  }

  lemma {:induction false} RunFromAppend(s: State, es: seq<Event>, e: Event)
    ensures RunFrom(s, es + [e]) == Next(RunFrom(s, es), e)
  {
  }

  lemma {:induction false} RunThree(s: State, a: Event, b: Event, c: Event)
    ensures RunFrom(s, [a, b, c]) == Next(Next(Next(s, a), b), c)
  {
    hide Next;
    assert [a, b, c] == [] + [a] + [b] + [c];
    RunFromAppend(s, [], a);
    RunFromAppend(s, [] + [a], b);
    RunFromAppend(s, [] + [a] + [b], c);
  }

  lemma {:induction false} RunFromConcat(s: State, es: seq<Event>, fs: seq<Event>)
    ensures RunFrom(s, es + fs) == RunFrom(RunFrom(s, es), fs)
    decreases |fs|
  {
    hide Next;
    if fs == [] {
      assert es + fs == es;
    } else {
      var (front, e) := (fs[..|fs| - 1], fs[|fs| - 1]);
      assert es + fs == (es + front) + [e];
      RunFromConcat(s, es, front);
      RunFromAppend(s, es + front, e);
    }
  }

  lemma {:induction false} RunTwo(s: State, a: Event, b: Event)
    ensures RunFrom(s, [a, b]) == Next(Next(s, a), b)
  {
    hide Next;
    assert [a, b] == [] + [a] + [b];
    RunFromAppend(s, [], a);
    RunFromAppend(s, [] + [a], b);
  }

  /** The token steps of a navigation on its own consume the token; it goes on unless it passed. */
  lemma {:induction false} TokenSteps(s: State, n: nat, u: Url)
    requires n !in s.navs
    ensures Next(Next(Next(s, ReadToken(n, u)), RemoveToken(n)), Decide(n)) ==
      State(N.Consume(s.store, u), if N.TokenPasses(s.store, u) then s.navs else s.navs[n := Unstamped(u)])
  {
  }

  lemma {:induction false} CountSteps(s: State, n: nat, u: Url)
    requires n !in s.navs
    ensures var t := s.(navs := s.navs[n := Unstamped(u)]);
      Next(Next(Next(t, Clock(n)), ReadCount(n)), WriteCount(n)) == State(N.Intercept(s.store, u), s.navs)
  {
  }

  /** A navigation whose steps follow one another has the effect of the atomic hook. */
  lemma {:induction false} AloneIsNavigate(s: State, n: nat, u: Url, x: N.Context)
    requires n !in s.navs && N.Watched(x)
    ensures RunFrom(s, Alone(n, u, Decided(s.store, u, x))) == State(N.Navigate(s.store, u, x), s.navs)
  {
    hide RunFrom, N.Intercept, N.Consume;
    var t := State(N.Consume(s.store, u), if N.TokenPasses(s.store, u) then s.navs else s.navs[n := Unstamped(u)]);
    RunThree(s, ReadToken(n, u), RemoveToken(n), Decide(n));
    TokenSteps(s, n, u);
    if Decided(s.store, u, x) {
      RunFromAppend(s, [ReadToken(n, u), RemoveToken(n), Decide(n)], Leave(n));
      assert s.navs[n := Unstamped(u)] - {n} == s.navs;
    } else {
      RunFromConcat(s, [ReadToken(n, u), RemoveToken(n), Decide(n)], [Clock(n), ReadCount(n), WriteCount(n)]);
      RunThree(t, Clock(n), ReadCount(n), WriteCount(n));
      if !N.TokenPasses(s.store, u) { CountSteps(State(N.Consume(s.store, u), s.navs), n, u); }
    }
  }

  // ----- passes

  predicate Reading(s: State, u: Url, n: nat) { n in s.navs && s.navs[n].Stamped? && s.navs[n].u == u }

  /** Navigations of `u` that have removed a stamp and not yet compared it with the clock. */
  function Removing(s: State, u: Url): set<nat> { set n | n in s.navs && s.navs[n].Removed? && s.navs[n].u == u }

  /** A stamp that some navigation can still turn into a pass: stored, or read and not removed. */
  ghost predicate Open(s: State, u: Url) { u in s.store.tokens || exists n: nat :: Reading(s, u, n) }

  ghost predicate PassInv(s: State, u: Url) {
    && (forall n: nat, m: nat :: Reading(s, u, n) && Reading(s, u, m) ==> n == m)
    && N.Passes(s.store.trace, u) + |Removing(s, u)| + (if Open(s, u) then 1 else 0) <= N.Applies(s.store.trace, u)
  }

  /** Event `e` does not read the token of `u` while another navigation has read it and not removed it. */
  ghost predicate ReadsAlone(s: State, e: Event, u: Url) {
    e.ReadToken? && e.u == u ==> forall n: nat :: Reading(s, u, n) ==> n == e.n
  }

  ghost predicate TokenExclusive(es: seq<Event>, u: Url) {
    forall k :: 0 <= k < |es| ==> ReadsAlone(Run(es[..k]), es[k], u)
  }

  lemma {:induction false} Fewer(a: set<nat>, b: set<nat>, n: nat)
    requires a <= b + {n}
    ensures |a| <= |b| + 1
    ensures n in b && a <= b - {n} ==> |a| + 1 <= |b|
    ensures a <= b ==> |a| <= |b|
  {
    Subset(a, b + {n});
    if a <= b - {n} { Subset(a, b - {n}); }
    if a <= b { Subset(a, b); }
  }

  lemma {:induction false} Subset(a: set<nat>, b: set<nat>)
    requires a <= b
    ensures |a| <= |b|
  {
    assert b == a + (b - a);
  }

  lemma {:induction false} ReadPasses(s: State, n: nat, v: Url, u: Url)
    requires PassInv(s, u) && ReadsAlone(s, ReadToken(n, v), u)
    ensures PassInv(Next(s, ReadToken(n, v)), u)
  {
    var t := Next(s, ReadToken(n, v));
    assert Removing(t, u) == Removing(s, u);
    assert forall m: nat :: m != n ==> (Reading(t, u, m) <==> Reading(s, u, m));
  }

  lemma {:induction false} RemovePasses(s: State, n: nat, u: Url)
    requires PassInv(s, u)
    ensures PassInv(Next(s, RemoveToken(n)), u)
  {
    hide N.Passes, N.Applies;
    var t := Next(s, RemoveToken(n));
    assert forall m: nat :: m != n ==> (Reading(t, u, m) <==> Reading(s, u, m));
    if Reading(s, u, n) {
      assert Removing(t, u) <= Removing(s, u) + {n};
      Fewer(Removing(t, u), Removing(s, u), n);
      assert !Open(t, u);
    } else {
      assert Removing(t, u) <= Removing(s, u);
      Subset(Removing(t, u), Removing(s, u));
    }
  }

  lemma {:induction false} DecidePasses(s: State, n: nat, u: Url)
    requires PassInv(s, u)
    ensures PassInv(Next(s, Decide(n)), u)
  {
    var t := Next(s, Decide(n));
    assert forall m: nat :: Reading(t, u, m) <==> Reading(s, u, m);
    Fewer(Removing(t, u), Removing(s, u), n);
    N.CountMark(s.store.trace, N.Passed(if n in s.navs then s.navs[n].u else u, s.store.now), u);
  }

  lemma {:induction false} OtherPasses(s: State, e: Event, u: Url)
    requires PassInv(s, u) && !e.ReadToken? && !e.RemoveToken? && !e.Decide?
    ensures PassInv(Next(s, e), u)
  {
    var t := Next(s, e);
    assert forall m: nat :: Reading(t, u, m) ==> Reading(s, u, m);
    assert Removing(t, u) <= Removing(s, u);
    Subset(Removing(t, u), Removing(s, u));
    if e.Apply? { N.CountMark(s.store.trace, N.Applied(e.u, s.store.now), u); }
    if e.WriteCount? && e.n in s.navs && s.navs[e.n].Counted? {
      N.CountMark(s.store.trace, N.SentToHolding(s.navs[e.n].u, s.navs[e.n].at, s.navs[e.n].count.windowStart), u);
    }
  }

  lemma {:induction false} InvBounds(s: State, u: Url)
    requires PassInv(s, u)
    ensures N.Passes(s.store.trace, u) <= N.Applies(s.store.trace, u)
  {
  }

  /**
   * Over every interleaving in which no navigation reads the token of `u` between another one's read and
   * removal, there are never more passes of `u` than applies. Applies may fall anywhere.
   */
  lemma {:induction false} PassesWithinApplies(es: seq<Event>, u: Url)
    requires TokenExclusive(es, u)
    ensures PassInv(Run(es), u) && N.Passes(Run(es).store.trace, u) <= N.Applies(Run(es).store.trace, u)
  {
    hide PassInv, Next, N.Passes, N.Applies;
    if es == [] {
      NothingYet(u);
    } else {
      var (front, e) := (es[..|es| - 1], es[|es| - 1]);
      assert forall k :: 0 <= k < |front| ==> front[..k] == es[..k];
      PassesWithinApplies(front, u);
      match e
      case ReadToken(n, v) => ReadPasses(Run(front), n, v, u);
      case RemoveToken(n) => RemovePasses(Run(front), n, u);
      case Decide(n) => DecidePasses(Run(front), n, u);
      case _ => OtherPasses(Run(front), e, u);
    }
    InvBounds(Run(es), u);
  }

  lemma {:induction false} NothingYet(u: Url)
    ensures PassInv(INITIAL, u)
  {
  }

  /** `k` navigations, each reading the token of `u` before the first of them removes it. */
  function Nested(u: Url, k: nat): seq<Event> {
    if k == 0 then [] else [ReadToken(k, u)] + Nested(u, k - 1) + [RemoveToken(k), Decide(k)]
  }

  lemma {:induction false} PassOnRead(s: State, u: Url, n: nat)
    requires Reading(s, u, n) && s.store.now - s.navs[n].stamp <= N.TOKEN_TTL
    ensures var t := RunFrom(s, [RemoveToken(n), Decide(n)]);
      && t.navs == s.navs - {n} && t.store.now == s.store.now
      && N.Passes(t.store.trace, u) == N.Passes(s.store.trace, u) + 1
      && N.Applies(t.store.trace, u) == N.Applies(s.store.trace, u)
  {
    hide N.Passes, N.Applies, RunFrom;
    RunTwo(s, RemoveToken(n), Decide(n));
    var b := Next(s, RemoveToken(n));
    assert b.navs - {n} == s.navs - {n};
    N.CountMark(s.store.trace, N.Passed(u, s.store.now), u);
  }

  /** Without that condition one apply lets any number of navigations through. */
  lemma {:induction false} OneTokenManyPasses(s: State, u: Url, k: nat)
    requires N.TokenPasses(s.store, u) && forall n :: n in s.navs ==> n > k
    ensures var t := RunFrom(s, Nested(u, k));
      && t.navs == s.navs && t.store.now == s.store.now
      && N.Passes(t.store.trace, u) == N.Passes(s.store.trace, u) + k
      && N.Applies(t.store.trace, u) == N.Applies(s.store.trace, u)
    decreases k
  {
    hide N.Passes, N.Applies, RunFrom;
    if k == 0 {
      RunNone(s);
    } else {
      var a := s.(navs := s.navs[k := Stamped(u, s.store.tokens[u])]);
      RunFromConcat(s, [ReadToken(k, u)] + Nested(u, k - 1), [RemoveToken(k), Decide(k)]);
      RunFromConcat(s, [ReadToken(k, u)], Nested(u, k - 1));
      RunOne(s, ReadToken(k, u));
      OneTokenManyPasses(a, u, k - 1);
      PassOnRead(RunFrom(a, Nested(u, k - 1)), u, k);
      assert a.navs - {k} == s.navs;
    }
  }

  lemma {:induction false} RunNone(s: State)
    ensures RunFrom(s, []) == s
  {
  }

  lemma {:induction false} RunOne(s: State, e: Event)
    ensures RunFrom(s, [e]) == Next(s, e)
  {
  }

  // ----- holds

  predicate Counting(s: State, u: Url, n: nat) {
    n in s.navs && (s.navs[n].Clocked? || s.navs[n].Counted?) && s.navs[n].u == u
  }

  /** What a navigation between taking the time and writing the counter relies on. */
  ghost predicate Undisturbed(s: State, u: Url, n: nat)
    requires Counting(s, u, n)
  {
    var (at, h) := (s.navs[n].at, N.Holds(s.store.trace, u));
    && N.ThrottleInv(s.store.(now := at), u) && N.InTime(h, at) && at <= s.store.now
    && (s.navs[n].Counted? ==> s.navs[n].count == N.Current(s.store.(now := at), u))
  }

  ghost predicate HoldInv(s: State, u: Url) {
    && N.ThrottleInv(s.store, u) && N.InTime(N.Holds(s.store.trace, u), s.store.now)
    && (forall n: nat, m: nat :: Counting(s, u, n) && Counting(s, u, m) ==> n == m)
    && (forall n: nat :: Counting(s, u, n) ==> Undisturbed(s, u, n))
  }

  /** Event `e` does not start the throttle check of `u` while another navigation is in it. */
  ghost predicate CountsAlone(s: State, e: Event, u: Url) {
    e.Clock? && e.n in s.navs && s.navs[e.n].u == u ==> forall n: nat :: Counting(s, u, n) ==> n == e.n
  }

  ghost predicate CountExclusive(es: seq<Event>, u: Url) {
    forall k :: 0 <= k < |es| ==> CountsAlone(Run(es[..k]), es[k], u)
  }

  predicate NoClear(es: seq<Event>) { forall i :: 0 <= i < |es| ==> !es[i].Clear? }

  predicate SameFor(a: N.State, b: N.State, u: Url) {
    && N.Holds(a.trace, u) == N.Holds(b.trace, u)
    && (u in a.counts <==> u in b.counts) && (u in a.counts ==> a.counts[u] == b.counts[u])
  }

  lemma {:induction false} SameThrottle(a: N.State, b: N.State, u: Url)
    requires SameFor(a, b, u) && a.now <= b.now && N.ThrottleInv(a, u)
    ensures N.ThrottleInv(b, u) && (a.now == b.now ==> N.Current(a, u) == N.Current(b, u))
  {
  }

  /** A step that touches neither the holds nor the counter of `u`, and starts no check of it. */
  lemma {:induction false} FrameHolds(s: State, t: State, u: Url)
    requires HoldInv(s, u) && SameFor(s.store, t.store, u) && s.store.now <= t.store.now
    requires forall n: nat :: Counting(t, u, n) ==>
      && Counting(s, u, n) && t.navs[n].at == s.navs[n].at
      && (t.navs[n] == s.navs[n]
          || (t.navs[n].Counted? ==> t.navs[n].count == N.Current(s.store.(now := s.navs[n].at), u)))
    ensures HoldInv(t, u)
  {
  }

  lemma {:induction false} WriteOwn(s: State, n: nat, u: Url)
    requires HoldInv(s, u) && Counting(s, u, n) && s.navs[n].Counted?
    ensures HoldInv(Next(s, WriteCount(n)), u)
  {
    hide N.Holds, N.Windowed, N.Current;
    var (t, at) := (Next(s, WriteCount(n)), s.navs[n].at);
    assert Undisturbed(s, u, n);
    var a := N.Intercept(s.store.(now := at), u);
    N.InterceptWindows(s.store.(now := at), u, u);
    assert t.store == a.(now := s.store.now);
    SameThrottle(a, t.store, u);
    N.HoldsAppend(s.store.trace, N.SentToHolding(u, at, s.navs[n].count.windowStart), u);
    assert forall m: nat :: Counting(t, u, m) ==> Counting(s, u, m) && m != n;
  }

  lemma {:induction false} WriteOther(s: State, n: nat, u: Url)
    requires HoldInv(s, u) && !(Counting(s, u, n) && s.navs[n].Counted?)
    ensures HoldInv(Next(s, WriteCount(n)), u)
  {
    hide N.Holds, HoldInv;
    if n in s.navs && s.navs[n].Counted? {
      N.HoldsAppend(s.store.trace, N.SentToHolding(s.navs[n].u, s.navs[n].at, s.navs[n].count.windowStart), u);
    }
    FrameHolds(s, Next(s, WriteCount(n)), u);
  }

  lemma {:induction false} WriteHolds(s: State, n: nat, u: Url)
    requires HoldInv(s, u)
    ensures HoldInv(Next(s, WriteCount(n)), u)
  {
    hide HoldInv, Next;
    if Counting(s, u, n) && s.navs[n].Counted? { WriteOwn(s, n, u); } else { WriteOther(s, n, u); }
  }

  lemma {:induction false} ReadHolds(s: State, n: nat, u: Url)
    requires HoldInv(s, u)
    ensures HoldInv(Next(s, ReadCount(n)), u)
  {
    hide N.Holds, N.Current, HoldInv;
    FrameHolds(s, Next(s, ReadCount(n)), u);
  }

  lemma {:induction false} ClockHolds(s: State, n: nat, u: Url)
    requires HoldInv(s, u) && CountsAlone(s, Clock(n), u)
    ensures HoldInv(Next(s, Clock(n)), u)
  {
    hide N.Holds, N.ThrottleInv, N.InTime;
    var t := Next(s, Clock(n));
    if t != s {
      assert s.store.(now := s.store.now) == s.store;
      assert forall m: nat :: m != n ==> (Counting(t, u, m) <==> Counting(s, u, m));
      forall m: nat | Counting(t, u, m) ensures Undisturbed(t, u, m) {
        if m != n { assert Undisturbed(s, u, m); }
      }
    }
  }

  lemma {:induction false} OtherHolds(s: State, e: Event, u: Url)
    requires HoldInv(s, u) && !e.Clock? && !e.ReadCount? && !e.WriteCount? && !e.Clear?
    ensures HoldInv(Next(s, e), u)
  {
    hide N.Holds, N.Current, HoldInv;
    if e.Apply? { N.HoldsAppend(s.store.trace, N.Applied(e.u, s.store.now), u); }
    if e.Decide? && e.n in s.navs { N.HoldsAppend(s.store.trace, N.Passed(s.navs[e.n].u, s.store.now), u); }
    FrameHolds(s, Next(s, e), u);
  }

  lemma {:induction false} HoldsAlways(es: seq<Event>, u: Url)
    requires CountExclusive(es, u) && NoClear(es)
    ensures HoldInv(Run(es), u)
  {
    hide HoldInv, Next, N.Holds;
    if es == [] {
      assert HoldInv(INITIAL, u) by { NoHoldsYet(u); }
    } else {
      var (front, e) := (es[..|es| - 1], es[|es| - 1]);
      assert forall k :: 0 <= k < |front| ==> front[..k] == es[..k];
      HoldsAlways(front, u);
      match e
      case Clock(n) => ClockHolds(Run(front), n, u);
      case ReadCount(n) => ReadHolds(Run(front), n, u);
      case WriteCount(n) =>
        WriteHolds(Run(front), n, u);
      case _ => OtherHolds(Run(front), e, u);
    }
  }

  lemma {:induction false} NoHoldsYet(u: Url)
    ensures HoldInv(INITIAL, u)
  {
  }

  /**
   * Over every interleaving in which no navigation takes the time for the throttle of `u` while another is
   * between that and the write of the counter, the bound of the atomic hook stands: any six holds span more
   * than thirty seconds.
   */
  lemma {:induction false} HoldBoundStands(es: seq<Event>, u: Url, i: nat)
    requires CountExclusive(es, u) && NoClear(es) && i + 5 < |N.Holds(Run(es).store.trace, u)|
    ensures var h := N.Holds(Run(es).store.trace, u);
      h[i].SentToHolding? && h[i + 5].SentToHolding? && h[i].at + 30_000 < h[i + 5].at
  {
    hide N.Holds, N.Windowed, Run;
    HoldsAlways(es, u);
    var (h, s) := (N.Holds(Run(es).store.trace, u), Run(es).store);
    N.AllHolds(h, s.counts[u]);
    N.SixApart(h, s.counts[u], s.now, i);
  }

  /** `k` navigations that all read the counter of `u` before the first of them writes it. */
  function NestedChecks(u: Url, k: nat): seq<Event> {
    if k == 0 then []
    else [ReadToken(k, u), Clock(k), ReadCount(k)] + NestedChecks(u, k - 1) + [WriteCount(k)]
  }

  /** Without that condition any number of navigations are held at one moment, and all count as one. */
  lemma {:induction false} ChecksAllHold(s: State, u: Url, k: nat)
    requires !N.HasToken(s.store, u) && !N.Throttled(s.store, u) && forall n :: n in s.navs ==> n > k
    ensures var (t, c) := (RunFrom(s, NestedChecks(u, k)), N.Current(s.store, u));
      && t.navs == s.navs && t.store.now == s.store.now && t.store.tokens == s.store.tokens
      && N.Holds(t.store.trace, u) == N.Holds(s.store.trace, u)
         + seq(k, i => N.SentToHolding(u, s.store.now, c.windowStart))
      && (k > 0 ==> u in t.store.counts && t.store.counts[u] == N.Count(c.count + 1, c.windowStart))
    decreases k
  {
    hide N.Holds, N.Current, RunFrom;
    if k == 0 {
      RunNone(s);
    } else {
      var c := N.Current(s.store, u);
      var a := s.(navs := s.navs[k := Counted(u, s.store.now, c)]);
      RunFromConcat(s, [ReadToken(k, u), Clock(k), ReadCount(k)] + NestedChecks(u, k - 1), [WriteCount(k)]);
      RunFromConcat(s, [ReadToken(k, u), Clock(k), ReadCount(k)], NestedChecks(u, k - 1));
      CheckStarts(s, u, k);
      ChecksAllHold(a, u, k - 1);
      var b := RunFrom(a, NestedChecks(u, k - 1));
      RunOne(b, WriteCount(k));
      N.HoldsAppend(b.store.trace, N.SentToHolding(u, s.store.now, c.windowStart), u);
      assert a.navs - {k} == s.navs;
    }
  }

  lemma {:induction false} CheckStarts(s: State, u: Url, k: nat)
    requires !N.HasToken(s.store, u) && k !in s.navs
    ensures RunFrom(s, [ReadToken(k, u), Clock(k), ReadCount(k)]) ==
      s.(navs := s.navs[k := Counted(u, s.store.now, N.Current(s.store, u))])
  {
    hide RunFrom, N.Current;
    RunThree(s, ReadToken(k, u), Clock(k), ReadCount(k));
    assert s.store.(now := s.store.now) == s.store;
  }
}
