/**
 * Browser extension: the navigation hook with its one-shot pass token and intercept throttle. URLs are in
 * token form (the storage keys are built from it); times are milliseconds. Each handler is one step here;
 * `NavigationAwaits` takes the hook apart at its awaits.
 */
module Navigation {
  import opened Wrappers

  type Url = string

  const TOKEN_TTL: nat := 10_000
  const LIMIT: nat := 3
  const WINDOW: nat := 30_000

  datatype Count = Count(count: nat, windowStart: nat)

  /** The facts the hook looks up besides token and throttle. */
  datatype Context = Context(topFrame: bool, skipped: bool, enabled: bool, allowTemp: bool, allowlisted: bool,
                             sensitive: bool, cached: Option<string>)

  datatype Outcome = Ignored | PassedByToken | PassedByOverride | PassedCached | Blocked | PassedThrottled | Held

  datatype Mark = Applied(u: Url, at: nat) | Passed(u: Url, at: nat) | SentToHolding(u: Url, at: nat, windowStart: nat)

  /** `trace` records ALLOW applies, token passes and navigations sent to holding. */
  datatype State = State(now: nat, tokens: map<Url, nat>, counts: map<Url, Count>, trace: seq<Mark>)

  const INITIAL: State := State(0, map[], map[], [])

  // ----- token and throttle

  /** A stamp of zero counts as no stamp. */
  predicate HasToken(s: State, u: Url) { u in s.tokens && s.tokens[u] != 0 }

  predicate TokenPasses(s: State, u: Url) { HasToken(s, u) && s.now - s.tokens[u] <= TOKEN_TTL }

  function Consume(s: State, u: Url): State {
    if HasToken(s, u) then
      s.(tokens := s.tokens - {u}, trace := if TokenPasses(s, u) then s.trace + [Passed(u, s.now)] else s.trace)
    else s
  }

  function Stamp(s: State, u: Url): State { s.(tokens := s.tokens[u := s.now], trace := s.trace + [Applied(u, s.now)]) }

  /** The counter as this navigation finds it: a new one, or one whose window has passed, starts over. */
  function Current(s: State, u: Url): Count {
    if u in s.counts && s.now - s.counts[u].windowStart <= WINDOW then s.counts[u] else Count(0, s.now)
  }

  predicate Throttled(s: State, u: Url) { Current(s, u).count + 1 > LIMIT }

  function Intercept(s: State, u: Url): State {
    var c := Current(s, u);
    s.(counts := s.counts[u := Count(c.count + 1, c.windowStart)],
       trace := if Throttled(s, u) then s.trace else s.trace + [SentToHolding(u, s.now, c.windowStart)])
  }

  // ----- the hook

  predicate Watched(x: Context) { x.topFrame && !x.skipped && x.enabled }

  predicate CacheDecides(x: Context) { !x.sensitive && (x.cached == Some("ALLOW") || x.cached == Some("BLOCK")) }

  function HookOutcome(s: State, u: Url, x: Context): Outcome {
    if !Watched(x) then Ignored
    else if TokenPasses(s, u) then PassedByToken
    else if x.allowTemp || x.allowlisted then PassedByOverride
    else if CacheDecides(x) then (if x.cached == Some("ALLOW") then PassedCached else Blocked)
    else if Throttled(s, u) then PassedThrottled
    else Held
  }

  function Navigate(s: State, u: Url, x: Context): State {
    if !Watched(x) then s
    else if HookOutcome(s, u, x).PassedThrottled? || HookOutcome(s, u, x).Held? then Intercept(Consume(s, u), u)
    else Consume(s, u)
  }

  /** The token of `u` is there and at most ten seconds old. */
  predicate FreshToken(s: State, u: Url) { u in s.tokens && s.tokens[u] != 0 && s.now - s.tokens[u] <= 10_000 }

  /** Nothing decides a watched navigation before the cache is asked. */
  predicate ReachesCache(s: State, u: Url, x: Context) {
    x.topFrame && !x.skipped && x.enabled && !FreshToken(s, u) && !x.allowTemp && !x.allowlisted
  }

  /** The counter of `u` has seen three intercepts, or more, in its window of thirty seconds. */
  predicate CounterFull(s: State, u: Url) {
    u in s.counts && s.now - s.counts[u].windowStart <= 30_000 && s.counts[u].count >= 3
  }

  /**
   * When each outcome comes about. A cached verdict decides only on pages that are not sensitive: BLOCK sends
   * to the blocked page, ALLOW passes, anything else goes to the holding page unless the counter is full.
   */
  lemma {:induction false} OutcomeIff(s: State, u: Url, x: Context)
    ensures var o := HookOutcome(s, u, x);
      && (o == Ignored <==> !x.topFrame || x.skipped || !x.enabled)
      && (o == PassedByToken <==> x.topFrame && !x.skipped && x.enabled && FreshToken(s, u))
      && (o == PassedByOverride <==>
            x.topFrame && !x.skipped && x.enabled && !FreshToken(s, u) && (x.allowTemp || x.allowlisted))
      && (o == Blocked <==> ReachesCache(s, u, x) && !x.sensitive && x.cached == Some("BLOCK"))
      && (o == PassedCached <==> ReachesCache(s, u, x) && !x.sensitive && x.cached == Some("ALLOW"))
      && (o == PassedThrottled <==>
            ReachesCache(s, u, x) && (x.sensitive || x.cached !in {Some("BLOCK"), Some("ALLOW")}) && CounterFull(s, u))
      && (o == Held <==>
            ReachesCache(s, u, x) && (x.sensitive || x.cached !in {Some("BLOCK"), Some("ALLOW")}) && !CounterFull(s, u))
  {
  }

  /** What a navigation leaves behind: a watched one uses the token up, and only a hold is marked as such. */
  lemma {:induction false} NavigationLeaves(s: State, u: Url, x: Context)
    ensures var (o, t) := (HookOutcome(s, u, x), Navigate(s, u, x));
      && t.now == s.now
      && (o == Ignored ==> t == s)
      && (o != Ignored ==> !HasToken(t, u) && forall v :: v != u ==> (HasToken(t, v) <==> HasToken(s, v)))
      && (o !in {PassedThrottled, Held} ==> t.counts == s.counts)
      && (o == Held ==> exists from :: t.trace == s.trace + [SentToHolding(u, s.now, from)])
      && (o == PassedByToken ==> t.trace == s.trace + [Passed(u, s.now)])
      && (o !in {Held, PassedByToken} ==> t.trace == s.trace)
  {
  }

  /** The session storage of the extension and the handlers that change it. */
  class Background {
    var tokens: map<Url, nat>
    var counts: map<Url, Count>
    ghost var now: nat
    ghost var trace: seq<Mark>

    ghost function View(): State
      reads this
    {
      State(now, tokens, counts, trace)
    }

    constructor ()
      ensures View() == INITIAL
    {
      tokens, counts, now, trace := map[], map[], 0, [];
    }

    method StampJustVerified(u: Url, t: nat)
      modifies this
      ensures View() == Stamp(old(View()).(now := t), u)
    {
      now := t;
      tokens := tokens[u := t];
      trace := trace + [Applied(u, t)];
    }

    method ConsumeJustVerified(u: Url, t: nat) returns (pass: bool)
      modifies this
      ensures pass == TokenPasses(old(View()).(now := t), u)
      ensures View() == Consume(old(View()).(now := t), u)
    {
      now := t;
      if u !in tokens || tokens[u] == 0 {
        return false;
      }
      var stamped := tokens[u];
      tokens := tokens - {u};
      pass := t - stamped <= TOKEN_TTL;
      if pass { trace := trace + [Passed(u, t)]; }
    }

    method ShouldThrottleIntercept(u: Url, t: nat) returns (throttle: bool)
      modifies this
      ensures throttle == Throttled(old(View()).(now := t), u)
      ensures View() == Intercept(old(View()).(now := t), u)
    {
      now := t;
      var rec := if u in counts then counts[u] else Count(0, t);
      if t - rec.windowStart > WINDOW {
        rec := Count(0, t);
      }
      rec := Count(rec.count + 1, rec.windowStart);
      counts := counts[u := rec];
      throttle := rec.count > LIMIT;
      if !throttle { trace := trace + [SentToHolding(u, t, rec.windowStart)]; }
    }

    method OnBeforeNavigate(u: Url, x: Context, t: nat) returns (o: Outcome)
      modifies this
      ensures o == HookOutcome(old(View()).(now := t), u, x)
      ensures View() == (if Watched(x) then Navigate(old(View()).(now := t), u, x) else old(View()))
    {
      if !x.topFrame || x.skipped || !x.enabled {
        return Ignored;
      }
      var pass := ConsumeJustVerified(u, t);
      if pass {
        return PassedByToken;
      }
      if x.allowTemp {
        return PassedByOverride;
      }
      if x.allowlisted {
        return PassedByOverride;
      }
      if !x.sensitive {
        if x.cached == Some("ALLOW") {
          return PassedCached;
        }
        if x.cached == Some("BLOCK") {
          return Blocked;
        }
      }
      var throttle := ShouldThrottleIntercept(u, t);
      return if throttle then PassedThrottled else Held;
    }
  }

  // ----- runs

  /** `Apply` is an apply whose verdict releases the tab; `Clear` is a browser restart. */
  datatype Event = Wait(ms: nat) | Apply(u: Url) | Visit(u: Url, x: Context) | Clear

  function Next(s: State, e: Event): State {
    match e
    case Wait(ms) => s.(now := s.now + ms)
    case Apply(u) => Stamp(s, u)
    case Visit(u, x) => Navigate(s, u, x)
    case Clear => s.(tokens := map[], counts := map[])
  }

  function Run(es: seq<Event>): State {
    if es == [] then INITIAL else Next(Run(es[..|es| - 1]), es[|es| - 1])
  }

  /** Time passes without touching the storage; a restart forgets tokens and counters, and nothing else. */
  lemma {:induction false} OtherEvents(s: State, ms: nat)
    ensures var t := Next(s, Wait(ms));
      t.now == s.now + ms && t.tokens == s.tokens && t.counts == s.counts && t.trace == s.trace
    ensures var t := Next(s, Clear);
      t.now == s.now && t.tokens == map[] && t.counts == map[] && t.trace == s.trace
  {
  }

  // ----- tokens

  /** `j` is an apply of `u` and nothing after it, before position `k`, touches the token of `u`. */
  ghost predicate Latest(trace: seq<Mark>, u: Url, j: nat, k: nat, at: nat) {
    && j < k <= |trace| && trace[j] == Applied(u, at)
    && forall m :: j < m < k && trace[m].u == u ==> trace[m].SentToHolding?
  }

  /** A token pass uses the latest apply of its URL, at most ten seconds old and not used before. */
  ghost predicate PassJustified(trace: seq<Mark>, k: nat) {
    k < |trace| && trace[k].Passed? ==>
      exists j: nat, at: nat :: Latest(trace, trace[k].u, j, k, at) && at <= trace[k].at <= at + 10_000
  }

  ghost predicate TokenInv(s: State) {
    && (forall u :: u in s.tokens ==>
          s.tokens[u] <= s.now && exists j: nat :: Latest(s.trace, u, j, |s.trace|, s.tokens[u]))
    && (forall k: nat :: PassJustified(s.trace, k))
  }

  lemma {:induction false} JustifiedStays(trace: seq<Mark>, m: Mark, k: nat)
    requires PassJustified(trace, k) && k < |trace|
    ensures PassJustified(trace + [m], k)
  {
    if trace[k].Passed? {
      var j: nat, at: nat :| Latest(trace, trace[k].u, j, k, at) && at <= trace[k].at <= at + 10_000;
      assert Latest(trace + [m], trace[k].u, j, k, at);
    }
  }

  lemma {:induction false} LatestStays(trace: seq<Mark>, m: Mark, u: Url, j: nat, at: nat)
    requires Latest(trace, u, j, |trace|, at) && (m.u != u || m.SentToHolding?)
    ensures Latest(trace + [m], u, j, |trace| + 1, at)
  {
  }

  lemma {:induction false} MarkKeeps(s: State, m: Mark, tokens: map<Url, nat>)
    requires TokenInv(s)
    requires forall u :: u in tokens ==> (u in s.tokens && tokens[u] == s.tokens[u] && (m.u != u || m.SentToHolding?))
                                         || (m == Applied(u, tokens[u]) && tokens[u] <= s.now)
    requires m.Passed? ==> m.u in s.tokens && s.tokens[m.u] <= m.at <= s.tokens[m.u] + TOKEN_TTL
    ensures TokenInv(s.(tokens := tokens, trace := s.trace + [m]))
  {
    var t := s.(tokens := tokens, trace := s.trace + [m]);
    forall u | u in tokens ensures exists j: nat :: Latest(t.trace, u, j, |t.trace|, tokens[u]) {
      if m == Applied(u, tokens[u]) {
        assert Latest(t.trace, u, |s.trace|, |t.trace|, tokens[u]);
      } else {
        var j: nat :| Latest(s.trace, u, j, |s.trace|, s.tokens[u]);
        LatestStays(s.trace, m, u, j, tokens[u]);
      }
    }
    forall k: nat ensures PassJustified(t.trace, k) {
      if k < |s.trace| {
        JustifiedStays(s.trace, m, k);
      } else if k == |s.trace| && m.Passed? {
        var j: nat :| Latest(s.trace, m.u, j, |s.trace|, s.tokens[m.u]);
        assert Latest(t.trace, m.u, j, k, s.tokens[m.u]);
      }
    }
  }

  lemma {:induction false} DropKeeps(s: State, tokens: map<Url, nat>)
    requires TokenInv(s) && forall u :: u in tokens ==> u in s.tokens && tokens[u] == s.tokens[u]
    ensures TokenInv(s.(tokens := tokens))
  {
  }

  lemma {:induction false} ConsumeKeeps(s: State, u: Url)
    requires TokenInv(s)
    ensures TokenInv(Consume(s, u)) && Consume(s, u).now == s.now
  {
    if TokenPasses(s, u) {
      MarkKeeps(s, Passed(u, s.now), s.tokens - {u});
    } else if HasToken(s, u) {
      DropKeeps(s, s.tokens - {u});
    }
  }

  lemma {:induction false} InterceptKeeps(s: State, u: Url)
    requires TokenInv(s)
    ensures TokenInv(Intercept(s, u))
  {
    var c := Current(s, u);
    if !Throttled(s, u) { MarkKeeps(s, SentToHolding(u, s.now, c.windowStart), s.tokens); }
  }

  lemma {:induction false} TokensAlways(es: seq<Event>)
    ensures TokenInv(Run(es))
  {
    hide TokenInv;
    if es == [] {
      assert TokenInv(INITIAL) by { NoTokens(); }
    } else {
      var (s, e) := (Run(es[..|es| - 1]), es[|es| - 1]);
      TokensAlways(es[..|es| - 1]);
      match e
      case Wait(ms) => Later(s, ms);
      case Apply(u) => MarkKeeps(s, Applied(u, s.now), s.tokens[u := s.now]);
      case Visit(u, x) => ConsumeKeeps(s, u); InterceptKeeps(Consume(s, u), u);
      case Clear => DropKeeps(s, map[]);
        assert TokenInv(s.(tokens := map[]).(counts := map[])) by { NoCounts(s.(tokens := map[])); }
    }
  }

  lemma {:induction false} NoTokens()
    ensures TokenInv(INITIAL)
  {
  }

  lemma {:induction false} NoCounts(s: State)
    requires TokenInv(s)
    ensures TokenInv(s.(counts := map[]))
  {
  }

  lemma {:induction false} Later(s: State, ms: nat)
    requires TokenInv(s)
    ensures TokenInv(s.(now := s.now + ms))
  {
  }

  /**
   * In every run each token pass of a URL goes back to an ALLOW apply of that URL at most ten seconds
   * earlier, and between the two there is neither another pass nor another apply of it.
   */
  lemma {:induction false} PassesAreApplied(es: seq<Event>, k: nat)
    requires k < |Run(es).trace| && Run(es).trace[k].Passed?
    ensures exists j: nat, at: nat ::
      Latest(Run(es).trace, Run(es).trace[k].u, j, k, at) && at <= Run(es).trace[k].at <= at + 10_000
  {
    hide Run;
    TokensAlways(es);
    assert PassJustified(Run(es).trace, k);
  }

  function Applies(trace: seq<Mark>, u: Url): nat {
    if trace == [] then 0
    else Applies(trace[..|trace| - 1], u) + (if trace[|trace| - 1].Applied? && trace[|trace| - 1].u == u then 1 else 0)
  }

  function Passes(trace: seq<Mark>, u: Url): nat {
    if trace == [] then 0
    else Passes(trace[..|trace| - 1], u) + (if trace[|trace| - 1].Passed? && trace[|trace| - 1].u == u then 1 else 0)
  }

  lemma {:induction false} CountMark(trace: seq<Mark>, m: Mark, u: Url)
    ensures Applies(trace + [m], u) == Applies(trace, u) + (if m.Applied? && m.u == u then 1 else 0)
    ensures Passes(trace + [m], u) == Passes(trace, u) + (if m.Passed? && m.u == u then 1 else 0)
  {
  }

  predicate Balanced(s: State, u: Url) { Passes(s.trace, u) + (if u in s.tokens then 1 else 0) <= Applies(s.trace, u) }

  lemma {:induction false} NavigateBalances(s: State, v: Url, x: Context, u: Url)
    requires Balanced(s, u)
    ensures Balanced(Navigate(s, v, x), u)
  {
  }

  /** For each URL there are never more token passes than earlier ALLOW applies. */
  lemma {:induction false} NeverMorePassesThanApplies(es: seq<Event>, u: Url)
    ensures Balanced(Run(es), u) && Passes(Run(es).trace, u) <= Applies(Run(es).trace, u)
  {
    hide Passes, Applies, Navigate;
    if es == [] {
      assert Balanced(INITIAL, u) by { NoMarks(u); }
    } else {
      var (s, e) := (Run(es[..|es| - 1]), es[|es| - 1]);
      NeverMorePassesThanApplies(es[..|es| - 1], u);
      if e.Apply? { CountMark(s.trace, Applied(e.u, s.now), u); }
      if e.Visit? { NavigateBalances(s, e.u, e.x, u); }
    }
  }

  lemma {:induction false} NoMarks(u: Url)
    ensures Passes([], u) == 0 && Applies([], u) == 0
  {
  }

  /** An apply lets the next watched navigation to its URL through, if that comes within ten seconds. */
  lemma {:induction false} ApplyOpensOnce(es: seq<Event>, u: Url, ms: nat, x: Context, y: Context)
    requires Run(es).now > 0 && ms <= 10_000 && Watched(x)
    ensures var s := Run(es + [Apply(u)] + [Wait(ms)]);
      HookOutcome(s, u, x) == PassedByToken && HookOutcome(Navigate(s, u, x), u, y) != PassedByToken
  {
  }

  // ----- the throttle

  /** The navigations of `u` sent to holding, in order. */
  function Holds(trace: seq<Mark>, u: Url): seq<Mark> {
    if trace == [] then []
    else
      var (front, m) := (Holds(trace[..|trace| - 1], u), trace[|trace| - 1]);
      if m.SentToHolding? && m.u == u then front + [m] else front
  }

  lemma {:induction false} HoldsAppend(trace: seq<Mark>, m: Mark, u: Url)
    ensures Holds(trace + [m], u) == if m.SentToHolding? && m.u == u then Holds(trace, u) + [m] else Holds(trace, u)
  {
  }

  function Least(a: nat, b: nat): nat { if a < b then a else b }

  /** The hold `i` is the first of its counter window. */
  predicate Opens(h: seq<Mark>, i: nat)
    requires i < |h| && h[i].SentToHolding? && (i > 0 ==> h[i - 1].SentToHolding?)
  {
    i == 0 || h[i - 1].windowStart != h[i].windowStart
  }

  /** `h` are the holds so far: the last ones, as many as the counter allows, belong to its window. */
  ghost predicate Grouped(h: seq<Mark>, c: Count) {
    var n := |h| - Least(c.count, LIMIT);
    && n >= 0
    && (forall i :: 0 <= i < |h| ==> h[i].SentToHolding? && h[i].windowStart <= h[i].at <= h[i].windowStart + WINDOW)
    && (forall i :: n <= i < |h| ==> h[i].windowStart == c.windowStart)
    && (forall i :: 0 <= i < n ==> h[i].windowStart + WINDOW < c.windowStart)
  }

  /** A counter window has at most `LIMIT` holds, and the next one starts after it. */
  ghost predicate Spaced(h: seq<Mark>)
    requires forall i :: 0 <= i < |h| ==> h[i].SentToHolding?
  {
    forall i, j :: 0 <= i && i + LIMIT == j < |h| ==> h[i].windowStart + WINDOW < h[j].windowStart
  }

  /** A counter window starts with a hold, since the intercept that opens it leaves the counter at one. */
  ghost predicate Opened(h: seq<Mark>)
    requires forall i :: 0 <= i < |h| ==> h[i].SentToHolding?
  {
    forall i :: 0 <= i < |h| && Opens(h, i) ==>
      h[i].at == h[i].windowStart && (i > 0 ==> h[i - 1].windowStart + WINDOW < h[i].windowStart)
  }

  ghost predicate Windowed(h: seq<Mark>, c: Count) { Grouped(h, c) && Spaced(h) && Opened(h) }

  ghost predicate ThrottleInv(s: State, u: Url) {
    if u in s.counts then
      Windowed(Holds(s.trace, u), s.counts[u]) && s.counts[u].count >= 1 && s.counts[u].windowStart <= s.now
    else Holds(s.trace, u) == []
  }

  lemma {:induction false} WindowedCurrent(s: State, u: Url)
    requires ThrottleInv(s, u)
    ensures Windowed(Holds(s.trace, u), Current(s, u))
    ensures Current(s, u).windowStart <= s.now <= Current(s, u).windowStart + WINDOW
  {
  }

  lemma {:induction false} HoldGroups(h: seq<Mark>, c: Count, now: nat, m: Mark)
    requires Grouped(h, c) && c.windowStart <= now <= c.windowStart + WINDOW && c.count < LIMIT
    requires m.SentToHolding? && m.at == now && m.windowStart == c.windowStart
    ensures Grouped(h + [m], Count(c.count + 1, c.windowStart))
  {
  }

  lemma {:induction false} HoldSpaces(h: seq<Mark>, c: Count, m: Mark)
    requires Grouped(h, c) && Spaced(h) && c.count < LIMIT && m.SentToHolding? && m.windowStart == c.windowStart
    ensures Spaced(h + [m])
  {
  }

  lemma {:induction false} HoldOpens(h: seq<Mark>, c: Count, m: Mark)
    requires Grouped(h, c) && Opened(h) && c.count < LIMIT && m.SentToHolding? && m.windowStart == c.windowStart
    requires c.count == 0 ==> c.windowStart == m.at
    ensures Opened(h + [m])
  {
  }

  lemma {:induction false} HoldWindows(h: seq<Mark>, c: Count, now: nat, u: Url)
    requires Windowed(h, c) && c.windowStart <= now <= c.windowStart + WINDOW && c.count < LIMIT
    requires c.count == 0 ==> c.windowStart == now
    ensures Windowed(h + [SentToHolding(u, now, c.windowStart)], Count(c.count + 1, c.windowStart))
  {
    hide Spaced, Opened;
    var m := SentToHolding(u, now, c.windowStart);
    HoldGroups(h, c, now, m);
    HoldSpaces(h, c, m);
    HoldOpens(h, c, m);
  }

  lemma {:induction false} PassWindows(h: seq<Mark>, c: Count)
    requires Windowed(h, c) && c.count >= LIMIT
    ensures Windowed(h, Count(c.count + 1, c.windowStart))
  {
  }

  lemma {:induction false} InterceptWindows(s: State, v: Url, u: Url)
    requires ThrottleInv(s, u)
    ensures ThrottleInv(Intercept(s, v), u)
  {
    hide Holds, Windowed;
    var c := Current(s, v);
    HoldsAppend(s.trace, SentToHolding(v, s.now, c.windowStart), u);
    if u == v {
      WindowedCurrent(s, u);
      if Throttled(s, u) { PassWindows(Holds(s.trace, u), c); } else { HoldWindows(Holds(s.trace, u), c, s.now, u); }
    }
  }

  lemma {:induction false} ConsumeWindows(s: State, v: Url, u: Url)
    requires ThrottleInv(s, u)
    ensures ThrottleInv(Consume(s, v), u)
  {
  }

  predicate NoClear(es: seq<Event>) { forall i :: 0 <= i < |es| ==> !es[i].Clear? }

  lemma {:induction false} ThrottleAlways(es: seq<Event>, u: Url)
    requires NoClear(es)
    ensures ThrottleInv(Run(es), u)
  {
    hide Holds, Windowed, Consume, Intercept;
    if es == [] {
      assert ThrottleInv(INITIAL, u) by { assert Holds([], u) == [] by { NoHolds(u); } }
    } else {
      var (s, e) := (Run(es[..|es| - 1]), es[|es| - 1]);
      ThrottleAlways(es[..|es| - 1], u);
      if e.Apply? { HoldsAppend(s.trace, Applied(e.u, s.now), u); }
      if e.Visit? {
        ConsumeWindows(s, e.u, u);
        InterceptWindows(Consume(s, e.u), e.u, u);
      }
    }
  }

  lemma {:induction false} NoHolds(u: Url)
    ensures Holds([], u) == []
  {
  }

  ghost predicate InTime(h: seq<Mark>, now: nat) {
    && (forall i :: 0 <= i < |h| ==> h[i].at <= now)
    && (forall i, j :: 0 <= i < j < |h| ==> h[i].at <= h[j].at)
  }

  lemma {:induction false} HoldsInTime(es: seq<Event>, u: Url)
    ensures InTime(Holds(Run(es).trace, u), Run(es).now)
  {
    hide Holds;
    if es == [] {
      NoHolds(u);
    } else {
      var (s, e) := (Run(es[..|es| - 1]), es[|es| - 1]);
      HoldsInTime(es[..|es| - 1], u);
      if e.Apply? { HoldsAppend(s.trace, Applied(e.u, s.now), u); }
      if e.Visit? {
        HoldsAppend(s.trace, Passed(e.u, s.now), u);
        var t := Consume(s, e.u);
        HoldsAppend(t.trace, SentToHolding(e.u, t.now, Current(t, e.u).windowStart), u);
      }
    }
  }

  /** Six holds, as the invariant has them, span more than a window. */
  lemma {:induction false} SixApart(h: seq<Mark>, c: Count, now: nat, i: nat)
    requires Windowed(h, c) && InTime(h, now) && i + 2 * LIMIT - 1 < |h|
    ensures h[i].at + WINDOW < h[i + 2 * LIMIT - 1].at
  {
    var k := if Opens(h, i) then i else if Opens(h, i + 1) then i + 1 else i + 2;
    if !Opens(h, i) {
      assert h[i - 1].windowStart + WINDOW < h[i - 1 + LIMIT].windowStart;
    }
    assert Opens(h, k) && h[i].at <= h[k].at == h[k].windowStart;
    assert h[k].windowStart + WINDOW < h[k + LIMIT].windowStart <= h[k + LIMIT].at;
    assert k + LIMIT == i + 2 * LIMIT - 1 || h[k + LIMIT].at <= h[i + 2 * LIMIT - 1].at;
  }

  /** Any six navigations of a URL sent to holding span more than thirty seconds. */
  lemma {:induction false} SixHoldsSpanTheWindow(es: seq<Event>, u: Url, i: nat)
    requires NoClear(es) && i + 5 < |Holds(Run(es).trace, u)|
    ensures var h := Holds(Run(es).trace, u);
      h[i].SentToHolding? && h[i + 5].SentToHolding? && h[i].at + 30_000 < h[i + 5].at
  {
    hide Holds, Run, Windowed;
    ThrottleAlways(es, u);
    HoldsInTime(es, u);
    var h := Holds(Run(es).trace, u);
    SixApart(h, Run(es).counts[u], Run(es).now, i);
    assert h[i].SentToHolding? && h[i + 5].SentToHolding? by { AllHolds(h, Run(es).counts[u]); }
  }

  lemma {:induction false} AllHolds(h: seq<Mark>, c: Count)
    requires Windowed(h, c)
    ensures forall i :: 0 <= i < |h| ==> h[i].SentToHolding?
  {
  }

  /** In any thirty seconds at most five navigations of a URL are sent to holding. */
  lemma {:induction false} AtMostFiveHolds(es: seq<Event>, u: Url, from: nat, i: nat, j: nat)
    requires NoClear(es) && i <= j < |Holds(Run(es).trace, u)|
    requires from <= Holds(Run(es).trace, u)[i].at && Holds(Run(es).trace, u)[j].at <= from + 30_000
    ensures j - i + 1 <= 5
  {
    hide Holds, Run;
    if j >= i + 5 { SixOrMoreApart(es, u, i, j); }
  }

  lemma {:induction false} SixOrMoreApart(es: seq<Event>, u: Url, i: nat, j: nat)
    requires NoClear(es) && i + 5 <= j < |Holds(Run(es).trace, u)|
    ensures Holds(Run(es).trace, u)[i].at + 30_000 < Holds(Run(es).trace, u)[j].at
  {
    hide Holds, Run;
    HoldsInTime(es, u);
    SixHoldsSpanTheWindow(es, u, i);
    var h := Holds(Run(es).trace, u);
    assert i + 5 < j ==> h[i + 5].at <= h[j].at;
  }

  /** What a rolling window would do: let the navigation through if three holds lie in the thirty seconds before. */
  predicate RollingThrottles(s: State, u: Url) {
    var h := Holds(s.trace, u);
    |h| >= 3 && h[|h| - 3].at + 30_000 >= s.now
  }

  /**
   * The counter decides like a rolling window exactly when the third-last hold stands at the start of its
   * counter window; otherwise it holds a navigation that the rolling window would have let through.
   */
  lemma {:induction false} ThrottleVersusRolling(es: seq<Event>, u: Url)
    requires NoClear(es)
    ensures var (s, h) := (Run(es), Holds(Run(es).trace, u));
      && (Throttled(s, u) ==> RollingThrottles(s, u))
      && (RollingThrottles(s, u) ==> h[|h| - 3].SentToHolding?)
      && (RollingThrottles(s, u) ==> (Throttled(s, u) <==> h[|h| - 3].at == h[|h| - 3].windowStart))
  {
    hide Run, Holds, Windowed;
    ThrottleAlways(es, u);
    var s := Run(es);
    if u in s.counts {
      WindowedCurrent(s, u);
      CounterVersusRolling(Holds(s.trace, u), Current(s, u), s.now);
    }
  }

  lemma {:induction false} CounterVersusRolling(h: seq<Mark>, c: Count, now: nat)
    requires Windowed(h, c) && c.windowStart <= now <= c.windowStart + WINDOW
    ensures c.count >= LIMIT ==> |h| >= LIMIT && h[|h| - LIMIT].at + WINDOW >= now
    ensures |h| >= LIMIT && h[|h| - LIMIT].at + WINDOW >= now ==>
      && h[|h| - LIMIT].SentToHolding?
      && (c.count >= LIMIT <==> h[|h| - LIMIT].at == h[|h| - LIMIT].windowStart)
  {
  }

  lemma {:induction false} RunAppend(es: seq<Event>, e: Event)
    ensures Run(es + [e]) == Next(Run(es), e)
  {
  }

  lemma {:induction false} NothingYet()
    ensures Run([]) == INITIAL
  {
  }

  lemma {:induction false} HoldAgain(es: seq<Event>, u: Url, x: Context, c: Count)
    requires HookOutcome(INITIAL, u, x) == Held && u !in Run(es).tokens && Current(Run(es), u) == c && c.count < LIMIT
    ensures var (s, t) := (Run(es), Run(es + [Visit(u, x)]));
      && t.now == s.now && t.tokens == s.tokens && u in t.counts && t.counts[u] == Count(c.count + 1, c.windowStart)
      && Holds(t.trace, u) == Holds(s.trace, u) + [SentToHolding(u, s.now, c.windowStart)]
    {
    hide Holds, Run;
    RunAppend(es, Visit(u, x));
    HoldsAppend(Run(es).trace, SentToHolding(u, Run(es).now, c.windowStart), u);
  }

  /** A navigation, thirty seconds later two more, and three once the counter starts over. */
  function FiveInTime(u: Url, x: Context): seq<Event> {
    var visit := Visit(u, x);
    [visit] + [Wait(29_999)] + [visit] + [visit] + [Wait(2)] + [visit] + [visit] + [visit]
  }

  lemma {:induction false} FiveHoldsFit(u: Url, x: Context)
    requires HookOutcome(INITIAL, u, x) == Held
    ensures NoClear(FiveInTime(u, x))
    ensures Holds(Run(FiveInTime(u, x)).trace, u) ==
      [SentToHolding(u, 0, 0), SentToHolding(u, 29_999, 0), SentToHolding(u, 29_999, 0)]
      + [SentToHolding(u, 30_001, 30_001), SentToHolding(u, 30_001, 30_001),
         SentToHolding(u, 30_001, 30_001)]
  {
    hide Holds, Run;
    var v := [Visit(u, x)];
    NoHolds(u);
    NothingYet();
    HoldAgain([], u, x, Count(0, 0));
    assert [] + v == v;
    RunAppend(v, Wait(29_999));
    HoldAgain(v + [Wait(29_999)], u, x, Count(1, 0));
    HoldAgain(v + [Wait(29_999)] + v, u, x, Count(2, 0));
    RunAppend(v + [Wait(29_999)] + v + v, Wait(2));
    var es := v + [Wait(29_999)] + v + v + [Wait(2)];
    HoldAgain(es, u, x, Count(0, 30_001));
    HoldAgain(es + v, u, x, Count(1, 30_001));
    HoldAgain(es + v + v, u, x, Count(2, 30_001));
  }
}
