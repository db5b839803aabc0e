/**
 * Browser extension: the navigation hook together with the verdict cache it asks and the resolve handler that
 * fills it. URLs are in printed form; the token form and the hash are those of the storage keys.
 */
module CachedNavigation {
  import opened Wrappers
  import C = VerdictCache
  import N = Navigation

  type Url = string

  /** What the hook looks up besides token, throttle and cache. */
  datatype Facts = Facts(topFrame: bool, skipped: bool, enabled: bool, allowTemp: bool, allowlisted: bool,
                         sensitive: bool)

  /** `past` is what has happened to the cache, in order. */
  datatype World = World(nav: N.State, past: seq<C.Event>)

  /** How URLs print and hash. */
  datatype Keys = Keys(canon: string -> string, sha: string -> string)

  datatype Event =
    | Wait(ms: nat)
    | Apply(url: Url)
    | Store(url: Url, v: C.Verdict)  // the resolve handler stores a verdict for the URL
    | Visit(url: Url, f: Facts)
    | Restart
    | Evict(key: string)

  function Token(url: Url, keys: Keys): string { C.NormalizeForToken(url, keys.canon) }

  /** The key under which the resolve handler stores. */
  function StoreKey(url: Url, keys: Keys): string { C.WriteKey(url, keys.canon, keys.sha) }

  /** The verdict the hook finds for this URL. */
  function Cached(w: World, url: Url, keys: Keys): Option<string> {
    var r := C.Answer(C.Run(w.past).s, C.ReadKey(url, keys.sha), w.nav.now);
    if r.Some? then Some(r.value.verdict) else None
  }

  function ContextOf(w: World, url: Url, f: Facts, keys: Keys): N.Context {
    N.Context(f.topFrame, f.skipped, f.enabled, f.allowTemp, f.allowlisted, f.sensitive, Cached(w, url, keys))
  }

  function OutcomeOf(w: World, url: Url, f: Facts, keys: Keys): N.Outcome {
    N.HookOutcome(w.nav, Token(url, keys), ContextOf(w, url, f, keys))
  }

  /** The hook asks the cache unless something before it decides or the page is sensitive. */
  predicate Asks(w: World, url: Url, f: Facts, keys: Keys) {
    !f.sensitive && N.ReachesCache(w.nav, Token(url, keys), ContextOf(w, url, f, keys))
  }

  function VisitStep(w: World, url: Url, f: Facts, keys: Keys): World {
    World(N.Navigate(w.nav, Token(url, keys), ContextOf(w, url, f, keys)),
          if Asks(w, url, f, keys) then w.past + [C.Get(C.ReadKey(url, keys.sha))] else w.past)
  }

  function Next(w: World, e: Event, keys: Keys): World {
    match e
    case Wait(ms) => World(w.nav.(now := w.nav.now + ms), w.past + [C.Wait(ms)])
    case Apply(url) => w.(nav := N.Stamp(w.nav, Token(url, keys)))
    case Store(url, v) => w.(past := w.past + [C.Set(StoreKey(url, keys), v)])
    case Visit(url, f) => VisitStep(w, url, f, keys)
    case Restart => World(w.nav.(tokens := map[], counts := map[]), w.past + [C.Restart])
    case Evict(key) => w.(past := w.past + [C.Evict(key)])
  }

  function Run(es: seq<Event>, keys: Keys): World {
    if es == [] then World(N.INITIAL, []) else Next(Run(es[..|es| - 1], keys), es[|es| - 1], keys)
  }

  /**
   * How the parts move together: a navigation is the hook's with what the cache answers, and looks into the
   * cache exactly if nothing before decides it and the page is not sensitive; a restart empties tokens,
   * counters and session entries and keeps the persistent ones.
   */
  lemma {:induction false} PartsMove(w: World, url: Url, f: Facts, key: string, keys: Keys)
    ensures var (t, u) := (Next(w, Visit(url, f), keys), Token(url, keys));
      && t.nav == N.Navigate(w.nav, u, N.Context(f.topFrame, f.skipped, f.enabled, f.allowTemp, f.allowlisted,
                                                  f.sensitive, Cached(w, url, keys)))
      && var asked := f.topFrame && !f.skipped && f.enabled && !N.FreshToken(w.nav, u) && !f.allowTemp
                      && !f.allowlisted && !f.sensitive;
         C.Run(t.past) == if asked then C.Next(C.Run(w.past), C.Get(C.ReadKey(url, keys.sha))) else C.Run(w.past)
    ensures var t := Next(w, Restart, keys);
      t.nav.tokens == map[] && t.nav.counts == map[] && C.Run(t.past).s == C.Storage(map[], C.Run(w.past).s.local)
    ensures C.Run(Next(w, Evict(key), keys).past).s ==
      C.Storage(C.Run(w.past).s.session - {key}, C.Run(w.past).s.local)
    ensures Next(w, Apply(url), keys).nav.tokens == w.nav.tokens[Token(url, keys) := w.nav.now]
  {
    hide C.NormalizeForToken, N.Navigate, C.AfterGet, Cached, C.ReadKey, C.Run, N.FreshToken;
    C.RunLast(w.past, C.Get(C.ReadKey(url, keys.sha)));
    C.RunLast(w.past, C.Restart);
    C.RunLast(w.past, C.Evict(key));
  }

  // ----- both parts go by one clock

  lemma {:induction false} OneClock(es: seq<Event>, keys: Keys)
    ensures C.Run(Run(es, keys).past).now == Run(es, keys).nav.now
  {
    hide C.AfterSet, C.AfterGet, StoreKey, Token, VisitStep, C.Run;
    if es == [] {
      CacheAtFirst();
    } else {
      var (w, e) := (Run(es[..|es| - 1], keys), es[|es| - 1]);
      OneClock(es[..|es| - 1], keys);
      match e
      case Wait(ms) => C.RunLast(w.past, C.Wait(ms));
      case Store(url, v) => C.RunLast(w.past, C.Set(StoreKey(url, keys), v));
      case Restart => C.RunLast(w.past, C.Restart);
      case Evict(key) => C.RunLast(w.past, C.Evict(key));
      case Apply(_) =>
      case Visit(url, f) => VisitTakesNoTime(w, url, f, keys);
    }
  }

  lemma {:induction false} VisitTakesNoTime(w: World, url: Url, f: Facts, keys: Keys)
    ensures var t := VisitStep(w, url, f, keys); t.nav.now == w.nav.now && C.Run(t.past).now == C.Run(w.past).now
  {
    hide C.NormalizeForToken, N.Navigate, C.AfterGet, N.HookOutcome, Cached, Asks, C.ReadKey, C.Run;
    C.RunLast(w.past, C.Get(C.ReadKey(url, keys.sha)));
    C.LookupCleansUp(C.Run(w.past), C.ReadKey(url, keys.sha));
    N.NavigationLeaves(w.nav, Token(url, keys), ContextOf(w, url, f, keys));
  }

  lemma {:induction false} CacheAtFirst()
    ensures C.Run([]).now == 0
  {
  }

  // ----- the last store of a key

  /** Event `k` stores `v` for a URL of this key at time `t`, and no later event stores under it. */
  ghost predicate LastStore(es: seq<Event>, keys: Keys, key: string, k: nat, v: C.Verdict, t: nat) {
    && k < |es| && es[k].Store? && StoreKey(es[k].url, keys) == key && es[k].v == v && Run(es[..k], keys).nav.now == t
    && forall j :: k < j < |es| && es[j].Store? ==> StoreKey(es[j].url, keys) != key
  }

  lemma {:induction false} LastWriteAppend(past: seq<C.Event>, e: C.Event, key: string)
    ensures C.LastWrite(past + [e], key) ==
      if e.Set? && e.key == key then Some(C.Entry(e.v, C.Run(past).now)) else C.LastWrite(past, key)
  {
    assert (past + [e])[..|past|] == past;
  }

  /** A step changes the last write of a key exactly if it stores under it. */
  lemma {:induction false} StepWrites(es: seq<Event>, keys: Keys, key: string)
    requires es != []
    ensures var (front, e) := (es[..|es| - 1], es[|es| - 1]);
      C.LastWrite(Run(es, keys).past, key) ==
        if e.Store? && StoreKey(e.url, keys) == key then Some(C.Entry(e.v, Run(front, keys).nav.now))
        else C.LastWrite(Run(front, keys).past, key)
  {
    hide C.LastWrite, N.Navigate, Cached, StoreKey, C.ReadKey, Token, Asks, C.Run;
    var (front, e) := (es[..|es| - 1], es[|es| - 1]);
    var w := Run(front, keys);
    OneClock(front, keys);
    match e
    case Wait(ms) => LastWriteAppend(w.past, C.Wait(ms), key);
    case Store(url, v) => LastWriteAppend(w.past, C.Set(StoreKey(url, keys), v), key);
    case Restart => LastWriteAppend(w.past, C.Restart, key);
    case Evict(k) => LastWriteAppend(w.past, C.Evict(k), key);
    case Apply(_) =>
    case Visit(url, f) => LastWriteAppend(w.past, C.Get(C.ReadKey(url, keys.sha)), key);
  }

  lemma {:induction false} LastWriteIs(es: seq<Event>, keys: Keys, key: string, k: nat, v: C.Verdict, t: nat)
    requires LastStore(es, keys, key, k, v, t)
    ensures C.LastWrite(Run(es, keys).past, key) == Some(C.Entry(v, t))
  {
    hide Run, C.LastWrite, StoreKey;
    var front := es[..|es| - 1];
    StepWrites(es, keys, key);
    if k < |front| {
      assert front[..k] == es[..k];
      assert LastStore(front, keys, key, k, v, t);
      LastWriteIs(front, keys, key, k, v, t);
    }
  }

  lemma {:induction false} WrittenByStore(es: seq<Event>, keys: Keys, key: string) returns (k: nat)
    requires C.LastWrite(Run(es, keys).past, key).Some?
    ensures var e := C.LastWrite(Run(es, keys).past, key).value; LastStore(es, keys, key, k, e.v, e.t)
  {
    hide C.LastWrite, StoreKey, Next;
    if es == [] {
      k := 0;
      assert false by { NothingWritten(key); }
    } else {
      var (front, e) := (es[..|es| - 1], es[|es| - 1]);
      StepWrites(es, keys, key);
      if e.Store? && StoreKey(e.url, keys) == key {
        k := |front|;
      } else {
        k := WrittenByStore(front, keys, key);
        assert front[..k] == es[..k];
      }
    }
  }

  lemma {:induction false} NothingWritten(key: string)
    ensures C.LastWrite([], key) == None
  {
  }

  // ----- what the stored verdicts do to navigations

  /** A watched navigation without a valid token or an override, to a page that is not sensitive. */
  predicate Plain(w: World, url: Url, f: Facts, keys: Keys) {
    && f.topFrame && !f.skipped && f.enabled && !f.allowTemp && !f.allowlisted && !f.sensitive
    && !N.FreshToken(w.nav, Token(url, keys))
  }

  /**
   * Over every run, a BLOCK stored for a URL in token form, and not replaced since, sends every plain
   * navigation to that URL within the next hour to the blocked page, through any restarts.
   */
  lemma {:induction false} BlockedForAnHour(es: seq<Event>, url: Url, f: Facts, keys: Keys, k: nat, v: C.Verdict,
          t: nat)
    requires keys.canon(url) == url && C.TokenForm(url)
    requires LastStore(es, keys, StoreKey(url, keys), k, v, t) && v.verdict == "BLOCK"
    requires Run(es, keys).nav.now <= t + 3_600_000 && Plain(Run(es, keys), url, f, keys)
    ensures OutcomeOf(Run(es, keys), url, f, keys) == N.Blocked
  {
    hide Run, C.LastWrite, C.Run, C.Answer, N.HookOutcome, C.NormalizeForToken, C.TokenForm;
    var w := Run(es, keys);
    C.OwnTokenFormIff(url, keys.canon);
    LastWriteIs(es, keys, StoreKey(url, keys), k, v, t);
    OneClock(es, keys);
    C.BlockAgeLimit(w.past, StoreKey(url, keys));
    N.OutcomeIff(w.nav, Token(url, keys), ContextOf(w, url, f, keys));
  }

  /**
   * Over every run, a navigation passes by the cache only if an ALLOW was stored for its very URL at most
   * five minutes ago, and nothing has been stored for it since.
   */
  lemma {:induction false} PassedByAllowOnly(es: seq<Event>, url: Url, f: Facts, keys: Keys)
    returns (k: nat, v: C.Verdict, t: nat)
    requires C.Injective(keys.sha) && OutcomeOf(Run(es, keys), url, f, keys) == N.PassedCached
    ensures LastStore(es, keys, C.ReadKey(url, keys.sha), k, v, t) && Token(es[k].url, keys) == url
    ensures v.verdict == "ALLOW" && t <= Run(es, keys).nav.now <= t + 300_000
  {
    hide Run, C.LastWrite, C.LastBlock, C.Run, C.Answer, N.HookOutcome, C.NormalizeForToken, C.SessionIntact,
      C.CopyKept;
    var w := Run(es, keys);
    var key := C.ReadKey(url, keys.sha);
    N.OutcomeIff(w.nav, Token(url, keys), ContextOf(w, url, f, keys));
    OneClock(es, keys);
    C.EveryAnswer(w.past, key);
    BlocksBlock(w.past, key);
    var e := C.LastWrite(w.past, key).value;
    k := WrittenByStore(es, keys, key);
    v, t := e.v, e.t;
    C.KeysMeetIff(es[k].url, url, keys.canon, keys.sha);
    Earlier(es, keys, k);
  }

  lemma {:induction false} BlocksBlock(past: seq<C.Event>, key: string)
    ensures C.LastBlock(past, key).Some? ==> C.LastBlock(past, key).value.v.verdict == "BLOCK"
  {
    C.Always(past, key);
  }

  lemma {:induction false} Earlier(es: seq<Event>, keys: Keys, k: nat)
    requires k <= |es|
    ensures Run(es[..k], keys).nav.now <= Run(es, keys).nav.now
  {
    hide N.Navigate, Cached, Token, Asks;
    if k < |es| {
      var (front, e) := (es[..|es| - 1], es[|es| - 1]);
      Earlier(front, keys, k);
      assert front[..k] == es[..k];
      var w := Run(front, keys);
      if e.Visit? { N.NavigationLeaves(w.nav, Token(e.url, keys), ContextOf(w, e.url, e.f, keys)); }
    } else {
      assert es[..k] == es;
    }
  }
}
