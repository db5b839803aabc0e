/**
 * verdict-api: per-client and per-address rate limiting on expiring per-minute counters. Times are
 * milliseconds; `stamp` prints a minute as "2006-01-02T15:04".
 */
module RateLimit {
  const MINUTE: nat := 60_000
  const COUNTER_TTL: nat := 120_000

  type Stamp = nat -> string

  /** Minutes print as sixteen characters, different minutes differently. */
  ghost predicate Prints(stamp: Stamp) {
    (forall m: nat :: |stamp(m)| == 16) && (forall m: nat, n: nat :: stamp(m) == stamp(n) ==> m == n)
  }

  datatype Kind = Cid | Ip

  function KindText(k: Kind): string { if k.Cid? then "cid" else "ip" }

  /** `rlBucketKey` for the minute of `now`. */
  function BucketKey(kind: Kind, identity: string, now: nat, stamp: Stamp): string {
    "rl:" + KindText(kind) + ":" + identity + ":" + stamp(now / MINUTE)
  }

  lemma {:induction false} SameParts(a: string, b: string, a': string, b': string)
    requires a + b == a' + b' && (|a| == |a'| || |b| == |b'|)
    ensures a == a' && b == b'
  {
    var s := a + b;
    assert a == s[..|a|] && b == s[|a|..];
    assert a' == s[..|a'|] && b' == s[|a'|..];
  }

  lemma {:induction false} SameKind(k: Kind, rest: string, k': Kind, rest': string)
    requires "rl:" + (KindText(k) + rest) == "rl:" + (KindText(k') + rest')
    ensures k == k' && rest == rest'
  {
    SameParts("rl:", KindText(k) + rest, "rl:", KindText(k') + rest');
    assert (KindText(k) + rest)[0] == KindText(k)[0] && (KindText(k') + rest')[0] == KindText(k')[0];
    SameParts(KindText(k), rest, KindText(k'), rest');
  }

  lemma {:induction false} Regrouped(kind: Kind, id: string, minute: string)
    ensures "rl:" + KindText(kind) + ":" + id + ":" + minute == "rl:" + (KindText(kind) + (":" + (id + (":" + minute))))
  {
  }

  /** Bucket keys are injective in kind, identity and minute, whatever characters the identity has. */
  lemma {:induction false} BucketKeyIsInjective(k: Kind, id: string, t: nat, k': Kind, id': string, t': nat,
          stamp: Stamp)
    requires Prints(stamp)
    ensures BucketKey(k, id, t, stamp) == BucketKey(k', id', t', stamp) <==>
      k == k' && id == id' && t / MINUTE == t' / MINUTE
  {
    hide KindText;
    if BucketKey(k, id, t, stamp) == BucketKey(k', id', t', stamp) {
      var (m, m') := (stamp(t / MINUTE), stamp(t' / MINUTE));
      Regrouped(k, id, m);
      Regrouped(k', id', m');
      SameKind(k, ":" + (id + (":" + m)), k', ":" + (id' + (":" + m')));
      SameParts(":", id + (":" + m), ":", id' + (":" + m'));
      SameParts(id, ":" + m, id', ":" + m');
      SameParts(":", m, ":", m');
    }
  }

  /** The text of a bucket key. */
  lemma {:induction false} BucketKeyText(id: string, now: nat, stamp: Stamp)
    ensures BucketKey(Cid, id, now, stamp) == "rl:cid:" + id + ":" + stamp(now / 60_000)
    ensures BucketKey(Ip, id, now, stamp) == "rl:ip:" + id + ":" + stamp(now / 60_000)
  {
  }

  // ----- one check

  datatype Counter = Counter(count: nat, expireAt: nat)
  type Store = map<string, Counter>

  function Count(store: Store, key: string, now: nat): nat {
    if key in store && now < store[key].expireAt then store[key].count else 0
  }

  /** INCR and EXPIRE. */
  function Bumped(store: Store, key: string, now: nat): Store {
    store[key := Counter(Count(store, key, now) + 1, now + COUNTER_TTL)]
  }

  datatype Decision = ClientLimited | AddressLimited | Admitted
  datatype Entry = Entry(client: string, ip: string, at: nat, decision: Decision)

  datatype Limits = Limits(client: nat, ip: nat)
  datatype State = State(now: nat, store: Store, log: seq<Entry>)

  function Decided(s: State, client: string, ip: string, l: Limits, stamp: Stamp): Decision {
    if Count(s.store, BucketKey(Cid, client, s.now, stamp), s.now) + 1 > l.client then ClientLimited
    else if Count(Bumped(s.store, BucketKey(Cid, client, s.now, stamp), s.now),
            BucketKey(Ip, ip, s.now, stamp), s.now) + 1 > l.ip
    then AddressLimited
    else Admitted
  }

  function Requested(s: State, client: string, ip: string, l: Limits, stamp: Stamp): State {
    var d := Decided(s, client, ip, l, stamp);
    var one := Bumped(s.store, BucketKey(Cid, client, s.now, stamp), s.now);
    State(s.now, if d.ClientLimited? then one else Bumped(one, BucketKey(Ip, ip, s.now, stamp), s.now),
          s.log + [Entry(client, ip, s.now, d)])
  }

  class Limiter {
    const limits: Limits
    const stamp: Stamp
    var store: Store

    constructor (limits: Limits, stamp: Stamp)
      ensures store == map[] && this.limits == limits && this.stamp == stamp
    {
      this.limits, this.stamp, store := limits, stamp, map[];
    }

    method CheckRateLimit(key: string, limit: nat, now: nat) returns (within: bool)
      modifies this
      ensures store == Bumped(old(store), key, now)
      ensures within <==> Count(old(store), key, now) + 1 <= limit
    {
      var n := (if key in store && now < store[key].expireAt then store[key].count else 0) + 1;
      store := store[key := Counter(n, now + COUNTER_TTL)];
      within := n <= limit;
    }

    method Handle(client: string, ip: string, now: nat) returns (d: Decision)
      modifies this
      ensures d == Decided(State(now, old(store), []), client, ip, limits, stamp)
      ensures store == Requested(State(now, old(store), []), client, ip, limits, stamp).store
    {
      var ok := CheckRateLimit(BucketKey(Cid, client, now, stamp), limits.client, now);
      if !ok {
        return ClientLimited;
      }
      ok := CheckRateLimit(BucketKey(Ip, ip, now, stamp), limits.ip, now);
      return if ok then Admitted else AddressLimited;
    }
  }

  // ----- runs

  datatype Event = Wait(ms: nat) | Request(client: string, ip: string)

  function Next(s: State, e: Event, l: Limits, stamp: Stamp): State {
    match e
    case Wait(ms) => s.(now := s.now + ms)
    case Request(client, ip) => Requested(s, client, ip, l, stamp)
  }

  function Run(es: seq<Event>, l: Limits, stamp: Stamp): State {
    if es == [] then State(0, map[], []) else Next(Run(es[..|es| - 1], l, stamp), es[|es| - 1], l, stamp)
  }

  /**
   * Does this request count for the bucket: every request for its client,
   * those past the client check for its address.
   */
  predicate Counts(e: Entry, k: Kind, id: string) {
    match k
    case Cid => e.client == id
    case Ip => e.ip == id && !e.decision.ClientLimited?
  }

  /** How many requests of a run count for a bucket, with no expiry anywhere. */
  function InBucket(log: seq<Entry>, k: Kind, id: string, m: nat): nat {
    if log == [] then 0
    else InBucket(log[..|log| - 1], k, id, m)
         + (if Counts(log[|log| - 1], k, id) && log[|log| - 1].at / 60_000 == m then 1 else 0)
  }

  /** The stored counter of a bucket against the requests that count for it, in and after the bucket's minute. */
  ghost predicate Agrees(s: State, k: Kind, id: string, t: nat, stamp: Stamp) {
    var key := BucketKey(k, id, t, stamp);
    && (t / MINUTE > s.now / MINUTE ==> key !in s.store && InBucket(s.log, k, id, t / MINUTE) == 0)
    && (t / MINUTE == s.now / MINUTE ==>
          if key in s.store
          then s.store[key].count == InBucket(s.log, k, id, t / MINUTE)
               && s.store[key].expireAt >= t / MINUTE * MINUTE + COUNTER_TTL
          else InBucket(s.log, k, id, t / MINUTE) == 0)
  }

  lemma {:induction false} MinuteSpan(now: nat)
    ensures now / MINUTE * MINUTE <= now < now / MINUTE * MINUTE + MINUTE
  {
  }

  /** During its own minute a bucket never expires. */
  lemma {:induction false} CountIs(s: State, k: Kind, id: string, stamp: Stamp)
    requires Agrees(s, k, id, s.now, stamp)
    ensures Count(s.store, BucketKey(k, id, s.now, stamp), s.now) == InBucket(s.log, k, id, s.now / MINUTE)
  {
  }

  lemma {:induction false} BucketOfAppend(log: seq<Entry>, e: Entry, k: Kind, id: string, m: nat)
    ensures InBucket(log + [e], k, id, m) == InBucket(log, k, id, m)
      + (if Counts(e, k, id) && e.at / 60_000 == m then 1 else 0)
  {
  }

  /** One bump agrees with one more counted request, for the bumped bucket and for all others. */
  lemma {:induction false} BumpAgrees(s: State, kind: Kind, who: string, log: seq<Entry>, k: Kind, id: string,
          t: nat, stamp: Stamp)
    requires Prints(stamp) && Agrees(s, k, id, t, stamp)
    requires var hit := k == kind && id == who && t / MINUTE == s.now / MINUTE;
      InBucket(log, k, id, t / MINUTE) == InBucket(s.log, k, id, t / MINUTE) + (if hit then 1 else 0)
    ensures Agrees(State(s.now, Bumped(s.store, BucketKey(kind, who, s.now, stamp), s.now), log), k, id, t, stamp)
  {
    hide InBucket, BucketKey;
    BucketKeyIsInjective(k, id, t, kind, who, s.now, stamp);
    MinuteSpan(s.now);
    if k == kind && id == who && t / MINUTE == s.now / MINUTE {
      assert Agrees(s, k, id, s.now, stamp);
      CountIs(s, k, id, stamp);
    }
  }

  lemma {:induction false} RequestAgrees(s: State, client: string, ip: string, l: Limits, k: Kind, id: string,
          t: nat, stamp: Stamp)
    requires Prints(stamp) && Agrees(s, k, id, t, stamp)
    ensures Agrees(Requested(s, client, ip, l, stamp), k, id, t, stamp)
  {
    hide InBucket, BucketKey, Agrees, Bumped, Decided;
    var d := Decided(s, client, ip, l, stamp);
    var e := Entry(client, ip, s.now, d);
    BucketOfAppend(s.log, e, k, id, t / MINUTE);
    if d.ClientLimited? {
      BumpAgrees(s, Cid, client, s.log + [e], k, id, t, stamp);
    } else {
      var half := Entry(client, ip, s.now, ClientLimited);
      BucketOfAppend(s.log, half, k, id, t / MINUTE);
      BumpAgrees(s, Cid, client, s.log + [half], k, id, t, stamp);
      BumpAgrees(State(s.now, Bumped(s.store, BucketKey(Cid, client, s.now, stamp), s.now), s.log + [half]),
                 Ip, ip, s.log + [e], k, id, t, stamp);
    }
  }

  lemma {:induction false} WaitAgrees(s: State, ms: nat, k: Kind, id: string, t: nat, stamp: Stamp)
    requires Agrees(s, k, id, t, stamp)
    ensures Agrees(s.(now := s.now + ms), k, id, t, stamp)
  {
  }

  lemma {:induction false} AlwaysAgrees(es: seq<Event>, l: Limits, k: Kind, id: string, t: nat, stamp: Stamp)
    requires Prints(stamp)
    ensures Agrees(Run(es, l, stamp), k, id, t, stamp)
  {
    hide Requested;
    if es != [] {
      hide Agrees;
      AlwaysAgrees(es[..|es| - 1], l, k, id, t, stamp);
      match es[|es| - 1]
      case Wait(ms) => WaitAgrees(Run(es[..|es| - 1], l, stamp), ms, k, id, t, stamp);
      case Request(c, ip) => RequestAgrees(Run(es[..|es| - 1], l, stamp), c, ip, l, k, id, t, stamp);
    }
  }

  /**
   * After every run the decision on the next request is the one that plain counting would give: the client
   * check counts all earlier requests of the client in this minute, the address check the earlier requests
   * of the address that passed their client check.
   */
  lemma {:induction false} DecidesByPlainCounts(es: seq<Event>, l: Limits, client: string, ip: string, stamp: Stamp)
    requires Prints(stamp)
    ensures var s := Run(es, l, stamp);
      Decided(s, client, ip, l, stamp)
      == if InBucket(s.log, Cid, client, s.now / 60_000) >= l.client then ClientLimited
         else if InBucket(s.log, Ip, ip, s.now / 60_000) >= l.ip then AddressLimited
         else Admitted
  {
    hide InBucket, BucketKey, Run, Agrees;
    var s := Run(es, l, stamp);
    AlwaysAgrees(es, l, Cid, client, s.now, stamp);
    AlwaysAgrees(es, l, Ip, ip, s.now, stamp);
    CountIs(s, Cid, client, stamp);
    CountIs(s, Ip, ip, stamp);
    BucketKeyIsInjective(Cid, client, s.now, Ip, ip, s.now, stamp);
  }

  /** What plain counting says about a request at `now` after the requests of `log`. */
  function PlainDecision(log: seq<Entry>, client: string, ip: string, now: nat, l: Limits): Decision {
    if InBucket(log, Cid, client, now / 60_000) >= l.client then ClientLimited
    else if InBucket(log, Ip, ip, now / 60_000) >= l.ip then AddressLimited
    else Admitted
  }

  /** Every decision of a run is that of plain counting over the requests before it. */
  lemma {:induction false} EveryDecisionIsPlain(es: seq<Event>, l: Limits, stamp: Stamp, k: nat)
    requires Prints(stamp) && k < |Run(es, l, stamp).log|
    ensures var log := Run(es, l, stamp).log;
      log[k].decision == PlainDecision(log[..k], log[k].client, log[k].ip, log[k].at, l)
  {
    hide InBucket, Decided;
    var (s, e) := (Run(es[..|es| - 1], l, stamp), es[|es| - 1]);
    if e.Request? && k == |s.log| {
      DecidesByPlainCounts(es[..|es| - 1], l, e.client, e.ip, stamp);
      assert Run(es, l, stamp).log[..k] == s.log;
    } else {
      EveryDecisionIsPlain(es[..|es| - 1], l, stamp, k);
      assert Run(es, l, stamp).log[..k] == s.log[..k];
    }
  }

  function Waited(es: seq<Event>): nat {
    if es == [] then 0 else Waited(es[..|es| - 1]) + (if es[|es| - 1].Wait? then es[|es| - 1].ms else 0)
  }

  /** The clock of a run is the time waited, and the log has one entry for each request. */
  lemma {:induction false} RunsInTime(es: seq<Event>, l: Limits, stamp: Stamp)
    ensures Run(es, l, stamp).now == Waited(es)
    ensures es != [] && es[|es| - 1].Request? ==>
      var (log, front, e) := (Run(es, l, stamp).log, Run(es[..|es| - 1], l, stamp).log, es[|es| - 1]);
      |log| == |front| + 1 && log[..|front|] == front
      && log[|front|].client == e.client && log[|front|].ip == e.ip && log[|front|].at == Waited(es)
  {
    hide Decided;
    if es != [] { RunsInTime(es[..|es| - 1], l, stamp); }
  }

  /** A counter is forgotten two minutes after its last request, and not before. */
  lemma {:induction false} CounterLivesTwoMinutes(store: Store, key: string, at: nat, now: nat)
    requires at <= now
    ensures Count(Bumped(store, key, at), key, now) == if now < at + 120_000 then Count(store, key, at) + 1 else 0
    ensures forall other :: other != key ==> Count(Bumped(store, key, at), other, now) == Count(store, other, now)
  {
  }

  // ----- bounds

  predicate Concerns(e: Entry, k: Kind, id: string) { if k.Cid? then e.client == id else e.ip == id }

  function Limit(l: Limits, k: Kind): nat { if k.Cid? then l.client else l.ip }

  /** Admitted requests of an identity in one minute. */
  function AdmittedIn(log: seq<Entry>, k: Kind, id: string, m: nat): nat {
    if log == [] then 0
    else AdmittedIn(log[..|log| - 1], k, id, m)
         + (if log[|log| - 1].decision.Admitted? && Concerns(log[|log| - 1], k, id) && log[|log| - 1].at / 60_000 == m
             then 1 else 0)
  }

  lemma {:induction false} AdmittedAppend(log: seq<Entry>, e: Entry, k: Kind, id: string, m: nat)
    ensures AdmittedIn(log + [e], k, id, m)
         == AdmittedIn(log, k, id, m)
            + (if e.decision.Admitted? && Concerns(e, k, id) && e.at / 60_000 == m then 1 else 0)
  {
  }

  /** At most `limit` requests of an identity are admitted per minute. */
  lemma {:induction false} BucketBound(es: seq<Event>, l: Limits, k: Kind, id: string, m: nat, stamp: Stamp)
    requires Prints(stamp)
    ensures AdmittedIn(Run(es, l, stamp).log, k, id, m) <= InBucket(Run(es, l, stamp).log, k, id, m)
    ensures AdmittedIn(Run(es, l, stamp).log, k, id, m) <= Limit(l, k)
  {
    hide InBucket, AdmittedIn, Decided;
    if es == [] {
      NoEntries(k, id, m);
    } else {
      var (front, e) := (es[..|es| - 1], es[|es| - 1]);
      BucketBound(front, l, k, id, m, stamp);
      if e.Request? {
        var s := Run(front, l, stamp);
        DecidesByPlainCounts(front, l, e.client, e.ip, stamp);
        var entry := Entry(e.client, e.ip, s.now, Decided(s, e.client, e.ip, l, stamp));
        BucketOfAppend(s.log, entry, k, id, m);
        AdmittedAppend(s.log, entry, k, id, m);
      }
    }
  }

  lemma {:induction false} NoEntries(k: Kind, id: string, m: nat)
    ensures InBucket([], k, id, m) == 0 && AdmittedIn([], k, id, m) == 0
  {
  }

  /** Admitted requests of an identity from time `from` on, for one minute, both ends included. */
  function AdmittedFrom(log: seq<Entry>, k: Kind, id: string, from: nat): nat {
    if log == [] then 0
    else AdmittedFrom(log[..|log| - 1], k, id, from)
         + (if log[|log| - 1].decision.Admitted? && Concerns(log[|log| - 1], k, id)
               && from <= log[|log| - 1].at <= from + 60_000 then 1 else 0)
  }

  lemma {:induction false} IntervalMeetsTwoBuckets(log: seq<Entry>, k: Kind, id: string, from: nat)
    ensures AdmittedFrom(log, k, id, from) <=
      AdmittedIn(log, k, id, from / 60_000) + AdmittedIn(log, k, id, from / 60_000 + 1)
  {
    if log != [] {
      IntervalMeetsTwoBuckets(log[..|log| - 1], k, id, from);
      var at := log[|log| - 1].at;
      assert from <= at <= from + MINUTE ==> at / MINUTE == from / MINUTE || at / MINUTE == from / MINUTE + 1;
    }
  }

  /** At most twice the limit in any sixty seconds, over every run. */
  lemma {:induction false} AnyMinuteBound(es: seq<Event>, l: Limits, k: Kind, id: string, from: nat, stamp: Stamp)
    requires Prints(stamp)
    ensures AdmittedFrom(Run(es, l, stamp).log, k, id, from) <= 2 * Limit(l, k)
  {
    IntervalMeetsTwoBuckets(Run(es, l, stamp).log, k, id, from);
    BucketBound(es, l, k, id, from / MINUTE, stamp);
    BucketBound(es, l, k, id, from / MINUTE + 1, stamp);
  }
}
