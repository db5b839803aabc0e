/** The resolver's decision for one query. */
module Resolver {
  import opened Wrappers
  import opened Rebind

  /** What the lookups of one query yield; `cached` is the stored verdict and `tier1` the fresh one. */
  datatype Facts = Facts(neverBlock: bool, blockBloom: bool, inStrict: bool, allowBloom: bool, inAllow: bool,
                         inWeak: bool, cached: Option<string>, tier1: string)

  predicate Refused(verdict: string) { verdict == "block" || verdict == "analyzing" }

  /** The verdict that decides when no list does: the cached one if it is known, else the fresh one. */
  function Verdict(f: Facts): string {
    if f.cached.Some? && f.cached.value in {"clean", "block", "warn", "analyzing"} then f.cached.value else f.tier1
  }

  /** Exactly when a query is answered with NXDOMAIN on purpose. */
  predicate Sinkholed(f: Facts) {
    && !f.neverBlock
    && ((f.blockBloom && f.inStrict)
        || (!(f.allowBloom && f.inAllow) && !(f.blockBloom && f.inWeak) && Refused(Verdict(f))))
  }

  /**
   * The order in which the lookups decide: each line holds once none above it applies. A name listed as
   * essential is never sinkholed, a strictly listed one otherwise always is.
   */
  lemma {:induction false} DecisionOrder(f: Facts)
    ensures f.neverBlock ==> !Sinkholed(f)
    ensures !f.neverBlock && f.blockBloom && f.inStrict ==> Sinkholed(f)
    ensures !(f.blockBloom && f.inStrict) && f.allowBloom && f.inAllow ==> !Sinkholed(f)
    ensures !(f.blockBloom && f.inStrict) && f.blockBloom && f.inWeak ==> !Sinkholed(f)
    ensures !f.neverBlock && !(f.blockBloom && (f.inStrict || f.inWeak)) && !(f.allowBloom && f.inAllow) ==>
      && (f.cached in {Some("clean"), Some("warn")} ==> !Sinkholed(f))
      && (f.cached in {Some("block"), Some("analyzing")} ==> Sinkholed(f))
      && (f.cached !in {Some("clean"), Some("warn"), Some("block"), Some("analyzing")} ==>
            (Sinkholed(f) <==> f.tier1 in {"block", "analyzing"}))
  {
  }

  method Resolve(f: Facts, exchange: Option<Reply>) returns (resp: Reply, sinkholed: bool)
    ensures sinkholed == Sinkholed(f)
    ensures resp == if sinkholed then NX else Upstream(exchange)
    ensures sinkholed ==> resp.rcode == NXDomain && resp.answer == []
  {
    hide Upstream;
    sinkholed := false;
    if f.neverBlock {
      resp := UpstreamAnswer(exchange);
      return;
    }
    if f.blockBloom {
      if f.inStrict {
        return NX, true;
      }
    }
    if f.allowBloom {
      if f.inAllow {
        resp := UpstreamAnswer(exchange);
        return;
      }
    }
    if f.blockBloom {
      if f.inWeak {
        resp := UpstreamAnswer(exchange);
        return;
      }
    }
    if f.cached.Some? {
      var v := f.cached.value;
      if v == "clean" || v == "warn" {
        resp := UpstreamAnswer(exchange);
        return;
      }
      if v == "block" || v == "analyzing" {
        return NX, true;
      }
    }
    if f.tier1 == "block" || f.tier1 == "analyzing" {
      return NX, true;
    }
    resp := UpstreamAnswer(exchange);
  }
}

/**
 * The whole chain: queries are answered, ledger writes follow asynchronously (in any order, possibly
 * never), and verdict-api later compares the address the browser connected to.
 */
module DnsPath {
  import opened Wrappers
  import opened Addresses
  import opened Rebind
  import opened Resolver
  import opened Ledger

  datatype Answer = Answer(client: string, domain: string, at: nat, reply: Reply, sinkholed: bool)

  /** A ledger write that has been started and has not reached Redis; `answer` is the answer it is for. */
  datatype Job = Job(client: string, domain: string, ips: seq<string>, ttl: nat, answer: nat)

  /** `origins` holds, for each entry of `log`, the answer it is for; `lost` the answers whose write failed. */
  datatype World = World(now: nat, log: seq<Entry>, origins: seq<nat>, pending: seq<Job>,
                         lost: seq<nat>, answers: seq<Answer>)

  const EMPTY: World := World(0, [], [], [], [], [])

  datatype Event =
    | Wait(seconds: nat)
    | Query(client: string, domain: string, facts: Facts, exchange: Option<Reply>)
    | Flush(job: nat)
    | Lose(job: nat)

  function QueryStep(w: World, q: Event, text: IP -> string): World
    requires q.Query?
  {
    var sunk := Sinkholed(q.facts);
    var reply := if sunk then NX else Upstream(q.exchange);
    var ips := TextsOf(Addrs(reply.answer), text);
    w.(answers := w.answers + [Answer(q.client, q.domain, w.now, reply, sunk)],
       pending := if sunk || ips == [] then w.pending
                  else w.pending + [Job(q.client, q.domain, ips, FoldTtl(Addrs(reply.answer)), |w.answers|)])
  }

  function Without(jobs: seq<Job>, i: nat): seq<Job>
    requires i < |jobs|
  {
    jobs[..i] + jobs[i + 1..]
  }

  function FlushStep(w: World, i: nat): World
    requires i < |w.pending|
  {
    var j := w.pending[i];
    w.(log := w.log + [Entry(Key(j.client, j.domain), j.ips, j.ttl, w.now)], origins := w.origins + [j.answer],
       pending := Without(w.pending, i))
  }

  function Next(w: World, e: Event, text: IP -> string): World {
    match e
    case Wait(seconds) => w.(now := w.now + seconds)
    case Query(_, _, _, _) => QueryStep(w, e, text)
    case Flush(i) => if i < |w.pending| then FlushStep(w, i) else w
    case Lose(i) =>
      if i < |w.pending| then w.(lost := w.lost + [w.pending[i].answer], pending := Without(w.pending, i)) else w
  }

  function Run(es: seq<Event>, text: IP -> string): World {
    if es == [] then EMPTY else Next(Run(es[..|es| - 1], text), es[|es| - 1], text)
  }

  /** What a reader of (client, domain) gets for the address the browser reported. */
  function Outcome(w: World, client: string, domain: string, optedIn: bool, browserIP: string): Comparison {
    Compared(optedIn, browserIP, Fresh(First(READ_BATCH, Live(StoreAfter(w.log), Key(client, domain), w.now)), w.now))
  }

  // ----- every entry is the write of one answer

  /** An answer that has to be written: not sinkholed, and with an address. */
  predicate Owing(a: Answer) { !a.sinkholed && Addrs(a.reply.answer) != [] }

  /** The write for an answer: its key, the texts of all its addresses, its folded TTL. */
  function WriteOf(a: Answer, at: nat, text: IP -> string): Entry {
    var addrs := Addrs(a.reply.answer);
    Entry(Key(a.client, a.domain), TextsOf(addrs, text), FoldTtl(addrs), at)
  }

  function JobOf(a: Answer, id: nat, text: IP -> string): Job {
    var addrs := Addrs(a.reply.answer);
    Job(a.client, a.domain, TextsOf(addrs, text), FoldTtl(addrs), id)
  }

  /** The records of an answer that was not sinkholed passed the filter. */
  predicate Filtered(a: Answer) {
    a.sinkholed || forall rr :: rr in a.reply.answer ==> Passes(rr)
  }

  ghost predicate LogTraced(w: World, text: IP -> string) {
    && |w.origins| == |w.log|
    && forall i :: 0 <= i < |w.log| ==>
         && w.origins[i] < |w.answers| && w.answers[w.origins[i]].at <= w.log[i].at <= w.now
         && Owing(w.answers[w.origins[i]]) && w.log[i] == WriteOf(w.answers[w.origins[i]], w.log[i].at, text)
  }

  ghost predicate JobsTraced(w: World, text: IP -> string) {
    forall i :: 0 <= i < |w.pending| ==>
      && w.pending[i].answer < |w.answers| && Owing(w.answers[w.pending[i].answer])
      && w.pending[i] == JobOf(w.answers[w.pending[i].answer], w.pending[i].answer, text)
  }

  ghost predicate Traced(w: World, text: IP -> string) {
    && InOrder(w.log) && LogTraced(w, text) && JobsTraced(w, text)
    && forall a :: a in w.answers ==> a.at <= w.now && Filtered(a)
  }

  lemma {:induction false} QueryTraced(w: World, q: Event, text: IP -> string)
    requires Traced(w, text) && q.Query?
    ensures Traced(QueryStep(w, q, text), text)
  {
    hide Upstream, Addrs, Key, Sinkholed, FoldTtl, Passes, WriteOf;
    forall rr | rr in Upstream(q.exchange).answer ensures Passes(rr) { UpstreamIsClean(q.exchange, rr); }
    var t := QueryStep(w, q, text);
    assert t.answers[..|w.answers|] == w.answers;
    assert forall i :: 0 <= i < |w.answers| ==> t.answers[i] == w.answers[i];
  }

  lemma {:induction false} FlushTraced(w: World, i: nat, text: IP -> string)
    requires Traced(w, text) && i < |w.pending|
    ensures Traced(FlushStep(w, i), text)
  {
  }

  lemma {:induction false} OtherTraced(w: World, e: Event, text: IP -> string)
    requires Traced(w, text) && !e.Query? && !e.Flush?
    ensures Traced(Next(w, e, text), text)
  {
  }

  lemma {:induction false} RunTraced(es: seq<Event>, text: IP -> string)
    ensures Traced(Run(es, text), text)
  {
    hide Traced, QueryStep, FlushStep;
    if es == [] {
      NothingTraced(text);
    } else {
      var (w, e) := (Run(es[..|es| - 1], text), es[|es| - 1]);
      RunTraced(es[..|es| - 1], text);
      match e
      case Query(_, _, _, _) => QueryTraced(w, e, text);
      case Flush(i) => if i < |w.pending| { FlushTraced(w, i, text); }
      case _ => OtherTraced(w, e, text);
    }
  }

  lemma {:induction false} NothingTraced(text: IP -> string)
    ensures Traced(EMPTY, text)
  {
  }

  /**
   * In every run each ledger entry is the write of one answer: its client's key, the texts of all its
   * addresses in order, its folded TTL, at a time after the answer.
   */
  lemma {:induction false} EntriesAreAnswers(es: seq<Event>, i: nat, text: IP -> string)
    requires i < |Run(es, text).log|
    ensures var w := Run(es, text);
      && i < |w.origins| && w.origins[i] < |w.answers| && w.answers[w.origins[i]].at <= w.log[i].at <= w.now
      && Owing(w.answers[w.origins[i]]) && w.log[i] == WriteOf(w.answers[w.origins[i]], w.log[i].at, text)
  {
    hide Run, Owing, WriteOf, Filtered;
    RunTraced(es, text);
  }

  /** The answer to a query: refused if the lookups say so, else what came from upstream, filtered. */
  lemma {:induction false} AnswerIsResolved(es: seq<Event>, q: Event, text: IP -> string)
    requires q.Query?
    ensures var (w, t) := (Run(es, text), Run(es + [q], text));
      && |t.answers| == |w.answers| + 1 && t.answers[..|w.answers|] == w.answers && t.log == w.log && t.lost == w.lost
      && var a := t.answers[|w.answers|];
         && a.client == q.client && a.domain == q.domain && a.at == w.now && (a.sinkholed <==> Sinkholed(q.facts))
         && (a.sinkholed ==> a.reply.answer == [] && a.reply.rcode == NXDomain)
         && (!a.sinkholed && q.exchange.Some? && !OnlyRejected(q.exchange.value.answer) ==>
               a.reply.rcode == q.exchange.value.rcode && SentOn(q.exchange.value.answer, a.reply.answer))
         && (!a.sinkholed && (q.exchange.None? || OnlyRejected(q.exchange.value.answer)) ==> a.reply.answer == [])
  {
    hide Upstream, Sinkholed, OnlyRejected, SentOn, Addrs, FoldTtl;
    assert (es + [q])[..|es|] == es;
    UpstreamIs(q.exchange);
  }

  // ----- every answer is accounted for

  function Answers(jobs: seq<Job>): seq<nat> { seq(|jobs|, i requires 0 <= i < |jobs| => jobs[i].answer) }

  /** The positions of the answers that have to be written. */
  function Owed(answers: seq<Answer>): seq<nat> {
    if answers == [] then []
    else
      var (front, a) := (answers[..|answers| - 1], answers[|answers| - 1]);
      if Owing(a) then Owed(front) + [|answers| - 1] else Owed(front)
  }

  ghost predicate Accounted(w: World) {
    multiset(Answers(w.pending)) + multiset(w.lost) + multiset(w.origins) == multiset(Owed(w.answers))
  }

  lemma {:induction false} WithoutOne(jobs: seq<Job>, i: nat)
    requires i < |jobs|
    ensures multiset(Answers(jobs)) == multiset(Answers(Without(jobs, i))) + multiset{jobs[i].answer}
  {
    var ids := Answers(jobs);
    assert ids == ids[..i] + [ids[i]] + ids[i + 1..];
    assert Answers(Without(jobs, i)) == ids[..i] + ids[i + 1..];
  }

  lemma {:induction false} QueryAccounts(w: World, q: Event, text: IP -> string)
    requires Accounted(w) && q.Query?
    ensures Accounted(QueryStep(w, q, text))
  {
    hide Upstream, Addrs, FoldTtl, Sinkholed;
    var t := QueryStep(w, q, text);
    assert t.answers[..|w.answers|] == w.answers;
    if t.pending != w.pending {
      assert Answers(t.pending) == Answers(w.pending) + [|w.answers|];
    }
  }

  lemma {:induction false} RunAccounts(es: seq<Event>, text: IP -> string)
    ensures Accounted(Run(es, text))
  {
    hide QueryStep, Owed, Answers, Key;
    if es == [] {
      NothingOwed();
    } else {
      var (w, e) := (Run(es[..|es| - 1], text), es[|es| - 1]);
      RunAccounts(es[..|es| - 1], text);
      match e
      case Query(_, _, _, _) => QueryAccounts(w, e, text);
      case Flush(i) => if i < |w.pending| { WithoutOne(w.pending, i); }
      case Lose(i) => if i < |w.pending| { WithoutOne(w.pending, i); }
      case Wait(_) =>
    }
  }

  lemma {:induction false} NothingOwed()
    ensures Accounted(EMPTY)
  {
  }

  lemma {:induction false} OwedOnce(answers: seq<Answer>, a: nat)
    ensures multiset(Owed(answers))[a] == if a < |answers| && Owing(answers[a]) then 1 else 0
  {
    hide Owing;
    if answers != [] { OwedOnce(answers[..|answers| - 1], a); }
  }

  /**
   * In every run each answer that was not sinkholed and has an address is waiting to be written, lost, or
   * in the ledger, and exactly once; no other answer is any of these.
   */
  lemma {:induction false} EveryAnswerIsAccountedFor(es: seq<Event>, a: nat, text: IP -> string)
    ensures var w := Run(es, text);
      multiset(Answers(w.pending))[a] + multiset(w.lost)[a] + multiset(w.origins)[a]
      == if a < |w.answers| && Owing(w.answers[a]) then 1 else 0
  {
    hide Run, Owed, Owing, Answers;
    RunAccounts(es, text);
    var w := Run(es, text);
    OwedOnce(w.answers, a);
    assert (multiset(Answers(w.pending)) + multiset(w.lost) + multiset(w.origins))[a] == multiset(Owed(w.answers))[a];
  }

  // ----- a match means that the resolver answered with this address

  /** An answer sent to (client, domain) that carries this address, which passed the filter. */
  ghost predicate Returned(a: Answer, key: string, ip: string, text: IP -> string) {
    && Key(a.client, a.domain) == key && !a.sinkholed
    && exists rr :: rr in a.reply.answer && IsAddress(rr) && !IsPrivateOrReserved(rr.ip) && text(rr.ip) == ip
  }

  ghost predicate WasReturned(answers: seq<Answer>, key: string, ip: string, now: nat, text: IP -> string) {
    exists a :: a in answers && a.at <= now && Returned(a, key, ip, text)
  }

  lemma {:induction false} WriteReturned(a: Answer, at: nat, ip: string, text: IP -> string)
    requires Owing(a) && Filtered(a) && ip in WriteOf(a, at, text).ips
    ensures Returned(a, Key(a.client, a.domain), ip, text)
  {
    hide IsPrivateOrReserved, Key, Addrs, FoldTtl;
    var addrs := Addrs(a.reply.answer);
    AddrsAreAddresses(a.reply.answer);
    var i :| 0 <= i < |addrs| && TextsOf(addrs, text)[i] == ip;
    assert addrs[i] in a.reply.answer && Passes(addrs[i]);
  }

  lemma {:induction false} LiveRowReturned(w: World, key: string, r: Row, text: IP -> string)
    requires Traced(w, text) && r in Live(StoreAfter(w.log), key, w.now)
    ensures WasReturned(w.answers, key, r.ip, w.now, text)
  {
    hide Returned, Clamp, RowsOf, Filtered, Owing, WriteOf, Live;
    LiveIs(w.log, key, w.now);
    RowWasWritten(w.log, key, r);
    var i :| 0 <= i < |w.log| && w.log[i].key == key && r in RowsOf(w.log[i]);
    RowTime(w.log[i], r);
    var a := w.answers[w.origins[i]];
    WriteReturned(a, w.log[i].at, r.ip, text);
    KeyOfWrite(a, w.log[i].at, text);
  }

  lemma {:induction false} KeyOfWrite(a: Answer, at: nat, text: IP -> string)
    ensures WriteOf(a, at, text).key == Key(a.client, a.domain)
  {
  }

  /**
   * In every run, USER_DNS_PATH_MATCH is reported only for an address that the resolver returned, filtered
   * and not sinkholed, to a query with the reader's own ledger key.
   */
  lemma {:induction false} MatchMeansReturned(es: seq<Event>, client: string, domain: string, optedIn: bool,
                                              browserIP: string, text: IP -> string)
    requires UserDnsPathMatch in Outcome(Run(es, text), client, domain, optedIn, browserIP).codes
    ensures WasReturned(Run(es, text).answers, Key(client, domain), browserIP, Run(es, text).now, text)
  {
    hide WasReturned, Traced, Key, Run, StoreAfter;
    var w := Run(es, text);
    var live := Live(StoreAfter(w.log), Key(client, domain), w.now);
    var rows := Fresh(First(READ_BATCH, live), w.now);
    var k :| 0 <= k < |rows| && rows[k].ip == browserIP;
    FreshIs(First(READ_BATCH, live), w.now, rows[k]);
    assert rows[k] in live;
    RunTraced(es, text);
    LiveRowReturned(w, Key(client, domain), rows[k], text);
  }

  /** Parsing the text of an address gives the address back, in 16-byte form. */
  ghost predicate ParsesBack(text: IP -> string, parse: string -> Option<IP>) {
    forall ip: IP :: !ip.Nil? ==> parse(text(ip)) == Some(To16(ip))
  }

  /** A DNS-path match and a private browser address exclude each other. */
  lemma {:induction false} MatchIsPublic(es: seq<Event>, client: string, domain: string, optedIn: bool,
          browserIP: string,
                                         text: IP -> string, parse: string -> Option<IP>)
    requires ParsesBack(text, parse)
    requires UserDnsPathMatch in Outcome(Run(es, text), client, domain, optedIn, browserIP).codes
    ensures !IsPrivateIP(parse(browserIP))
  {
    hide Outcome, Run, Key;
    MatchMeansReturned(es, client, domain, optedIn, browserIP, text);
    var a :| a in Run(es, text).answers && Returned(a, Key(client, domain), browserIP, text);
    var rr := ReturnedRecord(a, Key(client, domain), browserIP, text);
    NotReservedNotPrivate(rr.ip);
  }

  lemma {:induction false} ReturnedRecord(a: Answer, key: string, ip: string, text: IP -> string) returns (rr: RR)
    requires Returned(a, key, ip, text)
    ensures IsAddress(rr) && !IsPrivateOrReserved(rr.ip) && text(rr.ip) == ip
  {
    hide IsPrivateOrReserved;
    rr :| rr in a.reply.answer && IsAddress(rr) && !IsPrivateOrReserved(rr.ip) && text(rr.ip) == ip;
  }

  lemma {:induction false} NotReservedNotPrivate(ip: IP)
    requires !IsPrivateOrReserved(ip)
    ensures !ip.Nil? && !IsPrivateIP(Some(To16(ip)))
  {
  }

  // ----- a returned address matches while the ledger keeps it

  lemma {:induction false} TextIsWritten(a: Answer, at: nat, rr: RR, text: IP -> string)
    requires rr in a.reply.answer && IsAddress(rr)
    ensures text(rr.ip) in WriteOf(a, at, text).ips
  {
    hide Key, FoldTtl, Addrs;
    AddrsAreAddresses(a.reply.answer);
    var addrs := Addrs(a.reply.answer);
    var i :| 0 <= i < |addrs| && addrs[i] == rr;
    assert TextsOf(addrs, text)[i] == text(rr.ip);
  }

  /**
   * The ledger still has the row of this address that the `i`-th entry wrote: fewer than ten rows of its key
   * are newer, its clamped TTL lasts, and every write since kept the list alive.
   */
  ghost predicate KeepsRow(w: World, i: nat, ip: string)
    requires i < |w.log|
  {
    && NewerRows(w.log, i, w.log[i].key) + NewerInside(w.log[i].ips, ip) < MAX_ENTRIES
    && w.now <= Deadline(w.log[i]) && KeptAlive(w.log, i, w.log[i].key, w.now)
  }

  lemma {:induction false} KeptRowMatches(w: World, i: nat, ip: string, optedIn: bool)
    requires InOrder(w.log) && i < |w.log| && w.log[|w.log| - 1].at <= w.now
    requires ip in w.log[i].ips && ip != "" && KeepsRow(w, i, ip)
    ensures Compared(optedIn, ip, Fresh(First(READ_BATCH, Live(StoreAfter(w.log), w.log[i].key, w.now)), w.now))
      == Comparison([UserDnsPathMatch], true)
  {
    hide NewerRows, KeptAlive, First, Fresh, Live, NewerInside, Compared, Found;
    var e := w.log[i];
    PushedAt(e.ips, Clamp(e.ttl), e.at, ip);
    RowIsFoundIff(w.log, i, NewerInside(e.ips, ip), w.now);
    FoundMatches(w.log, i, NewerInside(e.ips, ip), w.now, optedIn);
  }

  /** The `i`-th entry is the write of answer `a`, and its address matches as long as the ledger keeps the row. */
  ghost predicate MatchesWhileKept(w: World, i: nat, a: nat, ip: string, text: IP -> string) {
    && i < |w.log| && i < |w.origins| && a < |w.answers| && w.origins[i] == a
    && w.log[i] == WriteOf(w.answers[a], w.log[i].at, text) && w.answers[a].at <= w.log[i].at
    && (KeepsRow(w, i, ip) ==>
          forall optedIn ::
            Outcome(w, w.answers[a].client, w.answers[a].domain, optedIn, ip) == Comparison([UserDnsPathMatch], true))
  }

  /**
   * In every run, every address of every answer that was not sinkholed, and whose write is neither still
   * waiting nor lost, has its entry in the ledger and matches as long as the ledger keeps the row, whatever
   * came between the answer and its write or since.
   */
  lemma {:induction false} ReturnedAddressMatches(es: seq<Event>, a: nat, rr: RR, text: IP -> string)
    requires a < |Run(es, text).answers| && !Run(es, text).answers[a].sinkholed
    requires rr in Run(es, text).answers[a].reply.answer && IsAddress(rr) && text(rr.ip) != ""
    requires a !in Answers(Run(es, text).pending) && a !in Run(es, text).lost
    ensures exists i: nat :: MatchesWhileKept(Run(es, text), i, a, text(rr.ip), text)
  {
    hide Run, Key, KeepsRow, Compared, Answers, Filtered, Fresh, First, Live, StoreAfter;
    var w := Run(es, text);
    AddrsAreAddresses(w.answers[a].reply.answer);
    assert Owing(w.answers[a]);
    EveryAnswerIsAccountedFor(es, a, text);
    RunTraced(es, text);
    var i :| 0 <= i < |w.origins| && w.origins[i] == a;
    TextIsWritten(w.answers[a], w.log[i].at, rr, text);
    if KeepsRow(w, i, text(rr.ip)) {
      forall optedIn
        ensures Outcome(w, w.answers[a].client, w.answers[a].domain, optedIn, text(rr.ip))
          == Comparison([UserDnsPathMatch], true)
      {
        KeptRowMatches(w, i, text(rr.ip), optedIn);
      }
    }
    assert MatchesWhileKept(w, i, a, text(rr.ip), text);
  }
}
