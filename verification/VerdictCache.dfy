/**
 * Browser extension: the two-tier verdict cache, with session storage that a browser restart clears and
 * local storage that survives it and holds BLOCK verdicts only, and the keys under which it is used.
 */
module VerdictCache {
  import opened Wrappers

  type Key = string
  datatype Verdict = Verdict(verdict: string, detail: string)
  datatype Entry = Entry(v: Verdict, t: nat)

  const BLOCK_TTL: nat := 3_600_000
  const WARN_TTL: nat := 1_800_000
  const ALLOW_TTL: nat := 300_000

  function Ttl(v: Verdict): nat {
    if v.verdict == "BLOCK" then BLOCK_TTL
    else if v.verdict == "WARN" || v.verdict == "ISOLATE" then WARN_TTL
    else ALLOW_TTL
  }

  predicate Stale(e: Entry, now: nat) { now - e.t > Ttl(e.v) }

  datatype Storage = Storage(session: map<Key, Entry>, local: map<Key, Entry>)

  const EMPTY: Storage := Storage(map[], map[])

  /** The entry a lookup finds: the session copy, else the persistent one. */
  function Seen(s: Storage, key: Key): Option<Entry> {
    if key in s.session then Some(s.session[key])
    else if key in s.local then Some(s.local[key])
    else None
  }

  function Answer(s: Storage, key: Key, now: nat): Option<Verdict> {
    var e := Seen(s, key);
    if e.None? || Stale(e.value, now) then None else Some(e.value.v)
  }

  /** A lookup that finds a stale entry removes the persistent copy. */
  function AfterGet(s: Storage, key: Key, now: nat): Storage {
    var e := Seen(s, key);
    if e.Some? && Stale(e.value, now) then s.(local := s.local - {key}) else s
  }

  function AfterSet(s: Storage, key: Key, v: Verdict, now: nat): Storage {
    Storage(s.session[key := Entry(v, now)],
            if v.verdict == "BLOCK" then s.local[key := Entry(v, now)] else s.local)
  }

  class Cache {
    var session: map<Key, Entry>
    var local: map<Key, Entry>

    function View(): Storage
      reads this
    {
      Storage(session, local)
    }

    constructor ()
      ensures View() == EMPTY
    {
      session, local := map[], map[];
    }

    method GetCached(key: Key, now: nat) returns (r: Option<Verdict>)
      modifies this
      ensures r == Answer(old(View()), key, now)
      ensures View() == AfterGet(old(View()), key, now)
    {
      var e: Entry;
      if key in session {
        e := session[key];
      } else {
        if key !in local {
          return None;
        }
        e := local[key];
      }
      var ttl := ALLOW_TTL;
      if e.v.verdict == "BLOCK" {
        ttl := BLOCK_TTL;
      } else if e.v.verdict == "WARN" || e.v.verdict == "ISOLATE" {
        ttl := WARN_TTL;
      }
      if now - e.t > ttl {
        local := local - {key};
        return None;
      }
      return Some(e.v);
    }

    method SetCached(key: Key, verdict: Verdict, now: nat)
      modifies this
      ensures View() == AfterSet(old(View()), key, verdict, now)
    {
      var entry := Entry(verdict, now);
      session := session[key := entry];
      if verdict.verdict == "BLOCK" {
        local := local[key := entry];
      }
    }
  }

  // ----- runs

  datatype Event = Wait(ms: nat) | Set(key: Key, v: Verdict) | Get(key: Key) | Restart | Evict(key: Key)
  datatype World = World(now: nat, s: Storage)

  function Next(w: World, e: Event): World {
    match e
    case Wait(ms) => w.(now := w.now + ms)
    case Set(key, v) => w.(s := AfterSet(w.s, key, v, w.now))
    case Get(key) => w.(s := AfterGet(w.s, key, w.now))
    case Restart => w.(s := w.s.(session := map[]))
    case Evict(key) => w.(s := w.s.(session := w.s.session - {key}))
  }

  function Run(es: seq<Event>): World {
    if es == [] then World(0, EMPTY) else Next(Run(es[..|es| - 1]), es[|es| - 1])
  }

  /** The last verdict written under a key, and when. */
  function LastWrite(es: seq<Event>, key: Key): Option<Entry> {
    if es == [] then None
    else
      var (front, e) := (es[..|es| - 1], es[|es| - 1]);
      if e.Set? && e.key == key then Some(Entry(e.v, Run(front).now)) else LastWrite(front, key)
  }

  function LastBlock(es: seq<Event>, key: Key): Option<Entry> {
    if es == [] then None
    else
      var (front, e) := (es[..|es| - 1], es[|es| - 1]);
      if e.Set? && e.key == key && e.v.verdict == "BLOCK" then Some(Entry(e.v, Run(front).now))
      else LastBlock(front, key)
  }

  /** No restart, and no removal of this session entry, since the key was last written. */
  predicate SessionIntact(es: seq<Event>, key: Key) {
    es == [] ||
    (var (front, e) := (es[..|es| - 1], es[|es| - 1]);
     (e.Set? && e.key == key) || (!e.Restart? && !(e.Evict? && e.key == key) && SessionIntact(front, key)))
  }

  /** How long a verdict may be used: an hour for BLOCK, half an hour for WARN and ISOLATE, else five minutes. */
  predicate Usable(e: Entry, now: nat) {
    && (e.v.verdict == "BLOCK" ==> now <= e.t + 3_600_000)
    && (e.v.verdict == "WARN" || e.v.verdict == "ISOLATE" ==> now <= e.t + 1_800_000)
    && (e.v.verdict != "BLOCK" && e.v.verdict != "WARN" && e.v.verdict != "ISOLATE" ==> now <= e.t + 300_000)
  }

  lemma {:induction false} UsableIff(e: Entry, now: nat)
    ensures Usable(e, now) <==> !Stale(e, now)
  {
  }

  /** The reference: the last verdict written, if it may still be used. */
  function Refined(e: Option<Entry>, now: nat): Option<Verdict> {
    if e.Some? && Usable(e.value, now) then Some(e.value.v) else None
  }

  ghost predicate Inv(es: seq<Event>, key: Key) {
    var w := Run(es);
    && (key in w.s.session ==> LastWrite(es, key) == Some(w.s.session[key]))
    && (key in w.s.session <==> SessionIntact(es, key) && LastWrite(es, key).Some?)
    && (key in w.s.local ==> LastBlock(es, key) == Some(w.s.local[key]))
    && (LastWrite(es, key).Some? && LastWrite(es, key).value.v.verdict == "BLOCK" ==>
          LastBlock(es, key) == LastWrite(es, key) && (key in w.s.local || !Usable(LastWrite(es, key).value, w.now)))
    && (LastBlock(es, key).Some? ==> LastBlock(es, key).value.v.verdict == "BLOCK" && LastWrite(es, key).Some?)
  }

  lemma {:induction false} Always(es: seq<Event>, key: Key)
    ensures Inv(es, key)
  {
    if es != [] { Always(es[..|es| - 1], key); }
  }

  /** With the session entry intact, a lookup gives the last verdict written, for exactly its TTL. */
  lemma {:induction false} RefinesLastWrite(es: seq<Event>, key: Key)
    requires SessionIntact(es, key)
    ensures Answer(Run(es).s, key, Run(es).now) == Refined(LastWrite(es, key), Run(es).now)
  {
    Always(es, key);
    if LastWrite(es, key).None? { NeverWritten(es, key); }
  }

  lemma {:induction false} NeverWritten(es: seq<Event>, key: Key)
    requires LastWrite(es, key).None?
    ensures LastBlock(es, key).None?
  {
    if es != [] { NeverWritten(es[..|es| - 1], key); }
  }

  /** A BLOCK that is the last write is found for its full TTL, whatever restarts and removals happen. */
  lemma {:induction false} BlockSurvives(es: seq<Event>, key: Key)
    requires LastWrite(es, key).Some? && LastWrite(es, key).value.v.verdict == "BLOCK"
    ensures Answer(Run(es).s, key, Run(es).now) == Refined(LastWrite(es, key), Run(es).now)
  {
    Always(es, key);
  }

  /** What the cache goes by: the last write while the session has it, else the latest BLOCK. */
  function Reference(es: seq<Event>, key: Key): Option<Entry> {
    if SessionIntact(es, key) && LastWrite(es, key).Some? then LastWrite(es, key) else LastBlock(es, key)
  }

  /** The latest BLOCK has not been cleaned up: no later lookup of the key found its reference out of date. */
  predicate CopyKept(es: seq<Event>, key: Key) {
    es != [] &&
    (var (front, e) := (es[..|es| - 1], es[|es| - 1]);
     if e.Set? && e.key == key && e.v.verdict == "BLOCK" then true
     else if e.Get? && e.key == key then
       CopyKept(front, key) && (Reference(front, key).Some? ==> Usable(Reference(front, key).value, Run(front).now))
     else CopyKept(front, key))
  }

  lemma {:induction false} CopyIs(es: seq<Event>, key: Key)
    ensures CopyKept(es, key) <==> key in Run(es).s.local
  {
    if es != [] {
      CopyIs(es[..|es| - 1], key);
      Always(es[..|es| - 1], key);
    }
  }

  /** What a lookup gives after any run, in terms of the events alone. */
  lemma {:induction false} EveryAnswer(es: seq<Event>, key: Key)
    ensures Answer(Run(es).s, key, Run(es).now)
         == if SessionIntact(es, key) && LastWrite(es, key).Some? then Refined(LastWrite(es, key), Run(es).now)
            else if CopyKept(es, key) then Refined(LastBlock(es, key), Run(es).now)
            else None
  {
    Always(es, key);
    CopyIs(es, key);
  }

  /**
   * The lifetimes in milliseconds: with the session entry intact a lookup gives the last verdict written
   * exactly up to its age limit, and nothing later.
   */
  lemma {:induction false} AgeLimits(es: seq<Event>, key: Key)
    requires SessionIntact(es, key) && LastWrite(es, key).Some?
    ensures var v := LastWrite(es, key).value.v;
      var age: int := Run(es).now - LastWrite(es, key).value.t;
      var r := Answer(Run(es).s, key, Run(es).now);
      && r in {None, Some(v)}
      && (v.verdict == "BLOCK" ==> (r == Some(v) <==> age <= 3_600_000))
      && (v.verdict in {"WARN", "ISOLATE"} ==> (r == Some(v) <==> age <= 1_800_000))
      && (v.verdict !in {"BLOCK", "WARN", "ISOLATE"} ==> (r == Some(v) <==> age <= 300_000))
  {
    hide Run, Answer, SessionIntact, LastWrite;
    RefinesLastWrite(es, key);
  }

  /**
   * A BLOCK that is the last write is found for exactly an hour, through restarts and removals; the first
   * lookup after that removes the persistent copy.
   */
  lemma {:induction false} BlockAgeLimit(es: seq<Event>, key: Key)
    requires LastWrite(es, key).Some? && LastWrite(es, key).value.v.verdict == "BLOCK"
    ensures var v := LastWrite(es, key).value.v;
      var age: int := Run(es).now - LastWrite(es, key).value.t;
      && (age <= 3_600_000 ==> Answer(Run(es).s, key, Run(es).now) == Some(v))
      && (age > 3_600_000 ==> Answer(Run(es).s, key, Run(es).now) == None && key !in Next(Run(es), Get(key)).s.local)
  {
    hide Run;
    BlockSurvives(es, key);
    Always(es, key);
    var w := Run(es);
    if Seen(w.s, key).Some? { UsableIff(Seen(w.s, key).value, w.now); }
  }

  /** A lookup changes nothing but the persistent copy of its key, and that only if what it found is too old. */
  lemma {:induction false} LookupCleansUp(w: World, key: Key)
    ensures var t := Next(w, Get(key));
      && t.now == w.now && t.s.session == w.s.session
      && (forall k :: k != key ==>
            (k in t.s.local <==> k in w.s.local) && (k in t.s.local ==> t.s.local[k] == w.s.local[k]))
      && (Seen(w.s, key).None? || Usable(Seen(w.s, key).value, w.now) ==> t == w)
      && (Seen(w.s, key).Some? && !Usable(Seen(w.s, key).value, w.now) ==> key !in t.s.local)
  {
    if Seen(w.s, key).Some? { UsableIff(Seen(w.s, key).value, w.now); }
  }

  lemma {:induction false} RunLast(es: seq<Event>, e: Event)
    ensures Run(es + [e]) == Next(Run(es), e)
  {
  }

  /** A restart brings back a BLOCK that had been overwritten, after any run and for any verdicts. */
  lemma {:induction false} RestartResurrectsBlock(es: seq<Event>, key: Key, block: Verdict, other: Verdict, m: nat,
          n: nat)
    requires block.verdict == "BLOCK" && other.verdict != "BLOCK" && m + n <= 3_600_000
    ensures var run := es + [Set(key, block)] + [Wait(m)] + [Set(key, other)] + [Restart] + [Wait(n)];
      LastWrite(run, key) == Some(Entry(other, Run(es).now + m)) && Answer(Run(run).s, key, Run(run).now) == Some(block)
  {
    var a := es + [Set(key, block)];
    var b := a + [Wait(m)];
    var c := b + [Set(key, other)];
    var d := c + [Restart];
    var f := d + [Wait(n)];
    RunLast(es, Set(key, block));
    RunLast(a, Wait(m));
    RunLast(b, Set(key, other));
    RunLast(c, Restart);
    RunLast(d, Wait(n));
    assert f[..|d|] == d && d[..|c|] == c && c[..|b|] == b && b[..|a|] == a && a[..|es|] == es;
    assert LastWrite(c, key) == Some(Entry(other, Run(es).now + m));
    assert LastWrite(d, key) == LastWrite(c, key);
    assert LastWrite(f, key) == LastWrite(d, key);
  }

  // ----- the keys

  function BeforeHash(url: string): string {
    if url == "" || url[0] == '#' then "" else [url[0]] + BeforeHash(url[1..])
  }

  function NoTrailingSlash(s: string): string {
    if s != "" && s[|s| - 1] == '/' then NoTrailingSlash(s[..|s| - 1]) else s
  }

  /** `normalizeForToken`; `canon` is what parsing and printing a URL does to its text. */
  function NormalizeForToken(url: string, canon: string -> string): string {
    NoTrailingSlash(BeforeHash(canon(url)))
  }

  lemma {:induction false} BeforeHashIs(url: string)
    ensures BeforeHash(url) <= url && (BeforeHash(url) == url <==> '#' !in url)
    ensures '#' !in BeforeHash(url)
  {
    if url != "" && url[0] != '#' {
      BeforeHashIs(url[1..]);
      assert url == [url[0]] + url[1..];
      assert BeforeHash(url)[1..] == BeforeHash(url[1..]);
    } else if url != "" {
      assert '#' == url[0] && '#' in url;
    }
  }

  lemma {:induction false} NoTrailingSlashIs(s: string)
    ensures NoTrailingSlash(s) <= s && (NoTrailingSlash(s) == s <==> s == "" || s[|s| - 1] != '/')
  {
    if s != "" && s[|s| - 1] == '/' { NoTrailingSlashIs(s[..|s| - 1]); }
  }

  /** In token form: no fragment and no slash at the end. */
  predicate TokenForm(url: string) { '#' !in url && (url == "" || url[|url| - 1] != '/') }

  /** A URL in printed form is its own token form exactly when it has no fragment and no slash at its end. */
  lemma {:induction false} OwnTokenFormIff(url: string, canon: string -> string)
    requires canon(url) == url
    ensures NormalizeForToken(url, canon) == url <==> TokenForm(url)
  {
    BeforeHashIs(url);
    NoTrailingSlashIs(BeforeHash(url));
    if NormalizeForToken(url, canon) == url { assert |BeforeHash(url)| == |url|; }
  }

  /**
   * Only a fragment and the slashes at the end are taken off: the printed URL is its token form, then slashes,
   * then nothing or a fragment.
   */
  lemma {:induction false} TokenFormTakesOff(url: string, canon: string -> string)
    returns (slashes: string, fragment: string)
    ensures canon(url) == NormalizeForToken(url, canon) + slashes + fragment
    ensures forall i :: 0 <= i < |slashes| ==> slashes[i] == '/'
    ensures fragment == "" || fragment[0] == '#'
  {
    var front := BeforeHash(canon(url));
    var r := NoTrailingSlash(front);
    BeforeHashIs(canon(url));
    NoTrailingSlashIs(front);
    OnlySlashesOff(front);
    CutAtHash(canon(url));
    slashes, fragment := front[|r|..], canon(url)[|front|..];
    assert canon(url) == r + slashes + fragment;
  }

  lemma {:induction false} OnlySlashesOff(s: string)
    ensures NoTrailingSlash(s) <= s && forall i :: |NoTrailingSlash(s)| <= i < |s| ==> s[i] == '/'
  {
    NoTrailingSlashIs(s);
    if s != "" && s[|s| - 1] == '/' { OnlySlashesOff(s[..|s| - 1]); }
  }

  lemma {:induction false} CutAtHash(url: string)
    ensures BeforeHash(url) <= url && (BeforeHash(url) == url || url[|BeforeHash(url)|] == '#')
  {
    BeforeHashIs(url);
    if url != "" && url[0] != '#' {
      CutAtHash(url[1..]);
      assert BeforeHash(url)[1..] == BeforeHash(url[1..]);
    }
  }

  function WriteKey(url: string, canon: string -> string, sha: string -> string): Key {
    "v:" + sha(NormalizeForToken(url, canon))
  }

  function ReadKey(url: string, sha: string -> string): Key { "v:" + sha(url) }

  ghost predicate Injective(sha: string -> string) {
    forall a, b :: sha(a) == sha(b) ==> a == b
  }

  /** The resolve handler and the navigation hook mean the same key only for URLs in token form. */
  lemma {:induction false} KeysMeetIff(stored: string, visited: string, canon: string -> string, sha: string -> string)
    requires Injective(sha)
    ensures WriteKey(stored, canon, sha) == ReadKey(visited, sha) <==> NormalizeForToken(stored, canon) == visited
  {
    var (a, b) := (sha(NormalizeForToken(stored, canon)), sha(visited));
    assert ("v:" + a)[2..] == a && ("v:" + b)[2..] == b;
  }

  /**
   * A verdict just stored by the resolve handler is what the hook finds for the same URL exactly when the
   * URL is in token form; otherwise the hook finds what it would have found before. This holds after any
   * run, in particular if a verdict for the URL was stored earlier.
   */
  lemma {:induction false} StoredIsVisibleIff(es: seq<Event>, url: string, v: Verdict, canon: string -> string,
          sha: string -> string)
    requires Injective(sha) && canon(url) == url
    ensures Answer(Run(es + [Set(WriteKey(url, canon, sha), v)]).s, ReadKey(url, sha), Run(es).now)
         == if TokenForm(url) then Some(v) else Answer(Run(es).s, ReadKey(url, sha), Run(es).now)
  {
    OwnTokenFormIff(url, canon);
    KeysMeetIff(url, url, canon, sha);
    RunLast(es, Set(WriteKey(url, canon, sha), v));
  }

  /** Every write of the run is one of the resolve handler, the only caller of `setCached`. */
  ghost predicate ByResolve(es: seq<Event>, canon: string -> string, sha: string -> string) {
    forall i :: 0 <= i < |es| && es[i].Set? ==> exists u :: es[i].key == WriteKey(u, canon, sha)
  }

  lemma {:induction false} TokenFormOf(url: string, canon: string -> string)
    ensures TokenForm(NormalizeForToken(url, canon))
  {
    var s := BeforeHash(canon(url));
    BeforeHashIs(canon(url));
    NoTrailingSlashIs(s);
    NoSlashLeft(s);
    assert forall i :: 0 <= i < |NoTrailingSlash(s)| ==> NoTrailingSlash(s)[i] == s[i];
  }

  lemma {:induction false} NoSlashLeft(s: string)
    ensures NoTrailingSlash(s) == "" || NoTrailingSlash(s)[|NoTrailingSlash(s)| - 1] != '/'
  {
    if s != "" && s[|s| - 1] == '/' { NoSlashLeft(s[..|s| - 1]); }
  }

  /**
   * Over every run whose writes are those of the resolve handler, the hook finds nothing, fresh or stale,
   * for a URL with a fragment or with a slash at its end, whatever was stored for it.
   */
  lemma {:induction false} OtherFormsAreNeverFound(es: seq<Event>, url: string, canon: string -> string,
          sha: string -> string)
    requires Injective(sha) && ByResolve(es, canon, sha) && !TokenForm(url)
    ensures Seen(Run(es).s, ReadKey(url, sha)).None?
  {
    hide WriteKey, ReadKey, TokenForm;
    if es != [] {
      var (front, e) := (es[..|es| - 1], es[|es| - 1]);
      OtherFormsAreNeverFound(front, url, canon, sha);
      if e.Set? {
        var u :| e.key == WriteKey(u, canon, sha);
        KeysMeetIff(u, url, canon, sha);
        TokenFormOf(u, canon);
      }
    }
  }
}
