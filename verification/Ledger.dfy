/**
 * The returned-IP ledger: one capped, expiring list per (client, domain), written by the resolver and
 * read back by verdict-api. Times are whole seconds.
 */
module Ledger {
  import opened Wrappers
  import opened Text

  const MAX_ENTRIES: nat := 10
  const GRACE: nat := 300
  const MAX_TTL: nat := 86_400
  const MIN_TTL: nat := 60
  const READ_BATCH: nat := 32

  datatype Row = Row(ip: string, ttl: nat, ts: nat)
  /** `expireAt` is absent while no EXPIRE has been issued for the key. */
  datatype Slot = Slot(rows: seq<Row>, expireAt: Option<nat>)
  type Store = map<string, Slot>

  function DropDot(s: string): string { if s != [] && s[|s| - 1] == '.' then s[..|s| - 1] else s }

  function Client(clientID: string): (c: string)
    ensures c != ""
  {
    var c := Lower(Trim(clientID));
    if c == "" then "unknown" else c
  }

  function Domain(domain: string): string { DropDot(Lower(Trim(domain))) }

  /** The key derivation shared by writer and reader. */
  function Key(clientID: string, domain: string): string {
    "iledger:" + Client(clientID) + ":" + Domain(domain)
  }

  predicate LastColonAt(s: string, i: nat) {
    i < |s| && s[i] == ':' && forall k :: i < k < |s| ==> s[k] != ':'
  }

  lemma {:induction false} LastColon(c: string, d: string)
    requires ':' !in d
    ensures LastColonAt(c + ":" + d, |c|)
  {
  }

  /** For names without a colon the key determines client and domain, whatever the client is. */
  lemma {:induction false} KeyIsInjective(c: string, d: string, c': string, d': string)
    requires ':' !in Domain(d) && ':' !in Domain(d') && Key(c, d) == Key(c', d')
    ensures Client(c) == Client(c') && Domain(d) == Domain(d')
  {
    hide Client, Domain;
    var (x, y, x', y') := (Client(c), Domain(d), Client(c'), Domain(d'));
    LastColon("iledger:" + x, y);
    LastColon("iledger:" + x', y');
    SameSplit("iledger:" + x, y, "iledger:" + x', y');
    assert ("iledger:" + x)[8..] == x && ("iledger:" + x')[8..] == x';
  }

  /** A name as the key has it: without blanks at its ends, in lower case, not dotted at the end. */
  predicate PlainName(n: string) {
    && n != "" && !Blank(n[0]) && !Blank(n[|n| - 1]) && n[|n| - 1] != '.'
    && forall i :: 0 <= i < |n| ==> !('A' <= n[i] <= 'Z')
  }

  lemma {:induction false} PlainNameStays(n: string)
    requires PlainName(n)
    ensures Client(n) == n && Domain(n) == n
  {
    assert TrimLeft(n) == n && TrimRight(n) == n;
    assert Lower(n) == n;
  }

  /** Different clients or domains have different keys, for plain names whose domain has no colon. */
  lemma {:induction false} PlainKeysDiffer(c: string, d: string, c': string, d': string)
    requires PlainName(c) && PlainName(d) && PlainName(c') && PlainName(d') && ':' !in d && ':' !in d'
    ensures Key(c, d) == Key(c', d') <==> c == c' && d == d'
    ensures Key(c, d) == "iledger:" + c + ":" + d
  {
    hide PlainName, Client, Domain;
    PlainNameStays(c);
    PlainNameStays(d);
    PlainNameStays(c');
    PlainNameStays(d');
    if Key(c, d) == Key(c', d') { KeyIsInjective(c, d, c', d'); }
  }

  lemma {:induction false} SameSplit(c: string, d: string, c': string, d': string)
    requires c + ":" + d == c' + ":" + d' && |c| == |c'|
    ensures c == c' && d == d'
  {
    var s := c + ":" + d;
    assert c == s[..|c|] && d == s[|c| + 1..];
    assert c' == s[..|c|] && d' == s[|c| + 1..];
  }

  lemma {:induction false} LowerTwice(s: string)
    ensures Lower(Lower(s)) == Lower(s)
  {
  }

  lemma {:induction false} LowerTrimLeft(s: string)
    ensures TrimLeft(Lower(s)) == Lower(TrimLeft(s))
  {
    if s != "" {
      LowerTrimLeft(s[1..]);
      assert Lower(s)[1..] == Lower(s[1..]);
    }
  }

  lemma {:induction false} LowerTrimRight(s: string)
    ensures TrimRight(Lower(s)) == Lower(TrimRight(s))
  {
    if s != "" {
      LowerTrimRight(s[..|s| - 1]);
      assert Lower(s)[..|s| - 1] == Lower(s[..|s| - 1]);
    }
  }

  lemma {:induction false} TrimLower(s: string)
    ensures Lower(Trim(Lower(s))) == Lower(Trim(s))
  {
    hide Lower, TrimLeft, TrimRight;
    LowerTrimLeft(s);
    LowerTrimRight(TrimLeft(s));
    LowerTwice(Trim(s));
  }

  /** Case makes no difference to a key, and a missing client is the client "unknown". */
  lemma {:induction false} KeyIgnoresCase(c: string, d: string)
    ensures Key(Lower(c), Lower(d)) == Key(c, d) && Key("", d) == Key("unknown", d)
  {
    TrimLower(c);
    TrimLower(d);
    assert TrimLeft("unknown") == "unknown" && TrimRight("unknown") == "unknown";
    assert Lower("unknown") == "unknown";
  }

  /** A trailing dot makes no difference to the key of a trimmed, undotted name. */
  lemma {:induction false} KeyIgnoresDot(c: string, d: string)
    requires d != "" && d[|d| - 1] != '.' && Trim(d) == d
    ensures Key(c, d + ".") == Key(c, d)
  {
    hide Client;
    DotDomain(d);
  }

  lemma {:induction false} DotDomain(d: string)
    requires d != "" && d[|d| - 1] != '.' && Trim(d) == d
    ensures Domain(d + ".") == Domain(d)
  {
    hide TrimLeft, TrimRight, Lower;
    TrimLeftNotLonger(d);
    TrimDotted(d);
    LowerDotted(d);
    var (lower, dotted) := (Lower(d), Lower(d + "."));
    assert dotted[..|dotted| - 1] == lower;
    assert lower[|lower| - 1] == LowerChar(d[|d| - 1]);
  }

  lemma {:induction false} TrimDotted(d: string)
    requires d != "" && !Blank(d[0])
    ensures Trim(d + ".") == d + "."
  {
  }

  lemma {:induction false} LowerDotted(d: string)
    ensures Lower(d + ".") == Lower(d) + "."
  {
  }

  lemma {:induction false} TrimLeftNotLonger(s: string)
    ensures |TrimLeft(s)| <= |s| && |TrimRight(s)| <= |s| && |Trim(s)| <= |TrimLeft(s)|
    ensures s != "" && Trim(s) == s ==> !Blank(s[0])
  {
    TrimLengths(s);
    TrimLengths(TrimLeft(s));
    if s != "" && Blank(s[0]) { TrimLengths(s[1..]); }
  }

  lemma {:induction false} TrimLengths(s: string)
    ensures |TrimLeft(s)| <= |s| && |TrimRight(s)| <= |s|
  {
    if s != "" {
      TrimLengths(s[1..]);
      TrimLengths(s[..|s| - 1]);
    }
  }

  // ----- one write

  function Clamp(ttl: nat): nat {
    if ttl < MIN_TTL then MIN_TTL else if ttl > MAX_TTL then MAX_TTL else ttl
  }

  /** The rows one write pushes, newest first; empty texts are skipped. */
  function Pushed(ips: seq<string>, ttl: nat, now: nat): seq<Row> {
    if ips == [] then []
    else
      var rest := Pushed(ips[..|ips| - 1], ttl, now);
      if ips[|ips| - 1] == "" then rest else [Row(ips[|ips| - 1], ttl, now)] + rest
  }

  function First(n: nat, s: seq<Row>): seq<Row> { if |s| <= n then s else s[..n] }

  predicate Alive(slot: Slot, now: nat) { slot.expireAt.None? || now < slot.expireAt.value }

  /** What the store still holds under a key: an expired list is gone. */
  function Live(store: Store, key: string, now: nat): seq<Row> {
    if key in store && Alive(store[key], now) then store[key].rows else []
  }

  function Written(store: Store, key: string, ips: seq<string>, ttl: nat, now: nat): Store {
    var rows := First(MAX_ENTRIES, Pushed(ips, Clamp(ttl), now) + Live(store, key, now));
    if rows == [] then store - {key} else store[key := Slot(rows, Some(now + Clamp(ttl) + GRACE))]
  }

  /** `a` and `b` agree on every key but `key`. */
  ghost predicate SameElsewhere(a: Store, b: Store, key: string) {
    forall k :: k != key ==> (k in a <==> k in b) && (k in a ==> a[k] == b[k])
  }

  /** The Redis side: list commands on keys that expire; an empty list is no key. */
  class Redis {
    var store: Store

    constructor ()
      ensures store == map[]
    {
      store := map[];
    }

    method LPush(key: string, row: Row, now: nat)
      modifies this
      ensures Live(store, key, now) == [row] + old(Live(store, key, now))
      ensures SameElsewhere(store, old(store), key)
    {
      var expireAt := if key in store && Alive(store[key], now) then store[key].expireAt else None;
      store := store[key := Slot([row] + Live(store, key, now), expireAt)];
    }

    method LTrim(key: string, keep: nat, now: nat)
      modifies this
      ensures Live(store, key, now) == First(keep, old(Live(store, key, now)))
      ensures SameElsewhere(store, old(store), key)
    {
      if key in store {
        store := store[key := Slot(First(keep, store[key].rows), store[key].expireAt)];
      }
    }

    method Expire(key: string, seconds: nat, now: nat)
      modifies this
      ensures SameElsewhere(store, old(store), key)
      ensures key in store <==> old(Live(store, key, now)) != []
      ensures key in store ==> store[key] == Slot(old(Live(store, key, now)), Some(now + seconds))
    {
      var live := Live(store, key, now);
      store := if live == [] then store - {key} else store[key := Slot(live, Some(now + seconds))];
    }

    method LRange(key: string, stop: nat, now: nat) returns (rows: seq<Row>)
      ensures rows == First(stop, Live(store, key, now))
    {
      rows := First(stop, Live(store, key, now));
    }
  }

  lemma {:induction false} PushedStep(ips: seq<string>, i: nat, ttl: nat, now: nat)
    requires i < |ips|
    ensures Pushed(ips[..i + 1], ttl, now) ==
      (if ips[i] == "" then [] else [Row(ips[i], ttl, now)]) + Pushed(ips[..i], ttl, now)
  {
    assert ips[..i + 1][..i] == ips[..i];
  }

  lemma {:induction false} WrittenIs(store: Store, was: Store, key: string, ips: seq<string>, ttl: nat, now: nat)
    requires SameElsewhere(store, was, key)
    requires var rows := First(MAX_ENTRIES, Pushed(ips, Clamp(ttl), now) + Live(was, key, now));
      && (key in store <==> rows != [])
      && (key in store ==> store[key] == Slot(rows, Some(now + Clamp(ttl) + GRACE)))
    ensures store == Written(was, key, ips, ttl, now)
  {
  }

  /** `Write`: one row per address, trimmed to the newest ten, living for the clamped TTL and the grace. */
  method Write(rdb: Redis, clientID: string, domain: string, ips: seq<string>, ttl: nat, now: nat)
    modifies rdb
    ensures rdb.store == if ips == [] then old(rdb.store) else
      Written(old(rdb.store), Key(clientID, domain), ips, ttl, now)
  {
    hide Live, Key, Clamp, Pushed, First, Written;
    if |ips| == 0 {
      return;
    }
    var t := Clamp(ttl);
    var key := Key(clientID, domain);
    ghost var was := Live(rdb.store, key, now);
    NoRows(t, now);
    for i := 0 to |ips|
      invariant Live(rdb.store, key, now) == Pushed(ips[..i], t, now) + was
      invariant SameElsewhere(rdb.store, old(rdb.store), key)
    {
      PushedStep(ips, i, t, now);
      if ips[i] == "" {
        continue;
      }
      rdb.LPush(key, Row(ips[i], t, now), now);
    }
    assert ips[..|ips|] == ips;
    rdb.LTrim(key, MAX_ENTRIES, now);
    rdb.Expire(key, t + GRACE, now);
    WrittenIs(rdb.store, old(rdb.store), key, ips, ttl, now);
  }

  lemma {:induction false} NoRows(ttl: nat, now: nat)
    ensures Pushed([], ttl, now) == []
  {
  }

  // ----- reading back

  predicate InWindow(r: Row, now: nat) { r.ts + r.ttl >= now }

  function Fresh(rows: seq<Row>, now: nat): seq<Row> {
    if rows == [] then []
    else if InWindow(rows[|rows| - 1], now) then Fresh(rows[..|rows| - 1], now) + [rows[|rows| - 1]]
    else Fresh(rows[..|rows| - 1], now)
  }

  /** `Recent`: the rows whose own TTL has not run out, newest first. */
  method Recent(rdb: Redis, clientID: string, domain: string, now: nat) returns (out: seq<Row>)
    ensures out == Fresh(First(READ_BATCH, Live(rdb.store, Key(clientID, domain), now)), now)
    ensures forall r :: r in out <==>
      r in First(32, Live(rdb.store, Key(clientID, domain), now)) && now <= r.ts + r.ttl
  {
    hide Live, Key, First;
    var raws := rdb.LRange(Key(clientID, domain), READ_BATCH, now);
    out := [];
    for i := 0 to |raws|
      invariant out == Fresh(raws[..i], now)
    {
      assert raws[..i + 1][..i] == raws[..i];
      if raws[i].ts + raws[i].ttl < now {
        continue;
      }
      out := out + [raws[i]];
    }
    assert raws[..|raws|] == raws;
    forall r ensures r in out <==> r in raws && now <= r.ts + r.ttl { FreshIs(raws, now, r); }
  }

  lemma {:induction false} FreshIs(rows: seq<Row>, now: nat, r: Row)
    ensures r in Fresh(rows, now) <==> r in rows && InWindow(r, now)
  {
    if rows != [] {
      FreshIs(rows[..|rows| - 1], now, r);
      assert rows == rows[..|rows| - 1] + [rows[|rows| - 1]];
    }
  }

  datatype Code = UserDnsPathMatch | UserDnsPathMismatch | ExpectedResolverBypassed
  datatype Comparison = Comparison(codes: seq<Code>, consistent: bool)

  /** `CompareLedger`; an empty `browserIP` means that the extension reported none. */
  method CompareLedger(optedIn: bool, browserIP: string, entries: seq<Row>) returns (c: Comparison)
    ensures c == Compared(optedIn, browserIP, entries)
    ensures c.consistent <==> browserIP != "" && exists k :: 0 <= k < |entries| && entries[k].ip == browserIP
    ensures c.consistent ==> c.codes == [UserDnsPathMatch]
    ensures !c.consistent && browserIP != "" && entries != [] ==> c.codes == [UserDnsPathMismatch]
    ensures browserIP != "" && entries == [] && optedIn ==> c.codes == [ExpectedResolverBypassed]
    ensures browserIP == "" || (entries == [] && !optedIn) ==> c.codes == []
  {
    if browserIP == "" {
      return Comparison([], false);
    }
    if |entries| == 0 {
      return Comparison(if optedIn then [ExpectedResolverBypassed] else [], false);
    }
    for i := 0 to |entries|
      invariant forall k :: 0 <= k < i ==> entries[k].ip != browserIP
    {
      if entries[i].ip == browserIP {
        return Comparison([UserDnsPathMatch], true);
      }
    }
    return Comparison([UserDnsPathMismatch], false);
  }

  function Compared(optedIn: bool, browserIP: string, entries: seq<Row>): Comparison {
    if browserIP == "" then Comparison([], false)
    else if entries == [] then Comparison(if optedIn then [ExpectedResolverBypassed] else [], false)
    else if exists k :: 0 <= k < |entries| && entries[k].ip == browserIP then Comparison([UserDnsPathMatch], true)
    else Comparison([UserDnsPathMismatch], false)
  }

  // ----- what a list holds after any series of writes

  /** A write that reached the store: the key, the texts, the extracted TTL and the time. */
  datatype Entry = Entry(key: string, ips: seq<string>, ttl: nat, at: nat)

  predicate InOrder(ws: seq<Entry>) {
    forall i, j :: 0 <= i < j < |ws| ==> ws[i].at <= ws[j].at
  }

  function StoreAfter(ws: seq<Entry>): Store {
    if ws == [] then map[]
    else
      var w := ws[|ws| - 1];
      Written(StoreAfter(ws[..|ws| - 1]), w.key, w.ips, w.ttl, w.at)
  }

  function RowsOf(w: Entry): seq<Row> { Pushed(w.ips, Clamp(w.ttl), w.at) }

  /** When the list of `key` expires, by the last write that left it non-empty; 0 if it was never filled. */
  function Expiry(ws: seq<Entry>, key: string): nat {
    if ws == [] then 0
    else
      var (front, w) := (ws[..|ws| - 1], ws[|ws| - 1]);
      if w.key == key && (RowsOf(w) != [] || w.at < Expiry(front, key)) then w.at + Clamp(w.ttl) + GRACE
      else Expiry(front, key)
  }

  /** Every row written to `key` since the list was last allowed to expire, newest first. */
  function History(ws: seq<Entry>, key: string): seq<Row> {
    if ws == [] then []
    else
      var (front, w) := (ws[..|ws| - 1], ws[|ws| - 1]);
      if w.key != key then History(front, key)
      else if w.at < Expiry(front, key) then RowsOf(w) + History(front, key)
      else if RowsOf(w) != [] then RowsOf(w)
      else History(front, key)
  }

  lemma {:induction false} FirstAgain(n: nat, a: seq<Row>, b: seq<Row>)
    ensures First(n, a + First(n, b)) == First(n, a + b)
  {
  }

  /** The store agrees with the history: the ten newest rows, and the last write's expiry. */
  lemma {:induction false} StoreIs(ws: seq<Entry>, key: string)
    requires InOrder(ws)
    ensures var s := StoreAfter(ws);
      if key in s then s[key] == Slot(First(MAX_ENTRIES, History(ws, key)), Some(Expiry(ws, key)))
      else Expiry(ws, key) == 0 || (ws != [] && Expiry(ws, key) <= ws[|ws| - 1].at)
  {
    hide Clamp, Pushed, First;
    if ws != [] {
      var (front, w) := (ws[..|ws| - 1], ws[|ws| - 1]);
      StoreIs(front, key);
      if w.key == key {
        FirstAgain(MAX_ENTRIES, RowsOf(w), History(front, key));
        FirstIsEmpty(MAX_ENTRIES, RowsOf(w) + Live(StoreAfter(front), key, w.at));
        assert RowsOf(w) + [] == RowsOf(w);
        HistoryNotEmpty(front, key);
        if front != [] { assert front[|front| - 1].at <= w.at; }
        FirstIsEmpty(MAX_ENTRIES, History(front, key));
      }
    }
  }

  lemma {:induction false} FirstIsEmpty(n: nat, s: seq<Row>)
    ensures n > 0 ==> (First(n, s) == [] <==> s == [])
  {
  }

  lemma {:induction false} HistoryNotEmpty(ws: seq<Entry>, key: string)
    ensures Expiry(ws, key) > 0 ==> History(ws, key) != []
  {
    if ws != [] { HistoryNotEmpty(ws[..|ws| - 1], key); }
  }

  /** What a reader finds is exactly the ten newest rows, until the last write's clamped TTL and grace are over. */
  lemma {:induction false} LiveIs(ws: seq<Entry>, key: string, now: nat)
    requires InOrder(ws) && (ws != [] ==> ws[|ws| - 1].at <= now)
    ensures Live(StoreAfter(ws), key, now)
         == if now < Expiry(ws, key) then First(MAX_ENTRIES, History(ws, key)) else []
  {
    StoreIs(ws, key);
  }

  /** Every row a reader finds was pushed by some write to the same key. */
  lemma {:induction false} RowWasWritten(ws: seq<Entry>, key: string, r: Row)
    requires r in History(ws, key)
    ensures exists i :: 0 <= i < |ws| && ws[i].key == key && r in RowsOf(ws[i])
  {
    var (front, w) := (ws[..|ws| - 1], ws[|ws| - 1]);
    if w.key != key || r !in RowsOf(w) {
      RowWasWritten(front, key, r);
      var i :| 0 <= i < |front| && front[i].key == key && r in RowsOf(front[i]);
      assert ws[i] == front[i];
    }
  }

  lemma {:induction false} PushedIs(ips: seq<string>, ttl: nat, now: nat, r: Row)
    requires r in Pushed(ips, ttl, now)
    ensures r.ip in ips && r.ip != "" && r.ttl == ttl && r.ts == now
  {
    if r in Pushed(ips[..|ips| - 1], ttl, now) {
      PushedIs(ips[..|ips| - 1], ttl, now, r);
      assert r.ip in ips[..|ips| - 1];
    }
  }

  /** The rows one write pushes in front of the newest row with this address. */
  function NewerInside(ips: seq<string>, ip: string): nat {
    if ips == [] || ips[|ips| - 1] == ip then 0
    else NewerInside(ips[..|ips| - 1], ip) + (if ips[|ips| - 1] == "" then 0 else 1)
  }

  lemma {:induction false} PushedAt(ips: seq<string>, ttl: nat, now: nat, ip: string)
    requires ip in ips && ip != ""
    ensures NewerInside(ips, ip) < |Pushed(ips, ttl, now)|
    ensures Pushed(ips, ttl, now)[NewerInside(ips, ip)] == Row(ip, ttl, now)
  {
    var (front, last) := (ips[..|ips| - 1], ips[|ips| - 1]);
    if last != ip {
      assert ips == front + [last];
      PushedAt(front, ttl, now, ip);
    }
  }

  // ----- how long a row can be found

  /** The rows pushed to `key` by the writes after the `i`-th. */
  function NewerRows(ws: seq<Entry>, i: nat, key: string): nat {
    if |ws| <= i + 1 then 0
    else NewerRows(ws[..|ws| - 1], i, key) + (if ws[|ws| - 1].key == key then |RowsOf(ws[|ws| - 1])| else 0)
  }

  /** Every write to `key` after the `i`-th found the list still alive. */
  ghost predicate Unbroken(ws: seq<Entry>, i: nat, key: string) {
    forall m :: i < m < |ws| && ws[m].key == key ==> ws[m].at < Expiry(ws[..m], key)
  }

  lemma {:induction false} HistoryAt(ws: seq<Entry>, i: nat, key: string, p: nat)
    requires i < |ws| && ws[i].key == key && p < |RowsOf(ws[i])| && Unbroken(ws, i, key)
    ensures NewerRows(ws, i, key) + p < |History(ws, key)|
    ensures History(ws, key)[NewerRows(ws, i, key) + p] == RowsOf(ws[i])[p]
  {
    hide RowsOf, Clamp;
    var (front, w) := (ws[..|ws| - 1], ws[|ws| - 1]);
    if i < |ws| - 1 {
      forall m | i < m < |front| && front[m].key == key ensures front[m].at < Expiry(front[..m], key) {
        assert front[m] == ws[m] && front[..m] == ws[..m];
      }
      HistoryAt(front, i, key, p);
      if w.key == key { assert ws[..|ws| - 1] == front; }
    }
  }

  lemma {:induction false} ExpiryAfter(ws: seq<Entry>, i: nat, key: string)
    requires InOrder(ws) && i < |ws| && ws[i].key == key && RowsOf(ws[i]) != []
    ensures Expiry(ws, key) > ws[i].at
  {
    hide RowsOf;
    if i < |ws| - 1 { ExpiryAfter(ws[..|ws| - 1], i, key); }
  }

  /** Once the list was allowed to expire, the rows from before are gone for good. */
  lemma {:induction false} BrokenIsGone(ws: seq<Entry>, i: nat, key: string)
    requires InOrder(ws) && i < |ws| && ws[i].key == key && RowsOf(ws[i]) != [] && !Unbroken(ws, i, key)
    ensures ws[i].at < ws[|ws| - 1].at
    ensures Expiry(ws, key) <= ws[|ws| - 1].at || forall r :: r in History(ws, key) ==> r.ts > ws[i].at
  {
    hide RowsOf, Clamp, Unbroken;
    var (front, w) := (ws[..|ws| - 1], ws[|ws| - 1]);
    if i == |front| { NothingBreaks(ws, i, key); }
    if Unbroken(front, i, key) {
      ExpiryAfter(front, i, key);
      UnbrokenStep(ws, i, key);
    } else {
      BrokenIsGone(front, i, key);
    }
    forall r | r in RowsOf(w) ensures r.ts == w.at { RowTime(w, r); }
  }

  lemma {:induction false} RowTime(w: Entry, r: Row)
    requires r in RowsOf(w)
    ensures r.ts == w.at && r.ttl == Clamp(w.ttl) && r.ip in w.ips
  {
    PushedIs(w.ips, Clamp(w.ttl), w.at, r);
  }

  /** Row `p` of the `i`-th write is among what `Recent` returns at `now`. */
  predicate Found(ws: seq<Entry>, i: nat, p: nat, now: nat)
    requires i < |ws| && p < |RowsOf(ws[i])|
  {
    RowsOf(ws[i])[p] in Fresh(First(READ_BATCH, Live(StoreAfter(ws), ws[i].key, now)), now)
  }

  lemma {:induction false} FoundMatches(ws: seq<Entry>, i: nat, p: nat, now: nat, optedIn: bool)
    requires i < |ws| && p < |RowsOf(ws[i])| && Found(ws, i, p, now) && RowsOf(ws[i])[p].ip != ""
    ensures Compared(optedIn, RowsOf(ws[i])[p].ip, Fresh(First(READ_BATCH, Live(StoreAfter(ws), ws[i].key, now)), now))
      == Comparison([UserDnsPathMatch], true)
  {
  }

  lemma {:induction false} FoundIffAlive(ws: seq<Entry>, i: nat, p: nat, now: nat)
    requires InOrder(ws) && i < |ws| && p < |RowsOf(ws[i])| && ws[|ws| - 1].at <= now
    requires NewerRows(ws, i, ws[i].key) + p < 10 && now <= ws[i].at + Clamp(ws[i].ttl)
    ensures Found(ws, i, p, now) <==> Unbroken(ws, i, ws[i].key) && now < Expiry(ws, ws[i].key)
  {
    hide RowsOf, Clamp, StoreAfter, Live, Expiry, Unbroken, NewerRows;
    var (key, r) := (ws[i].key, RowsOf(ws[i])[p]);
    LiveIs(ws, key, now);
    var live := Live(StoreAfter(ws), key, now);
    RowTime(ws[i], r);
    FreshIs(First(READ_BATCH, live), now, r);
    if now < Expiry(ws, key) {
      if Unbroken(ws, i, key) {
        HistoryAt(ws, i, key, p);
        assert live[NewerRows(ws, i, key) + p] == r;
      } else {
        BrokenIsGone(ws, i, key);
      }
    }
  }

  // ----- the same by the lifetimes of the writes alone

  /** When a list whose last write is `w` expires. */
  function Lifetime(w: Entry): nat { w.at + Clamp(w.ttl) + GRACE }

  /** After the `m`-th write the list lives until `now` or until the next write to its key. */
  ghost predicate Bridged(ws: seq<Entry>, m: nat, key: string, now: nat)
    requires m < |ws|
  {
    now < Lifetime(ws[m]) || exists n :: m < n < |ws| && ws[n].key == key && ws[n].at < Lifetime(ws[m])
  }

  ghost predicate KeptAlive(ws: seq<Entry>, i: nat, key: string, now: nat) {
    forall m :: i <= m < |ws| && ws[m].key == key ==> Bridged(ws, m, key, now)
  }

  lemma {:induction false} NothingBreaks(ws: seq<Entry>, i: nat, key: string)
    requires i + 1 == |ws|
    ensures Unbroken(ws, i, key)
  {
  }

  lemma {:induction false} OnlyBridge(ws: seq<Entry>, i: nat, key: string, now: nat)
    requires i + 1 == |ws| && ws[i].key == key
    ensures KeptAlive(ws, i, key, now) <==> now < Lifetime(ws[i])
  {
  }

  lemma {:induction false} AliveIff(ws: seq<Entry>, i: nat, key: string, now: nat)
    requires InOrder(ws) && i < |ws| && ws[i].key == key && RowsOf(ws[i]) != [] && ws[|ws| - 1].at <= now
    ensures Unbroken(ws, i, key) && now < Expiry(ws, key) <==> KeptAlive(ws, i, key, now)
  {
    hide RowsOf, Clamp, KeptAlive, Unbroken;
    var (front, w) := (ws[..|ws| - 1], ws[|ws| - 1]);
    if i == |ws| - 1 {
      NothingBreaks(ws, i, key);
      OnlyBridge(ws, i, key, now);
    } else {
      AliveIff(front, i, key, if w.key == key then w.at else now);
      UnbrokenStep(ws, i, key);
      KeptStep(ws, i, key, now);
    }
  }

  lemma {:induction false} UnbrokenStep(ws: seq<Entry>, i: nat, key: string)
    requires i + 1 < |ws|
    ensures var (front, w) := (ws[..|ws| - 1], ws[|ws| - 1]);
      Unbroken(ws, i, key) <==> Unbroken(front, i, key) && (w.key == key ==> w.at < Expiry(front, key))
  {
    hide Expiry;
    var front := ws[..|ws| - 1];
    assert forall m :: i < m < |front| ==> front[m] == ws[m] && front[..m] == ws[..m];
  }

  lemma {:induction false} KeptStep(ws: seq<Entry>, i: nat, key: string, now: nat)
    requires InOrder(ws) && i + 1 < |ws| && ws[|ws| - 1].at <= now
    ensures var (front, w) := (ws[..|ws| - 1], ws[|ws| - 1]);
      KeptAlive(ws, i, key, now) <==>
        if w.key == key then KeptAlive(front, i, key, w.at) && now < Lifetime(w) else KeptAlive(front, i, key, now)
  {
  }

  /**
   * While fewer than ten newer rows follow, a row inside its own clamped TTL is found exactly if every write
   * to its key, from its own on, kept the list alive until now or until the next write.
   */
  lemma {:induction false} RowIsFoundIff(ws: seq<Entry>, i: nat, p: nat, now: nat)
    requires InOrder(ws) && i < |ws| && p < |RowsOf(ws[i])| && ws[|ws| - 1].at <= now
    requires NewerRows(ws, i, ws[i].key) + p < 10 && now <= ws[i].at + Clamp(ws[i].ttl)
    ensures Found(ws, i, p, now) <==> KeptAlive(ws, i, ws[i].key, now)
  {
    hide Found, KeptAlive, Unbroken, NewerRows, RowsOf, Clamp, Expiry;
    FoundIffAlive(ws, i, p, now);
    AliveIff(ws, i, ws[i].key, now);
  }

  // ----- in seconds

  lemma {:induction false} OneRow(key: string, ip: string, ttl: nat, at: nat)
    requires ip != ""
    ensures RowsOf(Entry(key, [ip], ttl, at)) == [Row(ip, Clamp(ttl), at)]
  {
    assert [ip][..0] == [];
    assert Pushed([], Clamp(ttl), at) == [];
  }

  /**
   * The life of a row written alone, in seconds: found for exactly its TTL, but at least a minute and at most
   * a day. The list lives five minutes longer, and during these the row is not found.
   */
  lemma {:induction false} LoneRowIsFoundIff(key: string, ip: string, ttl: nat, at: nat, now: nat)
    requires ip != "" && at <= now
    ensures var ws := [Entry(key, [ip], ttl, at)];
      && |RowsOf(ws[0])| == 1 && RowsOf(ws[0])[0].ip == ip
      && (ttl < 60 ==> (Found(ws, 0, 0, now) <==> now <= at + 60))
      && (60 <= ttl <= 86_400 ==> (Found(ws, 0, 0, now) <==> now <= at + ttl))
      && (ttl > 86_400 ==> (Found(ws, 0, 0, now) <==> now <= at + 86_400))
      && (ttl < 60 ==> (Live(StoreAfter(ws), key, now) != [] <==> now < at + 360))
      && (60 <= ttl <= 86_400 ==> (Live(StoreAfter(ws), key, now) != [] <==> now < at + ttl + 300))
      && (ttl > 86_400 ==> (Live(StoreAfter(ws), key, now) != [] <==> now < at + 86_700))
  {
    hide RowsOf, Fresh;
    var ws := [Entry(key, [ip], ttl, at)];
    OneRow(key, ip, ttl, at);
    LoneList(key, ip, ttl, at, now);
    FreshIs(First(READ_BATCH, Live(StoreAfter(ws), key, now)), now, RowsOf(ws[0])[0]);
  }

  lemma {:induction false} LoneList(key: string, ip: string, ttl: nat, at: nat, now: nat)
    requires ip != "" && at <= now
    ensures Live(StoreAfter([Entry(key, [ip], ttl, at)]), key, now) ==
      if now < at + Clamp(ttl) + GRACE then [Row(ip, Clamp(ttl), at)] else []
  {
    hide RowsOf, Clamp;
    var ws := [Entry(key, [ip], ttl, at)];
    OneRow(key, ip, ttl, at);
    assert ws[..0] == [];
    LiveIs(ws, key, now);
  }

  /** After any writes a list has the rows of its history, up to ten of them. */
  lemma {:induction false} AtMostTenRows(ws: seq<Entry>, key: string, now: nat)
    requires InOrder(ws) && (ws != [] ==> ws[|ws| - 1].at <= now) && now < Expiry(ws, key)
    ensures var (live, all) := (Live(StoreAfter(ws), key, now), History(ws, key));
      live <= all && |live| == (if |all| < 10 then |all| else 10) && First(READ_BATCH, live) == live
  {
    LiveIs(ws, key, now);
  }

  // ----- the promised lifetime

  /** `now` lies between the first `n` writes and the rest. */
  predicate Between(ws: seq<Entry>, n: nat, now: nat) {
    0 < n <= |ws| && ws[n - 1].at <= now && (n < |ws| ==> now <= ws[n].at)
  }

  /** A reader finds the row at every moment until its own clamped TTL is over. */
  ghost predicate FoundToTheEnd(ws: seq<Entry>, i: nat, p: nat)
    requires i < |ws| && p < |RowsOf(ws[i])|
  {
    forall n: nat, now: nat :: i < n && Between(ws, n, now) && now <= Deadline(ws[i]) ==> Found(ws[..n], i, p, now)
  }

  function Deadline(w: Entry): nat { w.at + Clamp(w.ttl) }

  lemma {:induction false} FewerNewer(ws: seq<Entry>, i: nat, key: string, n: nat)
    requires i < n <= |ws|
    ensures NewerRows(ws[..n], i, key) <= NewerRows(ws, i, key)
    decreases |ws|
  {
    hide RowsOf;
    if n < |ws| {
      assert ws[..|ws| - 1][..n] == ws[..n];
      FewerNewer(ws[..|ws| - 1], i, key, n);
    } else {
      assert ws[..n] == ws;
    }
  }

  /** Some prefix of the writes, longer than `m`, is where `now` lies. */
  lemma {:induction false} Place(ws: seq<Entry>, m: nat, now: nat) returns (n: nat)
    requires InOrder(ws) && m < |ws| && ws[m].at <= now
    ensures m < n && Between(ws, n, now)
    ensures forall k :: m < k < n ==> ws[k].at < now
  {
    n := m + 1;
    while n < |ws| && ws[n].at < now
      invariant m < n <= |ws| && ws[n - 1].at <= now
      invariant forall k :: m < k < n ==> ws[k].at < now
    {
      n := n + 1;
    }
  }

  lemma {:induction false} InOrderPart(ws: seq<Entry>, n: nat)
    requires InOrder(ws) && n <= |ws|
    ensures InOrder(ws[..n])
  {
  }

  /** The writes to the key up to the deadline each keep the list alive past it or until the next write. */
  ghost predicate KeptToTheEnd(ws: seq<Entry>, i: nat)
    requires i < |ws|
  {
    forall m :: i <= m < |ws| && ws[m].key == ws[i].key && ws[m].at <= Deadline(ws[i]) ==>
      Bridged(ws, m, ws[i].key, Deadline(ws[i]))
  }

  lemma {:induction false} KeptIsFound(ws: seq<Entry>, i: nat, p: nat, n: nat, now: nat)
    requires InOrder(ws) && i < |ws| && p < |RowsOf(ws[i])| && NewerRows(ws, i, ws[i].key) + p < 10
    requires KeptToTheEnd(ws, i) && i < n && Between(ws, n, now) && now <= Deadline(ws[i])
    ensures Found(ws[..n], i, p, now)
  {
    hide RowsOf, Clamp, Found, NewerRows, Lifetime;
    var key := ws[i].key;
    forall m | i <= m < n && ws[m].key == key ensures Bridged(ws[..n], m, key, now) {
      assert Bridged(ws, m, key, Deadline(ws[i]));
      if Deadline(ws[i]) >= Lifetime(ws[m]) {
        var k :| m < k < |ws| && ws[k].key == key && ws[k].at < Lifetime(ws[m]);
        if k < n { assert ws[..n][k] == ws[k]; }
      }
    }
    FewerNewer(ws, i, key, n);
    InOrderPart(ws, n);
    RowIsFoundIff(ws[..n], i, p, now);
  }

  lemma {:induction false} FoundIsKept(ws: seq<Entry>, i: nat, p: nat, m: nat)
    requires InOrder(ws) && i <= m < |ws| && p < |RowsOf(ws[i])| && NewerRows(ws, i, ws[i].key) + p < 10
    requires FoundToTheEnd(ws, i, p) && ws[m].key == ws[i].key
    ensures Bridged(ws, m, ws[i].key, Deadline(ws[i]))
  {
    hide RowsOf, Clamp, Found, NewerRows;
    var (key, now) := (ws[i].key, Lifetime(ws[m]));
    if now <= Deadline(ws[i]) {
      var n := Place(ws, m, now);
      FewerNewer(ws, i, key, n);
      InOrderPart(ws, n);
      RowIsFoundIff(ws[..n], i, p, now);
      assert Bridged(ws[..n], m, key, now);
      var k :| m < k < n && ws[k].key == key && ws[k].at < now;
    }
  }

  /**
   * The lifetime the header promises: a row with fewer than ten newer ones is found until its own clamped
   * TTL is over exactly if no write to its key, with its own clamped TTL and the grace, lets the list
   * expire before that and before the next write.
   */
  lemma {:induction false} FoundToTheEndIff(ws: seq<Entry>, i: nat, p: nat)
    requires InOrder(ws) && i < |ws| && p < |RowsOf(ws[i])| && NewerRows(ws, i, ws[i].key) + p < 10
    ensures FoundToTheEnd(ws, i, p) <==> KeptToTheEnd(ws, i)
  {
    hide RowsOf, Clamp, Found, NewerRows, Bridged, Deadline;
    if KeptToTheEnd(ws, i) {
      forall n: nat, now: nat | i < n && Between(ws, n, now) && now <= Deadline(ws[i])
        ensures Found(ws[..n], i, p, now)
      {
        KeptIsFound(ws, i, p, n, now);
      }
    }
    if FoundToTheEnd(ws, i, p) {
      forall m | i <= m < |ws| && ws[m].key == ws[i].key ensures Bridged(ws, m, ws[i].key, Deadline(ws[i])) {
        FoundIsKept(ws, i, p, m);
      }
    }
  }

  /** A row whose clamped TTL is below the least lifetime of a list is never lost early, whatever is written. */
  lemma {:induction false} ShortTtlIsSafe(ws: seq<Entry>, i: nat, p: nat)
    requires InOrder(ws) && i < |ws| && p < |RowsOf(ws[i])| && NewerRows(ws, i, ws[i].key) + p < 10
    requires Clamp(ws[i].ttl) < 360
    ensures FoundToTheEnd(ws, i, p)
  {
    FoundToTheEndIff(ws, i, p);
  }

  /** Any other row is lost early when a later write, at most that much before its deadline, has a short TTL. */
  lemma {:induction false} LaterShortTtlWins(key: string, ip: string, other: string, ttl: nat, at: nat, wait: nat)
    requires ip != "" && other != "" && wait + 360 <= Clamp(ttl)
    ensures var ws := [Entry(key, [ip], ttl, at), Entry(key, [other], 60, at + wait)];
      && InOrder(ws) && |RowsOf(ws[0])| == 1 && NewerRows(ws, 0, key) == 1
      && at + wait + 360 <= Deadline(ws[0]) && !Found(ws, 0, 0, at + wait + 360)
  {
    hide RowsOf, Found;
    var ws := [Entry(key, [ip], ttl, at), Entry(key, [other], 60, at + wait)];
    var now := at + wait + 360;
    OneRow(key, ip, ttl, at);
    OneRow(key, other, 60, at + wait);
    assert ws[..1] == [Entry(key, [ip], ttl, at)];
    RowIsFoundIff(ws, 0, 0, now);
    assert !Bridged(ws, 1, key, now);
  }
}
