/**
 * verdict-api: the bounded breadth-first crawl of /v1/deep-scan. A page is a URL; the render cache
 * gives the links of the pages that have a cached render, `hostOf` the host name of a URL, and
 * `budget` the number of pages whose turn comes before the 60 s deadline.
 */
module DeepScan {
  type Url = string

  datatype Request = Request(url: Url, maxDepth: int, maxPages: int, sameOriginOnly: bool)
  datatype Item = Item(pageURL: Url, depth: nat)
  datatype Web = Web(renders: map<Url, seq<Url>>, hostOf: Url -> string)

  const MAX_DEPTH: nat := 2
  const MAX_PAGES: nat := 15
  const MAX_CROSS: nat := 5

  /** Defaults and hard caps. */
  function Depth(req: Request): nat {
    var d := if req.maxDepth <= 0 then 1 else req.maxDepth;
    if d > MAX_DEPTH then MAX_DEPTH else d
  }

  function Pages(req: Request): nat {
    var p := if req.maxPages <= 0 then 5 else req.maxPages;
    if p > MAX_PAGES then MAX_PAGES else p
  }

  /** The limits in numbers: depth 1 and 5 pages by default, never more than depth 2 and 15 pages. */
  predicate Limits(req: Request, depth: nat, pages: nat) {
    && (req.maxDepth <= 0 ==> depth == 1) && (req.maxDepth >= 2 ==> depth == 2)
    && (req.maxDepth == 1 ==> depth == 1)
    && (req.maxPages <= 0 ==> pages == 5) && (req.maxPages >= 15 ==> pages == 15)
    && (0 < req.maxPages < 15 ==> pages == req.maxPages)
  }

  lemma {:induction false} LimitsAre(req: Request)
    ensures Limits(req, Depth(req), Pages(req))
    ensures forall d: nat, p: nat :: Limits(req, d, p) ==> d == Depth(req) && p == Pages(req)
  {
  }

  // ----- the link graph the crawl sees

  predicate Cross(web: Web, req: Request, u: Url) { web.hostOf(u) != web.hostOf(req.url) }

  predicate Eligible(web: Web, req: Request, u: Url) {
    u != "" && !(req.sameOriginOnly && Cross(web, req, u))
  }

  function Links(web: Web, u: Url): seq<Url> {
    if u in web.renders then web.renders[u] else []
  }

  predicate Linked(web: Web, req: Request, u: Url, v: Url) {
    v in Links(web, u) && Eligible(web, req, v)
  }

  /**
   * Which links are followed: non-empty ones of pages with a cached render, and, if the request asks for the
   * same origin only, those to the host of the root.
   */
  lemma {:induction false} FollowedIff(web: Web, req: Request, u: Url, v: Url)
    ensures Linked(web, req, u, v) <==>
      && u in web.renders && v in web.renders[u] && v != ""
      && (req.sameOriginOnly ==> web.hostOf(v) == web.hostOf(req.url))
  {
  }

  predicate IsPath(web: Web, req: Request, p: seq<Url>) {
    p != [] && p[0] == req.url && forall i :: 0 <= i < |p| - 1 ==> Linked(web, req, p[i], p[i + 1])
  }

  /** Some chain of exactly `d` filtered links leads from the root to `u`. */
  ghost predicate AtDistance(web: Web, req: Request, u: Url, d: nat) {
    exists p :: IsPath(web, req, p) && |p| == d + 1 && p[d] == u
  }

  ghost predicate ShortestDistance(web: Web, req: Request, u: Url, d: nat) {
    AtDistance(web, req, u, d) && forall e: nat :: AtDistance(web, req, u, e) ==> d <= e
  }

  /** The URLs within `d` filtered links of the root. */
  function Within(web: Web, req: Request, d: nat): set<Url> {
    if d == 0 then {req.url}
    else
      var near := Within(web, req, d - 1);
      near + set u, v | u in near && v in Links(web, u) && Eligible(web, req, v) :: v
  }

  lemma {:induction false} Prefix(web: Web, req: Request, p: seq<Url>, n: nat)
    requires IsPath(web, req, p) && 0 < n <= |p|
    ensures IsPath(web, req, p[..n])
  {
  }

  lemma {:induction false} Grows(web: Web, req: Request, d: nat, e: nat)
    requires d <= e
    ensures Within(web, req, d) <= Within(web, req, e)
  {
    if d < e { Grows(web, req, d, e - 1); }
  }

  /** The level sets are exactly what paths reach. */
  lemma {:induction false} WithinIsReachable(web: Web, req: Request, u: Url, d: nat)
    ensures u in Within(web, req, d) <==> exists e: nat :: e <= d && AtDistance(web, req, u, e)
  {
    if u in Within(web, req, d) {
      var e := PathInto(web, req, u, d);
    }
    forall e: nat | e <= d && AtDistance(web, req, u, e) ensures u in Within(web, req, d) {
      var p :| IsPath(web, req, p) && |p| == e + 1 && p[e] == u;
      PathStaysWithin(web, req, p);
      Grows(web, req, e, d);
    }
  }

  lemma {:induction false} Root(web: Web, req: Request)
    ensures AtDistance(web, req, req.url, 0)
  {
    assert IsPath(web, req, [req.url]);
  }

  lemma {:induction false} OneMoreLink(web: Web, req: Request, u: Url, v: Url, d: nat)
    requires AtDistance(web, req, u, d) && Linked(web, req, u, v)
    ensures AtDistance(web, req, v, d + 1)
  {
    var p :| IsPath(web, req, p) && |p| == d + 1 && p[d] == u;
    assert IsPath(web, req, p + [v]);
    assert (p + [v])[d + 1] == v;
  }

  lemma {:induction false} CameFrom(web: Web, req: Request, u: Url, d: nat) returns (t: Url)
    requires d > 0 && u in Within(web, req, d) && u !in Within(web, req, d - 1)
    ensures t in Within(web, req, d - 1) && Linked(web, req, t, u)
  {
    t :| t in Within(web, req, d - 1) && u in Links(web, t) && Eligible(web, req, u);
  }

  lemma {:induction false} OnlyRoot(web: Web, req: Request, u: Url)
    ensures u in Within(web, req, 0) <==> u == req.url
  {
  }

  lemma {:induction false} PathInto(web: Web, req: Request, u: Url, d: nat) returns (e: nat)
    requires u in Within(web, req, d)
    ensures e <= d && AtDistance(web, req, u, e)
    decreases d
  {
    hide AtDistance, Linked, Within;
    if d == 0 {
      OnlyRoot(web, req, u);
      Root(web, req);
      e := 0;
    } else if u in Within(web, req, d - 1) {
      e := PathInto(web, req, u, d - 1);
    } else {
      var t := CameFrom(web, req, u, d);
      e := PathInto(web, req, t, d - 1);
      OneMoreLink(web, req, t, u, e);
      e := e + 1;
    }
  }

  lemma {:induction false} PathStaysWithin(web: Web, req: Request, p: seq<Url>)
    requires IsPath(web, req, p)
    ensures p[|p| - 1] in Within(web, req, |p| - 1)
  {
    if |p| > 1 {
      var q := p[..|p| - 1];
      Prefix(web, req, p, |p| - 1);
      PathStaysWithin(web, req, q);
      assert Linked(web, req, p[|p| - 2], p[|p| - 2 + 1]);
    }
  }

  // ----- what a crawl delivers

  function Urls(items: seq<Item>): set<Url> { set i | i in items :: i.pageURL }

  ghost predicate DistinctUrls(items: seq<Item>) {
    forall i, j :: 0 <= i < j < |items| ==> items[i].pageURL != items[j].pageURL
  }

  ghost predicate NondecreasingDepth(items: seq<Item>) {
    forall i, j :: 0 <= i < j < |items| ==> items[i].depth <= items[j].depth
  }

  function CrossPages(web: Web, req: Request, s: set<Url>): set<Url> {
    set u | u in s && Cross(web, req, u)
  }

  /** Nothing stops the crawl early: the caps and the deadline have room for every page in reach. */
  ghost predicate Roomy(web: Web, req: Request, budget: nat) {
    var ball := Within(web, req, Depth(req));
    |ball| <= Pages(req) && |ball| <= budget && |CrossPages(web, req, ball)| <= MAX_CROSS
  }

  lemma {:induction false} CardOfSubset<T>(a: set<T>, b: set<T>)
    requires a <= b
    ensures |a| <= |b|
  {
    if a != {} {
      var x :| x in a;
      CardOfSubset(a - {x}, b - {x});
    }
  }

  lemma {:induction false} CardOfUrls(items: seq<Item>)
    requires DistinctUrls(items)
    ensures |Urls(items)| == |items|
  {
    if items != [] {
      var (front, last) := (items[..|items| - 1], items[|items| - 1]);
      CardOfUrls(front);
      assert items == front + [last];
      assert Urls(items) == Urls(front) + {last.pageURL};
    }
  }

  // ----- what holds between two turns: `order` lists the pages in the order they were discovered,
  // the first `done` of them processed and the others still queued

  ghost predicate Sound(web: Web, req: Request, order: seq<Item>, done: nat, visited: set<Url>, cross: nat) {
    && 0 < |order| && done <= |order| && order[0] == Item(req.url, 0)
    && DistinctUrls(order) && Urls(order) == visited
    && |visited| <= Pages(req)
    && |CrossPages(web, req, visited)| <= cross <= MAX_CROSS
    && Levelled(web, req, order)
    && (if done == 0 then |order| == 1 else order[|order| - 1].depth <= order[done - 1].depth + 1)
  }

  ghost predicate Levelled(web: Web, req: Request, order: seq<Item>) {
    && NondecreasingDepth(order)
    && forall i :: 0 <= i < |order| ==>
         order[i].depth <= Depth(req) && AtDistance(web, req, order[i].pageURL, order[i].depth)
  }

  /** Holds as long as no cap has turned a link away. */
  ghost predicate Unhindered(web: Web, req: Request, visited: set<Url>, cross: nat) {
    visited <= Within(web, req, Depth(req)) && cross == |CrossPages(web, req, visited)|
  }

  /** A cap is reached. */
  ghost predicate AtLimit(web: Web, req: Request, visited: set<Url>) {
    |visited| >= Pages(req) || |CrossPages(web, req, visited)| >= MAX_CROSS
  }

  ghost predicate Found(order: seq<Item>, v: Url, d: nat) {
    exists i :: 0 <= i < |order| && order[i].pageURL == v && order[i].depth <= d
  }

  /** The first `n` links of a page have been taken up. */
  ghost predicate LinksFound(web: Web, req: Request, order: seq<Item>, item: Item, n: nat) {
    forall j :: 0 <= j < n && j < |Links(web, item.pageURL)| && Eligible(web, req, Links(web, item.pageURL)[j])
      ==> Found(order, Links(web, item.pageURL)[j], item.depth + 1)
  }

  ghost predicate Full(web: Web, req: Request, order: seq<Item>, done: nat) {
    forall k :: 0 <= k < done && k < |order| && order[k].depth < Depth(req)
      ==> LinksFound(web, req, order, order[k], |Links(web, order[k].pageURL)|)
  }

  lemma {:induction false} FoundKept(order: seq<Item>, more: seq<Item>, v: Url, d: nat)
    requires Found(order, v, d)
    ensures Found(order + more, v, d)
  {
    var i :| 0 <= i < |order| && order[i].pageURL == v && order[i].depth <= d;
    assert (order + more)[i] == order[i];
  }

  lemma {:induction false} LinksFoundKept(web: Web, req: Request, order: seq<Item>, more: seq<Item>, item: Item, n: nat)
    requires LinksFound(web, req, order, item, n)
    ensures LinksFound(web, req, order + more, item, n)
  {
    forall j | 0 <= j < n && j < |Links(web, item.pageURL)| && Eligible(web, req, Links(web, item.pageURL)[j])
      ensures Found(order + more, Links(web, item.pageURL)[j], item.depth + 1)
    {
      FoundKept(order, more, Links(web, item.pageURL)[j], item.depth + 1);
    }
  }

  lemma {:induction false} FullKept(web: Web, req: Request, order: seq<Item>, more: seq<Item>, done: nat)
    requires Full(web, req, order, done) && done <= |order|
    ensures Full(web, req, order + more, done)
  {
    forall k | 0 <= k < done && order[k].depth < Depth(req)
      ensures LinksFound(web, req, order + more, (order + more)[k], |Links(web, order[k].pageURL)|)
    {
      LinksFoundKept(web, req, order, more, order[k], |Links(web, order[k].pageURL)|);
    }
  }

  /** Appending one newly linked page keeps the levels. */
  lemma {:induction false} LevelledAppend(web: Web, req: Request, order: seq<Item>, done: nat, v: Url)
    requires 0 < done <= |order| && Levelled(web, req, order)
    requires order[|order| - 1].depth <= order[done - 1].depth + 1 <= Depth(req)
    requires Linked(web, req, order[done - 1].pageURL, v)
    ensures Levelled(web, req, order + [Item(v, order[done - 1].depth + 1)])
  {
    OneMoreLink(web, req, order[done - 1].pageURL, v, order[done - 1].depth);
  }

  lemma {:induction false} CrossGrows(web: Web, req: Request, s: set<Url>, v: Url)
    requires v !in s
    ensures |CrossPages(web, req, s + {v})| == |CrossPages(web, req, s)| + (if Cross(web, req, v) then 1 else 0)
  {
    if Cross(web, req, v) {
      assert CrossPages(web, req, s + {v}) == CrossPages(web, req, s) + {v};
    } else {
      assert CrossPages(web, req, s + {v}) == CrossPages(web, req, s);
    }
  }

  lemma {:induction false} SoundAppend(web: Web, req: Request, order: seq<Item>, done: nat, visited: set<Url>,
          cross: nat, v: Url)
    requires Sound(web, req, order, done, visited, cross) && done > 0
    requires order[done - 1].depth < Depth(req) && Linked(web, req, order[done - 1].pageURL, v)
    requires v !in visited && |visited| < Pages(req)
    requires Cross(web, req, v) ==> cross < MAX_CROSS
    ensures Sound(web, req, order + [Item(v, order[done - 1].depth + 1)], done, visited + {v},
                  cross + (if Cross(web, req, v) then 1 else 0))
  {
    hide AtDistance, NondecreasingDepth, DistinctUrls, Within;
    LevelledAppend(web, req, order, done, v);
    CrossGrows(web, req, visited, v);
    DistinctAppend(order, Item(v, order[done - 1].depth + 1));
  }

  lemma {:induction false} DistinctAppend(order: seq<Item>, item: Item)
    requires DistinctUrls(order) && item.pageURL !in Urls(order)
    ensures DistinctUrls(order + [item]) && Urls(order + [item]) == Urls(order) + {item.pageURL}
  {
  }

  /** With room for everything in reach, no cap turns a new link away. */
  lemma {:induction false} RoomForOneMore(web: Web, req: Request, visited: set<Url>, cross: nat, budget: nat, v: Url)
    requires Roomy(web, req, budget) && Unhindered(web, req, visited, cross)
    requires v in Within(web, req, Depth(req)) && v !in visited
    ensures |visited| < Pages(req)
    ensures Cross(web, req, v) ==> cross < MAX_CROSS
  {
    var ball := Within(web, req, Depth(req));
    CardOfSubset(visited + {v}, ball);
    CardOfSubset(CrossPages(web, req, visited + {v}), CrossPages(web, req, ball));
    CrossGrows(web, req, visited, v);
  }

  lemma {:induction false} LinkInReach(web: Web, req: Request, item: Item, v: Url)
    requires item.depth < Depth(req) && AtDistance(web, req, item.pageURL, item.depth)
    requires Linked(web, req, item.pageURL, v)
    ensures v in Within(web, req, Depth(req))
  {
    OneMoreLink(web, req, item.pageURL, v, item.depth);
    WithinIsReachable(web, req, v, Depth(req));
  }

  /**
   * The state of the inner loop: the first `n` links of the page processed last have been looked at; `cut`
   * says that a cap has turned a link away.
   */
  ghost predicate Taking(web: Web, req: Request, order: seq<Item>, done: nat, visited: set<Url>, cross: nat,
          budget: nat, cut: bool, n: nat)
  {
    && done > 0 && Sound(web, req, order, done, visited, cross) && order[done - 1].depth < Depth(req)
    && (if cut then !Roomy(web, req, budget) && AtLimit(web, req, visited)
        else Unhindered(web, req, visited, cross) && LinksFound(web, req, order, order[done - 1], n))
  }

  lemma {:induction false} TakeKnown(web: Web, req: Request, order: seq<Item>, done: nat, visited: set<Url>,
          cross: nat, budget: nat, cut: bool, n: nat)
    requires Taking(web, req, order, done, visited, cross, budget, cut, n) && n < |Links(web, order[done - 1].pageURL)|
    requires var l := Links(web, order[done - 1].pageURL)[n]; l in visited || !Eligible(web, req, l)
    ensures Taking(web, req, order, done, visited, cross, budget, cut, n + 1)
  {
  }

  lemma {:induction false} TakeTurnedAway(web: Web, req: Request, order: seq<Item>, done: nat, visited: set<Url>,
          cross: nat, budget: nat, cut: bool, n: nat)
    requires Taking(web, req, order, done, visited, cross, budget, cut, n) && n < |Links(web, order[done - 1].pageURL)|
    requires var l := Links(web, order[done - 1].pageURL)[n];
      l !in visited && Eligible(web, req, l) && ((Cross(web, req, l) && cross >= MAX_CROSS) || |visited| >= Pages(req))
    ensures Taking(web, req, order, done, visited, cross, budget, true, n + 1)
    ensures cross < MAX_CROSS && |visited| >= Pages(req) ==>
      Taking(web, req, order, done, visited, cross + 1, budget, true, n + 1)
  {
    hide LinksFound;
    if !cut && Roomy(web, req, budget) {
      LinkInReach(web, req, order[done - 1], Links(web, order[done - 1].pageURL)[n]);
      RoomForOneMore(web, req, visited, cross, budget, Links(web, order[done - 1].pageURL)[n]);
    }
  }

  lemma {:induction false} CutAnyway(web: Web, req: Request, order: seq<Item>, done: nat, visited: set<Url>,
          cross: nat, budget: nat, n: nat, m: nat)
    requires Taking(web, req, order, done, visited, cross, budget, true, n)
    ensures Taking(web, req, order, done, visited, cross, budget, true, m)
  {
  }

  lemma {:induction false} LinkFound(web: Web, req: Request, order: seq<Item>, item: Item, n: nat)
    requires LinksFound(web, req, order, item, n) && n < |Links(web, item.pageURL)|
    ensures LinksFound(web, req, order + [Item(Links(web, item.pageURL)[n], item.depth + 1)], item, n + 1)
  {
    hide Found;
    var next := Item(Links(web, item.pageURL)[n], item.depth + 1);
    LinksFoundKept(web, req, order, [next], item, n);
    FoundLast(order, next);
  }

  lemma {:induction false} FoundLast(order: seq<Item>, next: Item)
    ensures Found(order + [next], next.pageURL, next.depth)
  {
    assert (order + [next])[|order|] == next;
  }

  lemma {:induction false} PageInOrder(web: Web, req: Request, order: seq<Item>, done: nat, visited: set<Url>,
          cross: nat)
    requires Sound(web, req, order, done, visited, cross) && done > 0
    ensures done <= |order| && AtDistance(web, req, order[done - 1].pageURL, order[done - 1].depth)
  {
  }

  lemma {:induction false} TakeNew(web: Web, req: Request, order: seq<Item>, done: nat, visited: set<Url>, cross: nat,
                                   budget: nat, cut: bool, n: nat)
    requires Taking(web, req, order, done, visited, cross, budget, cut, n) && n < |Links(web, order[done - 1].pageURL)|
    requires var l := Links(web, order[done - 1].pageURL)[n];
      l !in visited && Eligible(web, req, l) && |visited| < Pages(req) && (Cross(web, req, l) ==> cross < MAX_CROSS)
    ensures var l := Links(web, order[done - 1].pageURL)[n];
      Taking(web, req, order + [Item(l, order[done - 1].depth + 1)], done, visited + {l},
             cross + (if Cross(web, req, l) then 1 else 0), budget, cut, n + 1)
  {
    hide Roomy, LinksFound, Sound;
    PageInOrder(web, req, order, done, visited, cross);
    var item := order[done - 1];
    var l := Links(web, item.pageURL)[n];
    SoundAppend(web, req, order, done, visited, cross, l);
    CrossGrows(web, req, visited, l);
    if !cut {
      LinkInReach(web, req, item, l);
      LinkFound(web, req, order, item, n);
    }
  }

  // ----- first come, first served

  /** The `link`-th link of the `page`-th page of the crawl. */
  datatype Spot = Spot(page: nat, link: nat)

  predicate Earlier(x: Spot, y: Spot) { x.page < y.page || (x.page == y.page && x.link < y.link) }

  /** A link that the crawl looks at and may follow. */
  predicate IsLink(web: Web, req: Request, order: seq<Item>, x: Spot) {
    && x.page < |order| && order[x.page].depth < Depth(req)
    && x.link < |Links(web, order[x.page].pageURL)| && Eligible(web, req, Links(web, order[x.page].pageURL)[x.link])
  }

  function LinkAt(web: Web, req: Request, order: seq<Item>, x: Spot): Url
    requires IsLink(web, req, order, x)
  {
    Links(web, order[x.page].pageURL)[x.link]
  }

  /** With these pages taken up a cap turns `v` away. */
  ghost predicate Capped(web: Web, req: Request, taken: seq<Item>, v: Url) {
    |taken| >= Pages(req) || (Cross(web, req, v) && |CrossPages(web, req, Urls(taken))| >= 5)
  }

  /** The page is there, taken up at this spot or before. */
  ghost predicate Taken(order: seq<Item>, at: seq<Spot>, v: Url, x: Spot)
    requires |at| == |order|
  {
    exists i :: 0 <= i < |order| && order[i].pageURL == v && (i == 0 || at[i] == x || Earlier(at[i], x))
  }

  /** A cap turned the link away, given the `c` pages that had been taken up before it. */
  ghost predicate TurnedAway(web: Web, req: Request, order: seq<Item>, at: seq<Spot>, x: Spot, c: nat)
    requires |at| == |order| && IsLink(web, req, order, x)
  {
    && c <= |order| && (forall j :: 0 < j < |order| ==> (j < c <==> Earlier(at[j], x)))
    && Capped(web, req, order[..c], LinkAt(web, req, order, x))
  }

  /** `at` says where each page but the root was taken up: at a link to it, one after the other, all before `f`. */
  ghost predicate Spotted(web: Web, req: Request, order: seq<Item>, at: seq<Spot>, f: Spot) {
    && |at| == |order| && order != []
    && (forall i :: 0 < i < |order| ==>
          at[i].page < i && IsLink(web, req, order, at[i]) && LinkAt(web, req, order, at[i]) == order[i].pageURL)
    && (forall i :: 0 < i < |order| ==> Earlier(at[i], f))
    && (forall i, j :: 0 < i < j < |order| ==> Earlier(at[i], at[j]))
  }

  /** Every link before `f` was taken up by then, or turned away by a cap that was reached by then. */
  ghost predicate Served(web: Web, req: Request, order: seq<Item>, at: seq<Spot>, f: Spot) {
    && Spotted(web, req, order, at, f)
    && forall x: Spot :: IsLink(web, req, order, x) && Earlier(x, f) ==>
         Taken(order, at, LinkAt(web, req, order, x), x) || exists c: nat :: TurnedAway(web, req, order, at, x, c)
  }

  /** The link at `f` leads to a page that is there already, or is none to follow. */
  lemma {:induction false} ServedKnown(web: Web, req: Request, order: seq<Item>, at: seq<Spot>, f: Spot)
    requires Served(web, req, order, at, f)
    requires IsLink(web, req, order, f) ==> LinkAt(web, req, order, f) in Urls(order)
    ensures Served(web, req, order, at, Spot(f.page, f.link + 1))
  {
    hide TurnedAway, IsLink;
    if IsLink(web, req, order, f) {
      var i :| 0 <= i < |order| && order[i].pageURL == LinkAt(web, req, order, f);
      assert Taken(order, at, LinkAt(web, req, order, f), f);
    }
    forall x: Spot | IsLink(web, req, order, x) && Earlier(x, Spot(f.page, f.link + 1))
      ensures Taken(order, at, LinkAt(web, req, order, x), x) || exists c: nat :: TurnedAway(web, req, order, at, x, c)
    {
      assert Earlier(x, f) || x == f;
    }
  }

  /** From `f` on a cap turns every link up to `g` away. */
  lemma {:induction false} ServedCapped(web: Web, req: Request, order: seq<Item>, at: seq<Spot>, f: Spot, g: Spot)
    requires Served(web, req, order, at, f) && (f == g || Earlier(f, g))
    requires forall x: Spot :: IsLink(web, req, order, x) && !Earlier(x, f) && Earlier(x, g) ==>
      Capped(web, req, order, LinkAt(web, req, order, x))
    ensures Served(web, req, order, at, g)
  {
    hide Capped, Taken, IsLink;
    assert order[..|order|] == order;
    forall x: Spot | IsLink(web, req, order, x) && Earlier(x, g)
      ensures Taken(order, at, LinkAt(web, req, order, x), x) || exists c: nat :: TurnedAway(web, req, order, at, x, c)
    {
      if !Earlier(x, f) { assert TurnedAway(web, req, order, at, x, |order|); }
    }
  }

  lemma {:induction false} LinksStay(web: Web, req: Request, order: seq<Item>, next: Item, x: Spot)
    requires x.page < |order|
    ensures IsLink(web, req, order + [next], x) <==> IsLink(web, req, order, x)
    ensures IsLink(web, req, order, x) ==> LinkAt(web, req, order + [next], x) == LinkAt(web, req, order, x)
  {
  }

  lemma {:induction false} SpottedNew(web: Web, req: Request, order: seq<Item>, at: seq<Spot>, f: Spot, next: Item)
    requires Spotted(web, req, order, at, f) && IsLink(web, req, order, f) && next.pageURL == LinkAt(web, req, order, f)
    ensures Spotted(web, req, order + [next], at + [f], Spot(f.page, f.link + 1))
  {
    hide IsLink, LinkAt;
    assert f.page < |order| by { LinkIn(web, req, order, f); }
    var (o, a) := (order + [next], at + [f]);
    forall i | 0 < i < |o|
      ensures a[i].page < i && IsLink(web, req, o, a[i]) && LinkAt(web, req, o, a[i]) == o[i].pageURL
    {
      LinksStay(web, req, order, next, a[i]);
    }
  }

  lemma {:induction false} LinkIn(web: Web, req: Request, order: seq<Item>, x: Spot)
    requires IsLink(web, req, order, x)
    ensures x.page < |order|
  {
  }

  lemma {:induction false} StillTurnedAway(web: Web, req: Request, order: seq<Item>, at: seq<Spot>, f: Spot, next: Item,
          x: Spot, c: nat)
    requires |at| == |order| && IsLink(web, req, order, x) && Earlier(x, f) && TurnedAway(web, req, order, at, x, c)
    ensures IsLink(web, req, order + [next], x) && TurnedAway(web, req, order + [next], at + [f], x, c)
  {
    hide IsLink, LinkAt, Capped;
    LinkIn(web, req, order, x);
    LinksStay(web, req, order, next, x);
    assert (order + [next])[..c] == order[..c];
  }

  /** The page at `f` is taken up. */
  lemma {:induction false} ServedNew(web: Web, req: Request, order: seq<Item>, at: seq<Spot>, f: Spot, next: Item)
    requires Served(web, req, order, at, f) && IsLink(web, req, order, f) && next.pageURL == LinkAt(web, req, order, f)
    ensures Served(web, req, order + [next], at + [f], Spot(f.page, f.link + 1))
  {
    hide IsLink, LinkAt, TurnedAway, Spotted;
    var (o, a) := (order + [next], at + [f]);
    SpottedNew(web, req, order, at, f, next);
    LinkIn(web, req, order, f);
    SameLength(web, req, order, at, f);
    forall x: Spot | IsLink(web, req, o, x) && Earlier(x, Spot(f.page, f.link + 1))
      ensures |a| == |o|
      ensures Taken(o, a, LinkAt(web, req, o, x), x) || exists c: nat :: TurnedAway(web, req, o, a, x, c)
    {
      LinksStay(web, req, order, next, x);
      if x == f {
        assert o[|order|].pageURL == LinkAt(web, req, o, x) && a[|order|] == x;
      } else if Taken(order, at, LinkAt(web, req, order, x), x) {
        var i :| 0 <= i < |order| && order[i].pageURL == LinkAt(web, req, order, x)
                 && (i == 0 || at[i] == x || Earlier(at[i], x));
        assert o[i] == order[i] && a[i] == at[i];
      } else {
        var c: nat :| TurnedAway(web, req, order, at, x, c);
        StillTurnedAway(web, req, order, at, f, next, x, c);
      }
    }
  }

  lemma {:induction false} SameLength(web: Web, req: Request, order: seq<Item>, at: seq<Spot>, f: Spot)
    requires Spotted(web, req, order, at, f)
    ensures |at| == |order|
  {
  }

  /** A page without further links to follow is done. */
  lemma {:induction false} ServedPage(web: Web, req: Request, order: seq<Item>, at: seq<Spot>, f: Spot)
    requires Served(web, req, order, at, f)
    requires forall x: Spot :: IsLink(web, req, order, x) && x.page == f.page ==> x.link < f.link
    ensures Served(web, req, order, at, Spot(f.page + 1, 0))
  {
    hide IsLink, Capped, Taken, TurnedAway;
    ServedCapped(web, req, order, at, f, Spot(f.page + 1, 0));
  }

  /** Until the page cap is reached, the counter counts the pages of other hosts. */
  ghost predicate Tallied(web: Web, req: Request, visited: set<Url>, cross: nat) {
    |visited| < Pages(req) ==> cross == |CrossPages(web, req, visited)|
  }

  lemma {:induction false} VisitedAre(web: Web, req: Request, order: seq<Item>, done: nat, visited: set<Url>,
          cross: nat)
    requires Sound(web, req, order, done, visited, cross)
    ensures Urls(order) == visited && |order| == |visited| <= Pages(req)
  {
    CardOfUrls(order);
  }

  /** A link that the caps turn away, and, if it is the page cap, all links after it. */
  lemma {:induction false} AwayServed(web: Web, req: Request, order: seq<Item>, at: seq<Spot>, done: nat,
          visited: set<Url>, cross: nat, n: nat)
    requires Sound(web, req, order, done, visited, cross) && 0 < done <= |order| && Tallied(web, req, visited, cross)
    requires Served(web, req, order, at, Spot(done - 1, n)) && n < |Links(web, order[done - 1].pageURL)|
    ensures var l := Links(web, order[done - 1].pageURL)[n];
      Cross(web, req, l) && cross >= MAX_CROSS ==> Served(web, req, order, at, Spot(done - 1, n + 1))
    ensures |visited| >= Pages(req) ==>
      Served(web, req, order, at, Spot(done - 1, |Links(web, order[done - 1].pageURL)|))
  {
    hide Sound, Served;
    VisitedAre(web, req, order, done, visited, cross);
    var f := Spot(done - 1, n);
    var l := Links(web, order[done - 1].pageURL)[n];
    if Cross(web, req, l) && cross >= MAX_CROSS { ServedCapped(web, req, order, at, f, Spot(done - 1, n + 1)); }
    if |visited| >= Pages(req) {
      ServedCapped(web, req, order, at, f, Spot(done - 1, |Links(web, order[done - 1].pageURL)|));
    }
  }

  /** The inner loop: queue the unseen links of the page that was just processed. */
  method EnqueueLinks(web: Web, req: Request, item: Item, queue: seq<Item>, visited: set<Url>, cross: nat,
                      ghost processed: seq<Item>, ghost budget: nat, ghost cut: bool, ghost at: seq<Spot>)
    returns (queue': seq<Item>, visited': set<Url>, cross': nat, ghost cut': bool, ghost at': seq<Spot>)
    requires processed != [] && processed[|processed| - 1] == item
    requires Taking(web, req, processed + queue, |processed|, visited, cross, budget, cut, 0)
    requires Tallied(web, req, visited, cross) && Served(web, req, processed + queue, at, Spot(|processed| - 1, 0))
    ensures queue <= queue' && (cut ==> cut')
    ensures Taking(web, req, processed + queue', |processed|, visited', cross', budget, cut',
               |Links(web, item.pageURL)|)
    ensures Tallied(web, req, visited', cross')
    ensures Served(web, req, processed + queue', at', Spot(|processed| - 1, |Links(web, item.pageURL)|))
  {
    hide Sound, Unhindered, LinksFound, Roomy, AtLimit, Served, CrossPages, Taking, Links;
    queue', visited', cross', cut', at' := queue, visited, cross, cut, at;
    ghost var done := |processed|;
    ghost var order := processed + queue;
    var links := Links(web, item.pageURL);
    for i := 0 to |links|
      invariant queue <= queue' && order == processed + queue' && (cut ==> cut')
      invariant Taking(web, req, order, done, visited', cross', budget, cut', i)
      invariant Tallied(web, req, visited', cross')
      invariant Served(web, req, order, at', Spot(done - 1, i))
    {
      assert order[done - 1] == item;
      TakingIs(web, req, order, done, visited', cross', budget, cut', i);
      var l := links[i];
      if l == "" {
        TakeKnown(web, req, order, done, visited', cross', budget, cut', i);
        KnownServed(web, req, order, at', done, visited', i);
        continue;
      }
      if l in visited' {
        TakeKnown(web, req, order, done, visited', cross', budget, cut', i);
        KnownServed(web, req, order, at', done, visited', i);
        continue;
      }
      var isCrossOrigin := Cross(web, req, l);
      if req.sameOriginOnly && isCrossOrigin {
        TakeKnown(web, req, order, done, visited', cross', budget, cut', i);
        KnownServed(web, req, order, at', done, visited', i);
        continue;
      }
      ghost var crossBefore := cross';
      AwayServed(web, req, order, at', done, visited', cross', i);
      if isCrossOrigin {
        if cross' >= MAX_CROSS {
          TakeTurnedAway(web, req, order, done, visited', cross', budget, cut', i);
          cut' := true;
          continue;
        }
        cross' := cross' + 1;
      }
      if |visited'| >= Pages(req) {
        TakeTurnedAway(web, req, order, done, visited', crossBefore, budget, cut', i);
        CutAnyway(web, req, order, done, visited', cross', budget, i + 1, |links|);
        cut' := true;
        return;
      }
      TakeNew(web, req, order, done, visited', crossBefore, budget, cut', i);
      NewServed(web, req, order, at', done, i);
      CrossGrows(web, req, visited', l);
      visited' := visited' + {l};
      queue' := queue' + [Item(l, item.depth + 1)];
      order := order + [Item(l, item.depth + 1)];
      at' := at' + [Spot(done - 1, i)];
    }
  }

  lemma {:induction false} TakingIs(web: Web, req: Request, order: seq<Item>, done: nat, visited: set<Url>, cross: nat,
          budget: nat, cut: bool, n: nat)
    requires Taking(web, req, order, done, visited, cross, budget, cut, n)
    ensures 0 < done <= |order| && Sound(web, req, order, done, visited, cross) && Urls(order) == visited
    ensures order[done - 1].depth < Depth(req)
  {
  }

  lemma {:induction false} KnownServed(web: Web, req: Request, order: seq<Item>, at: seq<Spot>, done: nat,
          visited: set<Url>, n: nat)
    requires 0 < done <= |order| && Urls(order) == visited && Served(web, req, order, at, Spot(done - 1, n))
    requires n < |Links(web, order[done - 1].pageURL)|
    requires var l := Links(web, order[done - 1].pageURL)[n]; l in visited || !Eligible(web, req, l)
    ensures Served(web, req, order, at, Spot(done - 1, n + 1))
  {
    hide Served;
    ServedKnown(web, req, order, at, Spot(done - 1, n));
  }

  lemma {:induction false} NewServed(web: Web, req: Request, order: seq<Item>, at: seq<Spot>, done: nat, n: nat)
    requires 0 < done <= |order| && order[done - 1].depth < Depth(req) && Served(web, req, order, at, Spot(done - 1, n))
    requires n < |Links(web, order[done - 1].pageURL)| && Eligible(web, req, Links(web, order[done - 1].pageURL)[n])
    ensures var next := Item(Links(web, order[done - 1].pageURL)[n], order[done - 1].depth + 1);
      Served(web, req, order + [next], at + [Spot(done - 1, n)], Spot(done - 1, n + 1))
  {
    hide Served;
    ServedNew(web, req, order, at, Spot(done - 1, n),
              Item(Links(web, order[done - 1].pageURL)[n], order[done - 1].depth + 1));
  }

  /** When everything discovered has been processed, every page in reach was discovered in time. */
  lemma {:induction false} Reaches(web: Web, req: Request, order: seq<Item>, v: Url, d: nat)
    requires 0 < |order| && order[0] == Item(req.url, 0) && Full(web, req, order, |order|)
    requires d <= Depth(req) && v in Within(web, req, d)
    ensures Found(order, v, d)
    decreases d
  {
    if d == 0 {
    } else if v in Within(web, req, d - 1) {
      Reaches(web, req, order, v, d - 1);
    } else {
      var t := CameFrom(web, req, v, d);
      Reaches(web, req, order, t, d - 1);
      var i :| 0 <= i < |order| && order[i].pageURL == t && order[i].depth <= d - 1;
      var j :| 0 <= j < |Links(web, t)| && Links(web, t)[j] == v;
      assert Found(order, v, order[i].depth + 1);
    }
  }

  lemma {:induction false} AllInReach(web: Web, req: Request, order: seq<Item>, visited: set<Url>, cross: nat)
    requires Sound(web, req, order, |order|, visited, cross) && Full(web, req, order, |order|)
    requires Unhindered(web, req, visited, cross)
    ensures Urls(order) == Within(web, req, Depth(req))
    ensures forall i :: 0 <= i < |order| ==> ShortestDistance(web, req, order[i].pageURL, order[i].depth)
  {
    var D := Depth(req);
    forall v | v in Within(web, req, D) ensures v in Urls(order) { Reaches(web, req, order, v, D); }
    forall i, e: nat | 0 <= i < |order| && AtDistance(web, req, order[i].pageURL, e) ensures order[i].depth <= e {
      if e < D {
        WithinIsReachable(web, req, order[i].pageURL, e);
        Reaches(web, req, order, order[i].pageURL, e);
      }
    }
  }

  datatype Response = Response(rootScanned: bool, linkedPages: seq<Url>)

  /** What the caller is sent: whether the root was scanned, and the linked pages in processing order. */
  ghost predicate Reports(resp: Response, processed: seq<Item>) {
    && (resp.rootScanned <==> processed != [])
    && |resp.linkedPages| == (if processed == [] then 0 else |processed| - 1)
    && forall i :: 0 < i < |processed| ==> resp.linkedPages[i - 1] == processed[i].pageURL
  }

  /** The state of the outer loop. */
  ghost predicate Crawling(web: Web, req: Request, order: seq<Item>, done: nat, visited: set<Url>, cross: nat,
          budget: nat, cut: bool)
  {
    && Sound(web, req, order, done, visited, cross)
    && (if cut then !Roomy(web, req, budget) && AtLimit(web, req, visited)
        else Unhindered(web, req, visited, cross) && Full(web, req, order, done))
  }

  lemma {:induction false} NextPage(web: Web, req: Request, order: seq<Item>, done: nat, visited: set<Url>,
          cross: nat, budget: nat, cut: bool)
    requires Crawling(web, req, order, done, visited, cross, budget, cut) && done < |order|
    ensures order[done].pageURL == req.url <==> done == 0
    ensures done < Pages(req)
    ensures order[done].depth < Depth(req) && order[done].pageURL in web.renders ==>
      Taking(web, req, order, done + 1, visited, cross, budget, cut, 0)
    ensures order[done].depth >= Depth(req) || order[done].pageURL !in web.renders ==>
      Crawling(web, req, order, done + 1, visited, cross, budget, cut)
  {
    hide Roomy, AtLimit, LinksFound, Full, Unhindered;
    FirstIsRoot(web, req, order, done, visited, cross);
    SoundNext(web, req, order, done, visited, cross);
    NoLinksYet(web, req, order, order[done]);
    if !cut && (order[done].depth >= Depth(req) || order[done].pageURL !in web.renders) {
      FullOneMore(web, req, order, done);
    }
  }

  lemma {:induction false} FirstIsRoot(web: Web, req: Request, order: seq<Item>, done: nat, visited: set<Url>,
          cross: nat)
    requires Sound(web, req, order, done, visited, cross) && done < |order|
    ensures order[done].pageURL == req.url <==> done == 0
    ensures done < Pages(req)
  {
    hide Levelled, Within;
    CardOfUrls(order);
    if done > 0 { assert order[0].pageURL != order[done].pageURL; }
  }

  lemma {:induction false} SoundNext(web: Web, req: Request, order: seq<Item>, done: nat, visited: set<Url>, cross: nat)
    requires Sound(web, req, order, done, visited, cross) && done < |order|
    ensures Sound(web, req, order, done + 1, visited, cross)
  {
  }

  lemma {:induction false} NoLinksYet(web: Web, req: Request, order: seq<Item>, item: Item)
    ensures LinksFound(web, req, order, item, 0)
  {
  }

  lemma {:induction false} FullOneMore(web: Web, req: Request, order: seq<Item>, done: nat)
    requires Full(web, req, order, done) && done < |order|
    requires order[done].depth >= Depth(req) || order[done].pageURL !in web.renders
    ensures Full(web, req, order, done + 1)
  {
  }

  lemma {:induction false} PageDone(web: Web, req: Request, order: seq<Item>, more: seq<Item>, done: nat,
          visited: set<Url>, cross: nat,
                                    cut: bool, visited': set<Url>, cross': nat, budget: nat, cut': bool)
    requires Crawling(web, req, order, done, visited, cross, budget, cut) && done < |order| && (cut ==> cut')
    requires Taking(web, req, order + more, done + 1, visited', cross', budget, cut', |Links(web, order[done].pageURL)|)
    ensures Crawling(web, req, order + more, done + 1, visited', cross', budget, cut')
  {
    hide Roomy, AtLimit;
    if !cut' {
      FullKept(web, req, order, more, done);
      assert (order + more)[done] == order[done];
    }
  }

  /** The crawl was cut short by nothing: fewer pages than allowed, less than the budget, no cap on other origins. */
  predicate Unlimited(web: Web, req: Request, processed: seq<Item>, budget: nat) {
    |processed| < budget && |processed| < Pages(req) && |CrossPages(web, req, Urls(processed))| < MAX_CROSS
  }

  ghost predicate HostIs(web: Web, req: Request, u: Url) { web.hostOf(u) == web.hostOf(req.url) }

  /**
   * The result in numbers. At most `pages`, so at most 15, pages, none deeper than `depth`, so than 2; at most
   * five of other hosts, and none if the request asks for the same origin only. If everything in reach fits
   * into these limits, or the result stays below all of them, it is everything in reach.
   */
  ghost predicate InLimits(web: Web, req: Request, processed: seq<Item>, budget: nat, depth: nat, pages: nat) {
    var ball := Within(web, req, depth);
    && |processed| <= pages <= 15 && (forall i :: 0 <= i < |processed| ==> processed[i].depth <= depth <= 2)
    && |set u | u in Urls(processed) && !HostIs(web, req, u)| <= 5
    && (req.sameOriginOnly ==> forall i :: 0 <= i < |processed| ==> HostIs(web, req, processed[i].pageURL))
    && (|ball| <= pages && |ball| <= budget && |set u | u in ball && !HostIs(web, req, u)| <= 5 ==>
          Urls(processed) == ball)
    && (|processed| < pages && |processed| < budget && |set u | u in Urls(processed) && !HostIs(web, req, u)| < 5 ==>
          Urls(processed) == ball)
  }

  lemma {:induction false} SameOriginPath(web: Web, req: Request, p: seq<Url>)
    requires IsPath(web, req, p) && req.sameOriginOnly
    ensures HostIs(web, req, p[|p| - 1])
  {
    if |p| > 1 { assert Linked(web, req, p[|p| - 2], p[|p| - 1]); }
  }

  lemma {:induction false} InNumbers(web: Web, req: Request, processed: seq<Item>, budget: nat)
    requires forall i :: 0 <= i < |processed| ==>
      processed[i].depth <= Depth(req) && AtDistance(web, req, processed[i].pageURL, processed[i].depth)
    requires |processed| <= Pages(req) && |CrossPages(web, req, Urls(processed))| <= MAX_CROSS
    requires Roomy(web, req, budget) || Unlimited(web, req, processed, budget) ==>
      Urls(processed) == Within(web, req, Depth(req))
    ensures InLimits(web, req, processed, budget, Depth(req), Pages(req))
  {
    hide Within, IsPath;
    var ball := Within(web, req, Depth(req));
    assert CrossPages(web, req, Urls(processed)) == set u | u in Urls(processed) && !HostIs(web, req, u);
    assert CrossPages(web, req, ball) == set u | u in ball && !HostIs(web, req, u);
    if req.sameOriginOnly {
      forall i | 0 <= i < |processed| ensures HostIs(web, req, processed[i].pageURL) {
        var p :| IsPath(web, req, p) && |p| == processed[i].depth + 1 && p[processed[i].depth] == processed[i].pageURL;
        SameOriginPath(web, req, p);
      }
    }
  }

  /**
   * First come, first served. Each page but the root is taken up at a link of an earlier page, page after page
   * and link after link; every link before that one leads to a page taken up earlier, or to another host when
   * five pages of other hosts had been taken up.
   */
  ghost predicate FirstCome(web: Web, req: Request, processed: seq<Item>, at: seq<Spot>) {
    && |at| == |processed|
    && (forall i :: 0 < i < |processed| ==>
          && at[i].page < i && IsLink(web, req, processed, at[i])
          && LinkAt(web, req, processed, at[i]) == processed[i].pageURL)
    && (forall i, j :: 0 < i < j < |processed| ==> Earlier(at[i], at[j]))
    && (forall i, x: Spot :: 0 < i < |processed| && IsLink(web, req, processed, x) && Earlier(x, at[i]) ==>
          LinkAt(web, req, processed, x) in Urls(processed[..i])
          || (!HostIs(web, req, LinkAt(web, req, processed, x)) && |CrossPages(web, req, Urls(processed[..i]))| >= 5))
  }

  ghost predicate InTurn(web: Web, req: Request, processed: seq<Item>) {
    exists at: seq<Spot> :: FirstCome(web, req, processed, at)
  }

  /** Every link of the pages leads to one of them or is turned away by a cap that they reach. */
  ghost predicate NothingLeft(web: Web, req: Request, processed: seq<Item>) {
    forall x: Spot :: IsLink(web, req, processed, x) ==>
      LinkAt(web, req, processed, x) in Urls(processed) || Capped(web, req, processed, LinkAt(web, req, processed, x))
  }

  lemma {:induction false} LinksOfPart(web: Web, req: Request, order: seq<Item>, n: nat, x: Spot)
    requires n <= |order|
    ensures IsLink(web, req, order[..n], x) <==> x.page < n && IsLink(web, req, order, x)
    ensures IsLink(web, req, order[..n], x) ==> LinkAt(web, req, order[..n], x) == LinkAt(web, req, order, x)
  {
  }

  /** A link looked at before the `i`-th page was taken up. */
  lemma {:induction false} BeforeItem(web: Web, req: Request, order: seq<Item>, at: seq<Spot>, f: Spot, i: nat, x: Spot)
    requires Served(web, req, order, at, f) && |order| <= Pages(req) && 0 < i < |order|
    requires IsLink(web, req, order, x) && Earlier(x, at[i])
    ensures LinkAt(web, req, order, x) in Urls(order[..i])
      || (!HostIs(web, req, LinkAt(web, req, order, x)) && |CrossPages(web, req, Urls(order[..i]))| >= 5)
  {
    hide IsLink, LinkAt, Cross, Taken, TurnedAway, CrossPages, HostIs, Urls;
    if Taken(order, at, LinkAt(web, req, order, x), x) {
      TakenBefore(web, req, order, at, f, i, x, LinkAt(web, req, order, x));
    } else {
      var c: nat :| TurnedAway(web, req, order, at, x, c);
      AwayBefore(web, req, order, at, f, i, x, c);
    }
  }

  lemma {:induction false} TakenBefore(web: Web, req: Request, order: seq<Item>, at: seq<Spot>, f: Spot, i: nat,
          x: Spot, v: Url)
    requires Spotted(web, req, order, at, f) && 0 < i < |order| && Earlier(x, at[i]) && Taken(order, at, v, x)
    ensures v in Urls(order[..i])
  {
    hide IsLink, LinkAt;
    var k :| 0 <= k < |order| && order[k].pageURL == v && (k == 0 || at[k] == x || Earlier(at[k], x));
    assert k < i;
    assert order[..i][k] == order[k];
  }

  lemma {:induction false} AwayBefore(web: Web, req: Request, order: seq<Item>, at: seq<Spot>, f: Spot, i: nat,
          x: Spot, c: nat)
    requires Spotted(web, req, order, at, f) && |order| <= Pages(req) && 0 < i < |order|
    requires IsLink(web, req, order, x) && Earlier(x, at[i]) && TurnedAway(web, req, order, at, x, c)
    ensures !HostIs(web, req, LinkAt(web, req, order, x)) && |CrossPages(web, req, Urls(order[..i]))| >= 5
  {
    hide IsLink, LinkAt, Urls, CrossPages, Pages;
    assert c <= i;
    CrossOfPart(web, req, order, c, i);
    HostOf(web, req, LinkAt(web, req, order, x));
  }

  lemma {:induction false} HostOf(web: Web, req: Request, v: Url)
    ensures Cross(web, req, v) <==> !HostIs(web, req, v)
  {
  }

  lemma {:induction false} CrossOfPart(web: Web, req: Request, order: seq<Item>, c: nat, i: nat)
    requires c <= i <= |order|
    ensures |CrossPages(web, req, Urls(order[..c]))| <= |CrossPages(web, req, Urls(order[..i]))|
  {
    forall k | 0 <= k < c ensures order[..c][k] in order[..i] { assert order[..c][k] == order[..i][k]; }
    CardOfSubset(CrossPages(web, req, Urls(order[..c])), CrossPages(web, req, Urls(order[..i])));
  }

  lemma {:induction false} FinishServed(web: Web, req: Request, order: seq<Item>, at: seq<Spot>, n: nat)
    requires n <= |order| <= Pages(req) && Served(web, req, order, at, Spot(n, 0))
    ensures |at| == |order| && FirstCome(web, req, order[..n], at[..n])
    ensures n == |order| ==> NothingLeft(web, req, order)
  {
    hide IsLink, LinkAt, Capped, Taken, HostIs, CrossPages;
    var (processed, a) := (order[..n], at[..n]);
    forall x: Spot ensures IsLink(web, req, processed, x) <==> x.page < n && IsLink(web, req, order, x)
      ensures IsLink(web, req, processed, x) ==> LinkAt(web, req, processed, x) == LinkAt(web, req, order, x)
    {
      LinksOfPart(web, req, order, n, x);
    }
    forall i, x: Spot | 0 < i < n && IsLink(web, req, processed, x) && Earlier(x, a[i])
      ensures LinkAt(web, req, processed, x) in Urls(processed[..i])
        || (!HostIs(web, req, LinkAt(web, req, processed, x)) && |CrossPages(web, req, Urls(processed[..i]))| >= 5)
    {
      BeforeItem(web, req, order, at, Spot(n, 0), i, x);
      assert processed[..i] == order[..i];
    }
    if n == |order| {
      forall x: Spot | IsLink(web, req, order, x)
        ensures LinkAt(web, req, order, x) in Urls(order) || Capped(web, req, order, LinkAt(web, req, order, x))
      {
        LinkIn(web, req, order, x);
        LastServed(web, req, order, at, x);
      }
    }
  }

  lemma {:induction false} LastServed(web: Web, req: Request, order: seq<Item>, at: seq<Spot>, x: Spot)
    requires Served(web, req, order, at, Spot(|order|, 0)) && IsLink(web, req, order, x)
    ensures LinkAt(web, req, order, x) in Urls(order) || Capped(web, req, order, LinkAt(web, req, order, x))
  {
    hide IsLink, LinkAt;
    LinkIn(web, req, order, x);
    if !Taken(order, at, LinkAt(web, req, order, x), x) {
      var c: nat :| TurnedAway(web, req, order, at, x, c);
      CrossOfPart(web, req, order, c, |order|);
      assert order[..|order|] == order;
    }
  }

  /** `processed` lists the pages in the order the verdict pipeline runs on them. */
  method Scan(web: Web, req: Request, budget: nat) returns (resp: Response, processed: seq<Item>)
    ensures DistinctUrls(processed) && NondecreasingDepth(processed)
    ensures forall i :: 0 <= i < |processed| ==>
      processed[i].depth <= Depth(req) && AtDistance(web, req, processed[i].pageURL, processed[i].depth)
    ensures |processed| <= Pages(req) && |processed| <= budget
    ensures |CrossPages(web, req, Urls(processed))| <= MAX_CROSS
    ensures budget > 0 ==> processed != [] && processed[0] == Item(req.url, 0)
    ensures Reports(resp, processed)
    ensures Roomy(web, req, budget) || Unlimited(web, req, processed, budget) ==>
      Urls(processed) == Within(web, req, Depth(req))
      && forall i :: 0 <= i < |processed| ==> ShortestDistance(web, req, processed[i].pageURL, processed[i].depth)
    ensures forall depth: nat, pages: nat :: Limits(req, depth, pages) ==>
      InLimits(web, req, processed, budget, depth, pages)
    ensures InTurn(web, req, processed) && (|processed| < budget ==> NothingLeft(web, req, processed))
  {
    hide Sound, Unhindered, LinksFound, Roomy, Full, Taking, Crawling, Levelled, Served, InTurn, NothingLeft,
      DistinctUrls, NondecreasingDepth, Unlimited, AtLimit, InLimits, ShortestDistance, Tallied, IsLink, Limits,
      Within, CrossPages, Urls, AtDistance, Reports;
    var visited := {req.url};
    var queue := [Item(req.url, 0)];
    var cross := 0;
    resp, processed := Response(false, []), [];
    Start(web, req, budget);
    ghost var (order, cut) := (queue, false);
    ghost var at := [Spot(0, 0)];
    ServedAtFirst(web, req, at);
    ReportsNothing();
    while |queue| > 0 && |visited| <= Pages(req) && |processed| < budget
      invariant order == processed + queue && order != [] && order[0] == Item(req.url, 0)
      invariant Crawling(web, req, order, |processed|, visited, cross, budget, cut)
      invariant Tallied(web, req, visited, cross) && Served(web, req, order, at, Spot(|processed|, 0))
      invariant |processed| <= budget
      invariant Reports(resp, processed)
      decreases Pages(req) - |processed|
    {
      NextPage(web, req, order, |processed|, visited, cross, budget, cut);
      MovesOver(processed, queue);
      var item := queue[0];
      queue := queue[1..];
      ReportsMore(resp, processed, item);
      if item.pageURL == req.url {
        resp := resp.(rootScanned := true);
      } else {
        resp := resp.(linkedPages := resp.linkedPages + [item.pageURL]);
      }
      processed := processed + [item];
      if item.pageURL in web.renders && item.depth < Depth(req) {
        ghost var (queue0, visited0, cross0, cut0) := (queue, visited, cross, cut);
        queue, visited, cross, cut, at :=
          EnqueueLinks(web, req, item, queue, visited, cross, processed, budget, cut, at);
        Appended(processed, queue0, queue);
        PageDone(web, req, order, queue[|queue0|..], |processed| - 1, visited0, cross0, cut0,
          visited, cross, budget, cut);
        order := order + queue[|queue0|..];
        ServedToEnd(web, req, order, at, |processed| - 1, |Links(web, item.pageURL)|);
      } else {
        ServedToEnd(web, req, order, at, |processed| - 1, 0);
      }
    }
    EndOfLoop(web, req, order, |processed|, visited, cross, budget, cut);
    Ended(web, req, processed, queue, visited, cross, budget, cut, at);
  }

  lemma {:induction false} Ended(web: Web, req: Request, processed: seq<Item>, queue: seq<Item>, visited: set<Url>,
          cross: nat, budget: nat, cut: bool, at: seq<Spot>)
    requires Crawling(web, req, processed + queue, |processed|, visited, cross, budget, cut)
    requires Served(web, req, processed + queue, at, Spot(|processed|, 0))
    requires |processed| <= budget && (|queue| == 0 || |visited| > Pages(req) || |processed| >= budget)
    ensures DistinctUrls(processed) && NondecreasingDepth(processed)
    ensures forall i :: 0 <= i < |processed| ==>
      processed[i].depth <= Depth(req) && AtDistance(web, req, processed[i].pageURL, processed[i].depth)
    ensures |processed| <= Pages(req) && |CrossPages(web, req, Urls(processed))| <= MAX_CROSS
    ensures Roomy(web, req, budget) || Unlimited(web, req, processed, budget) ==>
      Urls(processed) == Within(web, req, Depth(req))
      && forall i :: 0 <= i < |processed| ==> ShortestDistance(web, req, processed[i].pageURL, processed[i].depth)
    ensures forall depth: nat, pages: nat :: Limits(req, depth, pages) ==>
      InLimits(web, req, processed, budget, depth, pages)
    ensures InTurn(web, req, processed) && (|processed| < budget ==> NothingLeft(web, req, processed))
  {
    hide Crawling, Served, FirstCome, NothingLeft, DistinctUrls, NondecreasingDepth, Unlimited, Roomy, InLimits,
      ShortestDistance, Limits, Within, CrossPages, Urls, AtDistance;
    EndOfLoop(web, req, processed + queue, |processed|, visited, cross, budget, cut);
    Finish(web, req, processed, queue, visited, cross, budget, cut);
    LimitsAre(req);
    InNumbers(web, req, processed, budget);
    AllInTurn(web, req, processed, queue, at);
  }

  lemma {:induction false} AllInTurn(web: Web, req: Request, processed: seq<Item>, queue: seq<Item>, at: seq<Spot>)
    requires Served(web, req, processed + queue, at, Spot(|processed|, 0)) && |processed + queue| <= Pages(req)
    ensures InTurn(web, req, processed) && (|queue| == 0 ==> NothingLeft(web, req, processed))
  {
    hide Served, NothingLeft, FirstCome;
    Processed(processed, queue);
    FinishServed(web, req, processed + queue, at, |processed|);
    assert FirstCome(web, req, processed, at[..|processed|]);
    if |queue| == 0 { assert processed + queue == processed; }
  }

  lemma {:induction false} Appended(processed: seq<Item>, queue0: seq<Item>, queue: seq<Item>)
    requires queue0 <= queue
    ensures processed + queue == processed + queue0 + queue[|queue0|..]
  {
    assert queue == queue0 + queue[|queue0|..];
  }

  lemma {:induction false} ReportsNothing()
    ensures Reports(Response(false, []), [])
  {
  }

  lemma {:induction false} ReportsMore(resp: Response, processed: seq<Item>, item: Item)
    requires Reports(resp, processed)
    ensures processed == [] ==> Reports(resp.(rootScanned := true), processed + [item])
    ensures processed != [] ==>
      Reports(resp.(linkedPages := resp.linkedPages + [item.pageURL]), processed + [item])
  {
  }

  lemma {:induction false} MovesOver(processed: seq<Item>, queue: seq<Item>)
    requires queue != []
    ensures processed + [queue[0]] + queue[1..] == processed + queue
  {
  }

  lemma {:induction false} Processed(processed: seq<Item>, queue: seq<Item>)
    ensures (processed + queue)[..|processed|] == processed && (queue == [] ==> processed + queue == processed)
  {
  }

  lemma {:induction false} ServedAtFirst(web: Web, req: Request, at: seq<Spot>)
    requires |at| == 1
    ensures Served(web, req, [Item(req.url, 0)], at, Spot(0, 0)) && Tallied(web, req, {req.url}, 0)
  {
    assert CrossPages(web, req, {req.url}) == {};
  }

  /** A page whose links have all been looked at, or that is not expanded, is done. */
  lemma {:induction false} ServedToEnd(web: Web, req: Request, order: seq<Item>, at: seq<Spot>, page: nat, n: nat)
    requires page < |order| && Served(web, req, order, at, Spot(page, n))
    requires order[page].depth >= Depth(req) || order[page].pageURL !in web.renders
             || n == |Links(web, order[page].pageURL)|
    ensures Served(web, req, order, at, Spot(page + 1, 0))
  {
    hide Served;
    ServedPage(web, req, order, at, Spot(page, n));
  }

  lemma {:induction false} EndOfLoop(web: Web, req: Request, order: seq<Item>, done: nat, visited: set<Url>,
          cross: nat, budget: nat, cut: bool)
    requires Crawling(web, req, order, done, visited, cross, budget, cut)
    ensures |order| == |visited| <= Pages(req)
  {
    CardOfUrls(order);
  }

  lemma {:induction false} Start(web: Web, req: Request, budget: nat)
    ensures Crawling(web, req, [Item(req.url, 0)], 0, {req.url}, 0, budget, false)
  {
    hide Roomy;
    Root(web, req);
    assert CrossPages(web, req, {req.url}) == {};
    Grows(web, req, 0, Depth(req));
  }

  lemma {:induction false} Finish(web: Web, req: Request, processed: seq<Item>, queue: seq<Item>, visited: set<Url>,
          cross: nat, budget: nat, cut: bool)
    requires Crawling(web, req, processed + queue, |processed|, visited, cross, budget, cut)
    requires |queue| == 0 || |processed| == budget
    ensures DistinctUrls(processed) && NondecreasingDepth(processed)
    ensures forall i :: 0 <= i < |processed| ==>
      processed[i].depth <= Depth(req) && AtDistance(web, req, processed[i].pageURL, processed[i].depth)
    ensures |processed| <= Pages(req)
    ensures |CrossPages(web, req, Urls(processed))| <= MAX_CROSS
    ensures Roomy(web, req, budget) || Unlimited(web, req, processed, budget) ==>
      Urls(processed) == Within(web, req, Depth(req))
      && forall i :: 0 <= i < |processed| ==> ShortestDistance(web, req, processed[i].pageURL, processed[i].depth)
  {
    var order := processed + queue;
    forall i | 0 <= i < |processed| ensures processed[i] == order[i] {}
    CardOfUrls(order);
    CardOfSubset(CrossPages(web, req, Urls(processed)), CrossPages(web, req, visited));
    if Roomy(web, req, budget) || Unlimited(web, req, processed, budget) {
      FinishComplete(web, req, processed, queue, visited, cross, budget, cut);
    }
  }

  lemma {:induction false} FinishComplete(web: Web, req: Request, processed: seq<Item>, queue: seq<Item>,
          visited: set<Url>, cross: nat, budget: nat, cut: bool)
    requires Crawling(web, req, processed + queue, |processed|, visited, cross, budget, cut)
    requires |queue| == 0 || |processed| == budget
    requires Roomy(web, req, budget) || Unlimited(web, req, processed, budget)
    ensures Urls(processed) == Within(web, req, Depth(req))
    ensures forall i :: 0 <= i < |processed| ==> ShortestDistance(web, req, processed[i].pageURL, processed[i].depth)
  {
    hide Full, ShortestDistance, Levelled, DistinctUrls;
    var order := processed + queue;
    assert DistinctUrls(order) by { Apart(web, req, order, |processed|, visited, cross); }
    CardOfUrls(order);
    if Unlimited(web, req, processed, budget) {
      assert queue == [] && processed == order;
      assert Urls(processed) == visited;
    } else {
      CardOfSubset(visited, Within(web, req, Depth(req)));
      assert queue == [] && processed == order;
    }
    AllInReach(web, req, order, visited, cross);
  }

  lemma {:induction false} Apart(web: Web, req: Request, order: seq<Item>, done: nat, visited: set<Url>, cross: nat)
    requires Sound(web, req, order, done, visited, cross)
    ensures DistinctUrls(order)
  {
  }
}
