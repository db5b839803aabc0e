/**
 * verdict-api: the wallet-drainer scorer. Weights are reals; the phrase and token dictionaries are
 * parameters with non-negative weights and non-empty terms, the caps and fixed weights are the source's.
 */
module Drainer {
  import opened Wrappers
  import opened Text

  datatype Inputs = Inputs(url: string, sld: string, title: string, visible: string, ocr: string,
                           indicators: seq<string>, inBrandgraph: bool)
  datatype Phrase = Phrase(term: string, weight: real)
  datatype Category =
    | AirdropLure | RevokePermissionsLure | FakeMintLure | WalletConnectLure | WalletMethod | FakeDeFiBrand
  datatype Hit = Hit(category: Category, phrase: string, weight: real, source: string)
  datatype Source = Source(name: string, text: string)

  datatype Dictionaries = Dictionaries(airdrop: seq<Phrase>, revoke: seq<Phrase>, mint: seq<Phrase>,
                                       wallet: seq<Phrase>, defi: seq<Phrase>, lures: seq<string>, brands: seq<string>)

  predicate Sound(ps: seq<Phrase>) { forall i :: 0 <= i < |ps| ==> ps[i].term != "" && ps[i].weight >= 0.0 }

  ghost predicate AllSound(d: Dictionaries) {
    Sound(d.airdrop) && Sound(d.revoke) && Sound(d.mint) && Sound(d.wallet) && Sound(d.defi)
    && (forall i :: 0 <= i < |d.lures| ==> d.lures[i] != "") && (forall i :: 0 <= i < |d.brands| ==> d.brands[i] != "")
  }

  function Min(a: real, b: real): real { if a > b then b else a }

  function Sum(hits: seq<Hit>): real {
    if hits == [] then 0.0 else Sum(hits[..|hits| - 1]) + hits[|hits| - 1].weight
  }

  lemma {:induction false} SumConcat(a: seq<Hit>, b: seq<Hit>)
    ensures Sum(a + b) == Sum(a) + Sum(b)
  {
    if b == [] {
      assert a + b == a;
    } else {
      SumConcat(a, b[..|b| - 1]);
      assert (a + b)[..|a + b| - 1] == a + b[..|b| - 1];
    }
  }

  // ----- phrase categories

  function OneSource(name: string, text: string): seq<Source> { if text == "" then [] else [Source(name, Lower(text))] }

  function Sources(i: Inputs): seq<Source> {
    OneSource("url", i.url) + OneSource("sld", i.sld) + OneSource("title", i.title)
    + OneSource("visible", i.visible) + OneSource("ocr", i.ocr)
  }

  /** The first source that contains the term. */
  function FoundIn(sources: seq<Source>, term: string): Option<string> {
    if sources == [] then None
    else if Contains(sources[0].text, term) then Some(sources[0].name)
    else FoundIn(sources[1..], term)
  }

  function LocalHits(sources: seq<Source>, ps: seq<Phrase>, cat: Category): seq<Hit> {
    if ps == [] then []
    else
      var (front, p) := (LocalHits(sources, ps[..|ps| - 1], cat), ps[|ps| - 1]);
      var f := FoundIn(sources, p.term);
      if f.Some? then front + [Hit(cat, p.term, p.weight, f.value)] else front
  }

  function Scale(h: Hit, factor: real): Hit { h.(weight := h.weight * factor) }

  function Scaled(hits: seq<Hit>, factor: real): seq<Hit> {
    seq(|hits|, i requires 0 <= i < |hits| => Scale(hits[i], factor))
  }

  /** The hits of a category, scaled down together when their total exceeds the cap. */
  function CategoryHits(sources: seq<Source>, ps: seq<Phrase>, cat: Category, cap: real): seq<Hit> {
    var local := LocalHits(sources, ps, cat);
    if Sum(local) > cap && cap >= 0.0 then Scaled(local, cap / Sum(local)) else local
  }

  lemma {:induction false} ScaledSum(hits: seq<Hit>, factor: real)
    ensures Sum(Scaled(hits, factor)) == Sum(hits) * factor
  {
    if hits != [] {
      var (front, last) := (hits[..|hits| - 1], hits[|hits| - 1]);
      ScaledSum(front, factor);
      assert Scaled(hits, factor)[..|hits| - 1] == Scaled(front, factor);
      assert (Sum(front) + last.weight) * factor == Sum(front) * factor + last.weight * factor;
    }
  }

  /** A category contributes the smaller of its total and its cap. */
  lemma {:induction false} CategoryIsCapped(sources: seq<Source>, ps: seq<Phrase>, cat: Category, cap: real)
    requires cap >= 0.0
    ensures Sum(CategoryHits(sources, ps, cat, cap)) == Min(Sum(LocalHits(sources, ps, cat)), cap)
  {
    hide Sum, LocalHits, Scaled;
    var local := LocalHits(sources, ps, cat);
    if Sum(local) > cap {
      ScaledSum(local, cap / Sum(local));
      Rescaled(Sum(local), cap);
    }
  }

  lemma {:induction false} Rescaled(total: real, cap: real)
    requires total > 0.0
    ensures total * (cap / total) == cap
  {
  }

  // ----- wallet methods

  function MethodHit(indicator: string): Option<Hit> {
    var low := Lower(indicator);
    if Contains(low, "eth_signtypeddata_v4") then Some(Hit(WalletMethod, "eth_signTypedData_v4", 0.25, "script"))
    else if Contains(low, "personal_sign") then Some(Hit(WalletMethod, "personal_sign", 0.15, "script"))
    else if Contains(low, "wallet_addethereumchain") then
      Some(Hit(WalletMethod, "wallet_addEthereumChain", 0.20, "script"))
    else if Contains(low, "wallet_watchasset") then Some(Hit(WalletMethod, "wallet_watchAsset", 0.15, "script"))
    else if Contains(low, "setapprovalforall") then Some(Hit(WalletMethod, "setApprovalForAll", 0.20, "script"))
    else None
  }

  function MethodHits(indicators: seq<string>): seq<Hit> {
    if indicators == [] then []
    else
      var (front, h) := (MethodHits(indicators[..|indicators| - 1]), MethodHit(indicators[|indicators| - 1]));
      if h.Some? then front + [h.value] else front
  }

  // ----- the SLD bonus

  /** The tokens that occur in the text, in list order. */
  function Occurring(text: string, tokens: seq<string>): seq<string> {
    if tokens == [] then []
    else
      var front := Occurring(text, tokens[..|tokens| - 1]);
      if Contains(text, tokens[|tokens| - 1]) then front + [tokens[|tokens| - 1]] else front
  }

  /** The bonus for a number of lures and a number of brands. */
  function Bonus(lures: nat, brands: nat): real {
    if lures * brands == 0 then (if lures >= 2 then 0.30 else 0.0)
    else Min(0.20 * (lures * brands) as real, 0.40)
  }

  function SldBonus(sld: string, d: Dictionaries): real {
    if sld == "" then 0.0 else Bonus(|Occurring(Lower(sld), d.lures)|, |Occurring(Lower(sld), d.brands)|)
  }

  /** The hit that reports the bonus: the first lure with the first brand, or the first two lures. */
  function BonusHits(sld: string, d: Dictionaries): seq<Hit> {
    if sld == "" then []
    else
      var (l, b) := (Occurring(Lower(sld), d.lures), Occurring(Lower(sld), d.brands));
      if |l| > 0 && |b| > 0 then [Hit(FakeDeFiBrand, l[0] + " + " + b[0], SldBonus(sld, d), "sld_composite")]
      else if |l| >= 2 then [Hit(AirdropLure, l[0] + " + " + l[1], SldBonus(sld, d), "sld_composite")]
      else []
  }

  // ----- helpers of the loops

  lemma {:induction false} SumOne(h: Hit)
    ensures Sum([h]) == h.weight
  {
  }

  lemma {:induction false} LocalHitsPrefix(sources: seq<Source>, ps: seq<Phrase>, cat: Category, i: nat)
    requires i <= |ps|
    ensures LocalHits(sources, ps[..0], cat) == [] && Sum(LocalHits(sources, ps[..0], cat)) == 0.0
    ensures i < |ps| ==>
      LocalHits(sources, ps[..i + 1], cat)
      == LocalHits(sources, ps[..i], cat)
         + (var f := FoundIn(sources, ps[i].term);
             if f.Some? then [Hit(cat, ps[i].term, ps[i].weight, f.value)] else [])
  {
    if i < |ps| { assert ps[..i + 1][..i] == ps[..i]; }
  }

  lemma {:induction false} MethodHitsPrefix(indicators: seq<string>, i: nat)
    requires i <= |indicators|
    ensures MethodHits(indicators[..0]) == [] && Sum(MethodHits(indicators[..0])) == 0.0
    ensures i < |indicators| ==>
      MethodHits(indicators[..i + 1])
      == MethodHits(indicators[..i]) + (if MethodHit(indicators[i]).Some? then [MethodHit(indicators[i]).value] else [])
  {
    hide MethodHit;
    if i < |indicators| { assert indicators[..i + 1][..i] == indicators[..i]; }
  }

  lemma {:induction false} ScaledIs(was: seq<Hit>, local: seq<Hit>, factor: real)
    requires |local| == |was| && forall k :: 0 <= k < |was| ==> local[k] == Scale(was[k], factor)
    ensures local == Scaled(was, factor)
  {
  }

  method FindSource(sources: seq<Source>, term: string) returns (r: Option<string>)
    ensures r == FoundIn(sources, term)
  {
    hide Contains;
    for i := 0 to |sources|
      invariant FoundIn(sources, term) == FoundIn(sources[i..], term)
    {
      if Contains(sources[i].text, term) {
        return Some(sources[i].name);
      }
    }
    return None;
  }

  lemma {:induction false} OccurringPrefix(text: string, tokens: seq<string>, i: nat)
    requires i <= |tokens|
    ensures Occurring(text, tokens[..0]) == []
    ensures i < |tokens| ==>
      Occurring(text, tokens[..i + 1]) == Occurring(text, tokens[..i])
        + (if Contains(text, tokens[i]) then [tokens[i]] else [])
  {
    if i < |tokens| { assert tokens[..i + 1][..i] == tokens[..i]; }
  }

  /** The pairs of an occurring lure and an occurring brand, and the first such pair. */
  method CountPairs(sld: string, d: Dictionaries) returns (count: nat, lure: string, brand: string)
    requires forall i :: 0 <= i < |d.lures| ==> d.lures[i] != ""
    ensures count == |Occurring(sld, d.lures)| * |Occurring(sld, d.brands)|
    ensures count > 0 ==> Recorded(count, lure, brand, Occurring(sld, d.lures), Occurring(sld, d.brands))
  {
    hide Contains, Occurring;
    count, lure, brand := 0, "", "";
    ghost var (ls, bs) := (Occurring(sld, d.lures), Occurring(sld, d.brands));
    OccurringPrefix(sld, d.lures, 0);
    for i := 0 to |d.lures|
      invariant count == |Occurring(sld, d.lures[..i])| * |bs|
      invariant Recorded(count, lure, brand, Occurring(sld, d.lures[..i]), bs)
    {
      OccurringPrefix(sld, d.lures, i);
      if Contains(sld, d.lures[i]) {
        ghost var (was, before) := (count, Occurring(sld, d.lures[..i]));
        OccurringPrefix(sld, d.brands, 0);
        for j := 0 to |d.brands|
          invariant count == was + |Occurring(sld, d.brands[..j])|
          invariant was == 0 ==> Recorded(count, lure, brand, [d.lures[i]], Occurring(sld, d.brands[..j]))
          invariant was > 0 ==> Recorded(count, lure, brand, before, bs)
        {
          OccurringPrefix(sld, d.brands, j);
          if Contains(sld, d.brands[j]) {
            if lure == "" {
              lure, brand := d.lures[i], d.brands[j];
            }
            count := count + 1;
          }
        }
        assert d.brands[..|d.brands|] == d.brands;
        OneMore(|before|, |bs|);
        if was == 0 { FirstLure(before, bs); }
      }
    }
    assert d.lures[..|d.lures|] == d.lures;
  }

  /** `lure` and `brand` are the first of theirs as soon as there is a pair. */
  predicate Recorded(count: nat, lure: string, brand: string, ls: seq<string>, bs: seq<string>) {
    if count == 0 then lure == "" else lure != "" && ls != [] && bs != [] && lure == ls[0] && brand == bs[0]
  }

  lemma {:induction false} FirstLure(before: seq<string>, bs: seq<string>)
    requires |before| * |bs| == 0
    ensures bs == [] || before == []
  {
  }

  lemma {:induction false} OneMore(a: nat, b: nat)
    ensures a * b + b == (a + 1) * b
  {
  }

  /** The first occurring tokens, at most two. */
  method FirstTwo(sld: string, tokens: seq<string>) returns (found: seq<string>)
    ensures found <= Occurring(sld, tokens)
    ensures |found| == if |Occurring(sld, tokens)| >= 2 then 2 else |Occurring(sld, tokens)|
  {
    hide Contains, Occurring;
    found := [];
    OccurringPrefix(sld, tokens, 0);
    for i := 0 to |tokens|
      invariant found == Occurring(sld, tokens[..i]) && |found| < 2
    {
      OccurringPrefix(sld, tokens, i);
      if Contains(sld, tokens[i]) {
        found := found + [tokens[i]];
        if |found| >= 2 {
          OccurringGrows(sld, tokens, i + 1);
          return;
        }
      }
    }
    assert tokens[..|tokens|] == tokens;
  }

  lemma {:induction false} OccurringGrows(text: string, tokens: seq<string>, i: nat)
    requires i <= |tokens|
    ensures Occurring(text, tokens[..i]) <= Occurring(text, tokens)
    decreases |tokens| - i
  {
    hide Contains, Occurring;
    if i < |tokens| {
      OccurringPrefix(text, tokens, i);
      OccurringGrows(text, tokens, i + 1);
    } else {
      assert tokens[..i] == tokens;
    }
  }

  // ----- the result object

  class Result {
    var score: real
    var hits: seq<Hit>

    constructor ()
      ensures score == 0.0 && hits == []
    {
      score, hits := 0.0, [];
    }

    method AddCategory(input: Inputs, ps: seq<Phrase>, cat: Category, cap: real)
      requires cap >= 0.0
      modifies this
      ensures hits == old(hits) + CategoryHits(Sources(input), ps, cat, cap)
      ensures score == old(score) + Min(Sum(LocalHits(Sources(input), ps, cat)), cap)
    {
      var sources := Sources(input);
      hide Sources, Contains, FoundIn, LocalHits, Sum, Scaled;
      var local: seq<Hit> := [];
      var total := 0.0;
      LocalHitsPrefix(sources, ps, cat, 0);
      for i := 0 to |ps|
        invariant local == LocalHits(sources, ps[..i], cat) && total == Sum(local)
        invariant hits == old(hits) && score == old(score)
      {
        var p := ps[i];
        LocalHitsPrefix(sources, ps, cat, i);
        var found := FindSource(sources, p.term);
        if found.Some? {
          total := total + p.weight;
          SumConcat(local, [Hit(cat, p.term, p.weight, found.value)]);
          SumOne(Hit(cat, p.term, p.weight, found.value));
          local := local + [Hit(cat, p.term, p.weight, found.value)];
        }
      }
      assert ps[..|ps|] == ps;
      if total > cap {
        var factor := cap / total;
        ghost var was := local;
        for i := 0 to |local|
          invariant |local| == |was|
          invariant forall k :: 0 <= k < i ==> local[k] == Scale(was[k], factor)
          invariant forall k :: i <= k < |was| ==> local[k] == was[k]
        {
          local := local[i := local[i].(weight := local[i].weight * factor)];
        }
        ScaledIs(was, local, factor);
        total := cap;
      }
      hits := hits + local;
      score := score + total;
    }

    method AddWalletMethodSignals(input: Inputs)
      modifies this
      ensures hits == old(hits) + MethodHits(input.indicators)
      ensures score == old(score) + Sum(MethodHits(input.indicators))
    {
      hide MethodHit, MethodHits, Sum;
      MethodHitsPrefix(input.indicators, 0);
      for i := 0 to |input.indicators|
        invariant hits == old(hits) + MethodHits(input.indicators[..i])
        invariant score == old(score) + Sum(MethodHits(input.indicators[..i]))
      {
        MethodHitsPrefix(input.indicators, i);
        var h := MethodHit(input.indicators[i]);
        assert MethodHits(input.indicators[..i]) + [] == MethodHits(input.indicators[..i]);
        if h.Some? {
          SumConcat(MethodHits(input.indicators[..i]), [h.value]);
          SumOne(h.value);
          score := score + h.value.weight;
          hits := hits + [h.value];
        }
      }
      assert input.indicators[..|input.indicators|] == input.indicators;
    }

    method AddSLDCompositeBonus(input: Inputs, d: Dictionaries)
      requires forall i :: 0 <= i < |d.lures| ==> d.lures[i] != ""
      modifies this
      ensures score == old(score) + SldBonus(input.sld, d)
      ensures hits == old(hits) + BonusHits(input.sld, d)
    {
      if input.sld == "" {
        return;
      }
      var sld := Lower(input.sld);
      hide Lower, Contains, Occurring;
      var count, lure, brand := CountPairs(sld, d);
      if count == 0 {
        var found := FirstTwo(sld, d.lures);
        if |found| >= 2 {
          score := score + 0.30;
          hits := hits + [Hit(AirdropLure, found[0] + " + " + found[1], 0.30, "sld_composite")];
        }
        return;
      }
      var weight := 0.20 * count as real;
      if weight > 0.40 {
        weight := 0.40;
      }
      score := score + weight;
      hits := hits + [Hit(FakeDeFiBrand, lure + " + " + brand, weight, "sld_composite")];
    }
  }

  // ----- ordering of the hits

  predicate TextLess(a: string, b: string) {
    b != "" && (a == "" || a[0] < b[0] || (a[0] == b[0] && TextLess(a[1..], b[1..])))
  }

  lemma {:induction false} TextOrder(a: string, b: string, c: string)
    ensures !(TextLess(a, b) && TextLess(b, a))
    ensures !TextLess(a, b) && !TextLess(b, c) ==> !TextLess(a, c)
    ensures a == b || TextLess(a, b) || TextLess(b, a)
  {
    if a != "" && b != "" {
      TextOrder(a[1..], b[1..], if c == "" then "" else c[1..]);
      assert a == [a[0]] + a[1..] && b == [b[0]] + b[1..];
    }
  }

  /** Heavier first; among equal weights in the order of the phrases. */
  predicate Before(x: Hit, y: Hit) {
    if x.weight != y.weight then x.weight > y.weight else TextLess(x.phrase, y.phrase)
  }

  ghost predicate Ordered(s: seq<Hit>) { forall i, j :: 0 <= i < j < |s| ==> !Before(s[j], s[i]) }

  /** Heavier hits first, and among equals by phrase. */
  lemma {:induction false} OrderedMeans(s: seq<Hit>)
    ensures Ordered(s) <==> forall i, j :: 0 <= i < j < |s| ==>
      s[i].weight > s[j].weight || (s[i].weight == s[j].weight && !TextLess(s[j].phrase, s[i].phrase))
  {
    hide TextLess;
  }

  function Placed(s: seq<Hit>, h: Hit): seq<Hit> {
    if s != [] && Before(h, s[|s| - 1]) then Placed(s[..|s| - 1], h) + [s[|s| - 1]] else s + [h]
  }

  /** A stable sort (`sort.SliceStable`). */
  function StableSorted(s: seq<Hit>): seq<Hit> {
    if s == [] then [] else Placed(StableSorted(s[..|s| - 1]), s[|s| - 1])
  }

  lemma {:induction false} PlacedKeeps(s: seq<Hit>, h: Hit)
    ensures multiset(Placed(s, h)) == multiset(s) + multiset{h} && Sum(Placed(s, h)) == Sum(s) + h.weight
  {
    hide Before;
    if s != [] && Before(h, s[|s| - 1]) {
      var (front, last) := (s[..|s| - 1], s[|s| - 1]);
      assert s == front + [last];
      PlacedKeeps(front, h);
      assert Placed(s, h)[..|Placed(front, h)|] == Placed(front, h);
    } else {
      assert (s + [h])[..|s|] == s;
    }
  }

  /** `Before` is a strict weak order. */
  lemma {:induction false} BeforeOrder(x: Hit, y: Hit, z: Hit)
    ensures Before(x, y) ==> !Before(y, x)
    ensures !Before(x, y) && !Before(y, z) ==> !Before(x, z)
  {
    hide TextLess;
    TextOrder(x.phrase, y.phrase, z.phrase);
  }

  lemma {:induction false} PlacedOrdered(s: seq<Hit>, h: Hit)
    requires Ordered(s)
    ensures Ordered(Placed(s, h))
  {
    hide Before;
    if s != [] && Before(h, s[|s| - 1]) {
      var (front, last) := (s[..|s| - 1], s[|s| - 1]);
      PlacedOrdered(front, h);
      var t := Placed(front, h);
      forall i | 0 <= i < |t| ensures !Before(last, t[i]) {
        PlacedKeeps(front, h);
        assert t[i] in multiset(t);
        BeforeOrder(h, last, h);
        if t[i] != h { assert t[i] in front; }
      }
    } else {
      forall i | 0 <= i < |s| ensures !Before(h, s[i]) {
        BeforeOrder(h, s[|s| - 1], s[i]);
      }
    }
  }

  lemma {:induction false} SortedIs(s: seq<Hit>)
    ensures Ordered(StableSorted(s)) && multiset(StableSorted(s)) == multiset(s) && Sum(StableSorted(s)) == Sum(s)
  {
    hide Placed, Ordered;
    if s == [] {
      assert Ordered([]) by { NothingOrdered(); }
    } else {
      SortedIs(s[..|s| - 1]);
      PlacedOrdered(StableSorted(s[..|s| - 1]), s[|s| - 1]);
      PlacedKeeps(StableSorted(s[..|s| - 1]), s[|s| - 1]);
      assert s == s[..|s| - 1] + [s[|s| - 1]];
    }
  }

  lemma {:induction false} NothingOrdered()
    ensures Ordered([])
  {
  }

  // ----- the score

  function CategoryScore(input: Inputs, ps: seq<Phrase>, cat: Category, cap: real): real {
    Min(Sum(LocalHits(Sources(input), ps, cat)), cap)
  }

  /** Before the overall cap. */
  function Raw(input: Inputs, d: Dictionaries): real {
    CategoryScore(input, d.airdrop, AirdropLure, 0.35)
    + CategoryScore(input, d.revoke, RevokePermissionsLure, 0.30)
    + CategoryScore(input, d.mint, FakeMintLure, 0.30)
    + CategoryScore(input, d.wallet, WalletConnectLure, 0.25)
    + CategoryScore(input, d.defi, FakeDeFiBrand, 0.25)
    + Sum(MethodHits(input.indicators))
    + SldBonus(input.sld, d)
  }

  function ScoreOf(input: Inputs, d: Dictionaries): real {
    if input.inBrandgraph then 0.0 else Min(Raw(input, d), 1.5)
  }

  /** Every hit, in the order in which the passes find them. */
  function AllHits(input: Inputs, d: Dictionaries): seq<Hit> {
    CategoryHits(Sources(input), d.airdrop, AirdropLure, 0.35)
    + CategoryHits(Sources(input), d.revoke, RevokePermissionsLure, 0.30)
    + CategoryHits(Sources(input), d.mint, FakeMintLure, 0.30)
    + CategoryHits(Sources(input), d.wallet, WalletConnectLure, 0.25)
    + CategoryHits(Sources(input), d.defi, FakeDeFiBrand, 0.25)
    + MethodHits(input.indicators)
    + BonusHits(input.sld, d)
  }

  /**
   * The hits are those of all passes, ordered by weight and phrase, and the score is the sum of their
   * weights, cut at 1.5.
   */
  method Score(input: Inputs, d: Dictionaries) returns (score: real, hits: seq<Hit>)
    requires AllSound(d)
    ensures score == ScoreOf(input, d)
    ensures score == Min(Sum(hits), 1.5)
    ensures Ordered(hits)
    ensures multiset(hits) == if input.inBrandgraph then multiset{} else multiset(AllHits(input, d))
  {
    hide Sum, LocalHits, MethodHits, SldBonus, StableSorted, CategoryHits, Sources, Ordered, BonusHits;
    if input.inBrandgraph {
      SumNothing();
      return 0.0, [];
    }
    var r := new Result();
    r.AddCategory(input, d.airdrop, AirdropLure, 0.35);
    r.AddCategory(input, d.revoke, RevokePermissionsLure, 0.30);
    r.AddCategory(input, d.mint, FakeMintLure, 0.30);
    r.AddCategory(input, d.wallet, WalletConnectLure, 0.25);
    r.AddCategory(input, d.defi, FakeDeFiBrand, 0.25);
    r.AddWalletMethodSignals(input);
    r.AddSLDCompositeBonus(input, d);
    ghost var all := AllHits(input, d);
    assert [] + CategoryHits(Sources(input), d.airdrop, AirdropLure, 0.35)
      == CategoryHits(Sources(input), d.airdrop, AirdropLure, 0.35);
    assert r.hits == all && r.score == Raw(input, d);
    HitsAddUp(input, d);
    SortedIs(all);
    if r.score > 1.5 {
      r.score := 1.5;
    }
    r.hits := StableSorted(r.hits);
    return r.score, r.hits;
  }

  lemma {:induction false} BonusAddsUp(sld: string, d: Dictionaries)
    ensures Sum(BonusHits(sld, d)) == SldBonus(sld, d)
  {
  }

  /** The weights of all hits add up to the score before the overall cap. */
  lemma {:induction false} HitsAddUp(input: Inputs, d: Dictionaries)
    ensures Sum(AllHits(input, d)) == Raw(input, d)
  {
    hide Sum, LocalHits, MethodHits, SldBonus, CategoryHits, Sources, BonusHits;
    var s := Sources(input);
    var c1 := CategoryHits(s, d.airdrop, AirdropLure, 0.35);
    var c2 := c1 + CategoryHits(s, d.revoke, RevokePermissionsLure, 0.30);
    var c3 := c2 + CategoryHits(s, d.mint, FakeMintLure, 0.30);
    var c4 := c3 + CategoryHits(s, d.wallet, WalletConnectLure, 0.25);
    var c5 := c4 + CategoryHits(s, d.defi, FakeDeFiBrand, 0.25);
    CategoryIsCapped(s, d.airdrop, AirdropLure, 0.35);
    AddedCategory(c1, s, d.revoke, RevokePermissionsLure, 0.30);
    AddedCategory(c2, s, d.mint, FakeMintLure, 0.30);
    AddedCategory(c3, s, d.wallet, WalletConnectLure, 0.25);
    AddedCategory(c4, s, d.defi, FakeDeFiBrand, 0.25);
    SumConcat(c5, MethodHits(input.indicators));
    SumConcat(c5 + MethodHits(input.indicators), BonusHits(input.sld, d));
    BonusAddsUp(input.sld, d);
  }

  lemma {:induction false} SumNothing()
    ensures Sum([]) == 0.0 && Ordered([])
  {
  }

  lemma {:induction false} AddedCategory(hits: seq<Hit>, sources: seq<Source>, ps: seq<Phrase>, cat: Category,
          cap: real)
    requires cap >= 0.0
    ensures Sum(hits + CategoryHits(sources, ps, cat, cap)) == Sum(hits) + Min(Sum(LocalHits(sources, ps, cat)), cap)
  {
    SumConcat(hits, CategoryHits(sources, ps, cat, cap));
    CategoryIsCapped(sources, ps, cat, cap);
  }

  // ----- more text never lowers the score

  /** Every text of `a` occurs in the corresponding text of `b`, and `b` has further script indicators at most. */
  predicate Extends(b: Inputs, a: Inputs) {
    && Contains(b.url, a.url) && Contains(b.sld, a.sld) && Contains(b.title, a.title)
    && Contains(b.visible, a.visible) && Contains(b.ocr, a.ocr)
    && a.indicators <= b.indicators && a.inBrandgraph == b.inBrandgraph
  }

  lemma {:induction false} TermCarriesOver(b: string, a: string, term: string)
    requires Contains(b, a) && Contains(Lower(a), term)
    ensures Contains(Lower(b), term)
  {
    LowerKeepsContainment(b, a);
    ContainsTransitive(Lower(b), Lower(a), term);
  }

  lemma {:induction false} FoundConcat(x: seq<Source>, y: seq<Source>, term: string)
    ensures FoundIn(x + y, term).Some? <==> FoundIn(x, term).Some? || FoundIn(y, term).Some?
  {
    hide Contains;
    if x == [] {
      assert x + y == y;
    } else {
      FoundConcat(x[1..], y, term);
      assert (x + y)[1..] == x[1..] + y;
    }
  }

  predicate InText(text: string, term: string) { text != "" && Contains(Lower(text), term) }

  lemma {:induction false} FoundInOne(name: string, text: string, term: string)
    ensures FoundIn(OneSource(name, text), term).Some? <==> InText(text, term)
  {
  }

  lemma {:induction false} FoundIff(i: Inputs, term: string)
    ensures FoundIn(Sources(i), term).Some?
      <==> InText(i.url, term) || InText(i.sld, term) || InText(i.title, term)
           || InText(i.visible, term) || InText(i.ocr, term)
  {
    hide InText, FoundIn, OneSource;
    var (a, b, c, d, e) := (OneSource("url", i.url), OneSource("sld", i.sld), OneSource("title", i.title),
                            OneSource("visible", i.visible), OneSource("ocr", i.ocr));
    FoundConcat(a + b + c + d, e, term);
    FoundConcat(a + b + c, d, term);
    FoundConcat(a + b, c, term);
    FoundConcat(a, b, term);
    FoundInOne("url", i.url, term);
    FoundInOne("sld", i.sld, term);
    FoundInOne("title", i.title, term);
    FoundInOne("visible", i.visible, term);
    FoundInOne("ocr", i.ocr, term);
  }

  lemma {:induction false} InTextCarriesOver(b: string, a: string, term: string)
    requires Contains(b, a) && term != "" && InText(a, term)
    ensures InText(b, term)
  {
    TermCarriesOver(b, a, term);
  }

  lemma {:induction false} FoundCarriesOver(b: Inputs, a: Inputs, term: string)
    requires Extends(b, a) && term != "" && FoundIn(Sources(a), term).Some?
    ensures FoundIn(Sources(b), term).Some?
  {
    hide InText, Contains, Sources;
    FoundIff(a, term);
    FoundIff(b, term);
    if InText(a.url, term) { InTextCarriesOver(b.url, a.url, term); }
    if InText(a.sld, term) { InTextCarriesOver(b.sld, a.sld, term); }
    if InText(a.title, term) { InTextCarriesOver(b.title, a.title, term); }
    if InText(a.visible, term) { InTextCarriesOver(b.visible, a.visible, term); }
    if InText(a.ocr, term) { InTextCarriesOver(b.ocr, a.ocr, term); }
  }

  lemma {:induction false} CategoryGrows(b: Inputs, a: Inputs, ps: seq<Phrase>, cat: Category)
    requires Extends(b, a) && Sound(ps)
    ensures Sum(LocalHits(Sources(a), ps, cat)) <= Sum(LocalHits(Sources(b), ps, cat))
  {
    hide Sources, Contains, FoundIn, Extends;
    if ps != [] {
      var (front, p) := (ps[..|ps| - 1], ps[|ps| - 1]);
      CategoryGrows(b, a, front, cat);
      var (x, y) := (FoundIn(Sources(a), p.term), FoundIn(Sources(b), p.term));
      if x.Some? {
        FoundCarriesOver(b, a, p.term);
        SumConcat(LocalHits(Sources(a), front, cat), [Hit(cat, p.term, p.weight, x.value)]);
        SumOne(Hit(cat, p.term, p.weight, x.value));
      }
      if y.Some? {
        SumConcat(LocalHits(Sources(b), front, cat), [Hit(cat, p.term, p.weight, y.value)]);
        SumOne(Hit(cat, p.term, p.weight, y.value));
      }
    }
  }

  lemma {:induction false} MethodsGrow(a: seq<string>, b: seq<string>)
    requires a <= b
    ensures Sum(MethodHits(a)) <= Sum(MethodHits(b))
    decreases |b|
  {
    hide MethodHit;
    if |a| < |b| {
      var (front, h) := (b[..|b| - 1], MethodHit(b[|b| - 1]));
      MethodsGrow(a, front);
      MethodWeight(b[|b| - 1]);
      if h.Some? {
        SumConcat(MethodHits(front), [h.value]);
        SumOne(h.value);
      }
    } else {
      assert a == b;
    }
  }

  lemma {:induction false} MethodWeight(indicator: string)
    ensures MethodHit(indicator).Some? ==> MethodHit(indicator).value.weight >= 0.15
  {
  }

  lemma {:induction false} OccurringCarriesOver(b: string, a: string, tokens: seq<string>)
    requires Contains(b, a)
    ensures |Occurring(Lower(a), tokens)| <= |Occurring(Lower(b), tokens)|
  {
    hide Contains, Lower;
    if tokens != [] {
      OccurringCarriesOver(b, a, tokens[..|tokens| - 1]);
      if Contains(Lower(a), tokens[|tokens| - 1]) { TermCarriesOver(b, a, tokens[|tokens| - 1]); }
    }
  }

  /** The bonus is monotone in both counts, across the fallback for lures without a brand. */
  lemma {:induction false} BonusMonotone(l: nat, b: nat, l': nat, b': nat)
    requires l <= l' && b <= b'
    ensures Bonus(l, b) <= Bonus(l', b')
  {
  }

  lemma {:induction false} SldBonusGrows(b: string, a: string, d: Dictionaries)
    requires Contains(b, a)
    ensures SldBonus(a, d) <= SldBonus(b, d)
  {
    hide Occurring, Lower, Bonus;
    BonusNotNegative(|Occurring(Lower(b), d.lures)|, |Occurring(Lower(b), d.brands)|);
    if a != "" {
      OccurringCarriesOver(b, a, d.lures);
      OccurringCarriesOver(b, a, d.brands);
      BonusMonotone(|Occurring(Lower(a), d.lures)|, |Occurring(Lower(a), d.brands)|,
                    |Occurring(Lower(b), d.lures)|, |Occurring(Lower(b), d.brands)|);
    }
  }

  lemma {:induction false} BonusNotNegative(l: nat, b: nat)
    ensures Bonus(l, b) >= 0.0
  {
  }

  /** Extending any text, or appending script indicators, never lowers the score. */
  lemma {:induction false} ScoreIsMonotone(b: Inputs, a: Inputs, d: Dictionaries)
    requires Extends(b, a) && AllSound(d)
    ensures ScoreOf(a, d) <= ScoreOf(b, d)
  {
    hide Sum, LocalHits, MethodHits, SldBonus, Sources, Contains;
    CategoryGrows(b, a, d.airdrop, AirdropLure);
    CategoryGrows(b, a, d.revoke, RevokePermissionsLure);
    CategoryGrows(b, a, d.mint, FakeMintLure);
    CategoryGrows(b, a, d.wallet, WalletConnectLure);
    CategoryGrows(b, a, d.defi, FakeDeFiBrand);
    MethodsGrow(a.indicators, b.indicators);
    SldBonusGrows(b.sld, a.sld, d);
  }

  // ----- but extending the text of one indicator can

  function IndicatorWeight(indicator: string): real {
    var h := MethodHit(indicator);
    if h.Some? then h.value.weight else 0.0
  }

  predicate Marks(indicator: string, marker: string) { Contains(Lower(indicator), marker) }

  /** `personal_sign` comes to shadow a 0.20 method, or `wallet_watchasset` comes to shadow `setapprovalforall`. */
  predicate Shadowed(b: string, a: string) {
    && !Marks(b, "eth_signtypeddata_v4") && !Marks(a, "personal_sign")
    && ((Marks(b, "personal_sign")
         && (Marks(a, "wallet_addethereumchain") || (!Marks(a, "wallet_watchasset") && Marks(a, "setapprovalforall"))))
        || (!Marks(b, "personal_sign") && !Marks(b, "wallet_addethereumchain") && Marks(b, "wallet_watchasset")
            && !Marks(a, "wallet_watchasset") && Marks(a, "setapprovalforall")))
  }

  /** An indicator that grows loses weight exactly when a method of less weight comes to shadow the one it had. */
  lemma {:induction false} GrownIndicatorLosesIff(b: string, a: string)
    requires Contains(b, a)
    ensures IndicatorWeight(b) < IndicatorWeight(a) <==> Shadowed(b, a)
  {
    hide Contains, Lower;
    MarkCarriesOver(b, a, "eth_signtypeddata_v4");
    MarkCarriesOver(b, a, "personal_sign");
    MarkCarriesOver(b, a, "wallet_addethereumchain");
    MarkCarriesOver(b, a, "wallet_watchasset");
    MarkCarriesOver(b, a, "setapprovalforall");
  }

  lemma {:induction false} MarkCarriesOver(b: string, a: string, marker: string)
    requires Contains(b, a)
    ensures Marks(a, marker) ==> Marks(b, marker)
  {
    if Marks(a, marker) { TermCarriesOver(b, a, marker); }
  }

  lemma {:induction false} ReplacedSum(indicators: seq<string>, j: nat, x: string)
    requires j < |indicators|
    ensures Sum(MethodHits(indicators[j := x]))
         == Sum(MethodHits(indicators)) + IndicatorWeight(x) - IndicatorWeight(indicators[j])
  {
    hide MethodHit, Sum;
    var n := |indicators| - 1;
    var (old_, new_) := (indicators, indicators[j := x]);
    LastIndicator(old_);
    LastIndicator(new_);
    if j == n {
      assert new_[..n] == old_[..n];
    } else {
      ReplacedSum(old_[..n], j, x);
      assert new_[..n] == old_[..n][j := x];
    }
  }

  lemma {:induction false} LastIndicator(indicators: seq<string>)
    requires indicators != []
    ensures Sum(MethodHits(indicators))
         == Sum(MethodHits(indicators[..|indicators| - 1])) + IndicatorWeight(indicators[|indicators| - 1])
  {
  }

  function Replaced(input: Inputs, j: nat, x: string): Inputs
    requires j < |input.indicators|
  {
    input.(indicators := input.indicators[j := x])
  }

  lemma {:induction false} ReplacedRaw(input: Inputs, j: nat, x: string, d: Dictionaries)
    requires j < |input.indicators|
    ensures Raw(Replaced(input, j, x), d) == Raw(input, d) + IndicatorWeight(x) - IndicatorWeight(input.indicators[j])
  {
    hide Sum, LocalHits, MethodHits, SldBonus, Min, IndicatorWeight;
    ReplacedSum(input.indicators, j, x);
    assert Sources(Replaced(input, j, x)) == Sources(input);
  }

  /**
   * Growing one indicator lowers the score exactly if the host is not exempt, the indicator comes to be
   * shadowed, and the uncut score is then below the overall cut of 1.5.
   */
  lemma {:induction false} GrownIndicatorLowersScoreIff(input: Inputs, j: nat, b: string, d: Dictionaries)
    requires j < |input.indicators| && Contains(b, input.indicators[j])
    ensures ScoreOf(Replaced(input, j, b), d) < ScoreOf(input, d)
      <==> !input.inBrandgraph && Shadowed(b, input.indicators[j]) && Raw(Replaced(input, j, b), d) < 1.5
  {
    hide Raw, IndicatorWeight, Shadowed, Contains;
    ReplacedRaw(input, j, b, d);
    GrownIndicatorLosesIff(b, input.indicators[j]);
  }

  const SHORT: string := "setApprovalForAll"
  const MORE: string := " personal_sign"

  lemma {:induction false} LacksChar(s: string, sub: string, c: char)
    requires c in sub && c !in s
    ensures !Contains(s, sub)
  {
  }

  lemma {:induction false} Appended(s: string, t: string)
    ensures Contains(s + t, s) && Contains(s + t, t)
  {
    assert OccursAt(s + t, s, 0) && OccursAt(s + t, t, |s|);
  }

  lemma {:induction false} LowerAppended(s: string, t: string)
    ensures Lower(s + t) == Lower(s) + Lower(t)
  {
  }

  lemma {:induction false} LowerWords()
    ensures Lower(SHORT) == "setapprovalforall" && Lower(MORE) == " personal_sign"
  {
  }

  lemma {:induction false} ShortMarks()
    ensures Marks(SHORT, "setapprovalforall") && !Marks(SHORT, "personal_sign") && !Marks(SHORT, "wallet_watchasset")
  {
    hide Contains, Lower;
    LowerWords();
    LacksChar("setapprovalforall", "personal_sign", '_');
    LacksChar("setapprovalforall", "wallet_watchasset", '_');
    Appended("setapprovalforall", "");
    assert "setapprovalforall" + "" == "setapprovalforall";
  }

  lemma {:induction false} LongMarks()
    ensures Marks(SHORT + MORE, "personal_sign") && !Marks(SHORT + MORE, "eth_signtypeddata_v4")
  {
    hide Contains, Lower;
    LowerAppended(SHORT, MORE);
    LowerWords();
    LacksChar("setapprovalforall" + " personal_sign", "eth_signtypeddata_v4", '4');
    Appended("setapprovalforall" + " ", "personal_sign");
    assert "setapprovalforall" + " " + "personal_sign" == "setapprovalforall" + " personal_sign";
  }

  lemma {:induction false} LongIsShadowed()
    ensures Contains(SHORT + MORE, SHORT) && Shadowed(SHORT + MORE, SHORT)
  {
    hide Contains, Marks;
    Appended(SHORT, MORE);
    ShortMarks();
    LongMarks();
  }

  /** An indicator "setApprovalForAll" that grows a "personal_sign" lowers every score up to the cut. */
  lemma {:induction false} GrownIndicatorLowersScore(input: Inputs, j: nat, d: Dictionaries)
    requires j < |input.indicators| && input.indicators[j] == SHORT && !input.inBrandgraph && Raw(input, d) <= 1.5
    ensures ScoreOf(Replaced(input, j, SHORT + MORE), d) < ScoreOf(input, d)
  {
    hide Raw, Shadowed, Contains, IndicatorWeight;
    LongIsShadowed();
    ReplacedRaw(input, j, SHORT + MORE, d);
    GrownIndicatorLosesIff(SHORT + MORE, SHORT);
    GrownIndicatorLowersScoreIff(input, j, SHORT + MORE, d);
  }

  // ----- the score in numbers

  /** The term occurs in one of the five texts, lower-cased. */
  predicate Occurs(i: Inputs, term: string) {
    || (i.url != "" && Contains(Lower(i.url), term)) || (i.sld != "" && Contains(Lower(i.sld), term))
    || (i.title != "" && Contains(Lower(i.title), term)) || (i.visible != "" && Contains(Lower(i.visible), term))
    || (i.ocr != "" && Contains(Lower(i.ocr), term))
  }

  /** The weights of the phrases that occur. */
  function FoundWeight(i: Inputs, ps: seq<Phrase>): real {
    if ps == [] then 0.0
    else FoundWeight(i, ps[..|ps| - 1]) + (if Occurs(i, ps[|ps| - 1].term) then ps[|ps| - 1].weight else 0.0)
  }

  lemma {:induction false} LocalSum(i: Inputs, ps: seq<Phrase>, cat: Category)
    ensures Sum(LocalHits(Sources(i), ps, cat)) == FoundWeight(i, ps)
  {
    hide Contains, Sources, FoundIn, Lower;
    if ps != [] {
      var (front, p) := (ps[..|ps| - 1], ps[|ps| - 1]);
      LocalSum(i, front, cat);
      FoundIff(i, p.term);
      var f := FoundIn(Sources(i), p.term);
      if f.Some? {
        SumConcat(LocalHits(Sources(i), front, cat), [Hit(cat, p.term, p.weight, f.value)]);
        SumOne(Hit(cat, p.term, p.weight, f.value));
      }
    }
  }

  /** The hit of an indicator, by the first method in this order that occurs in it. */
  lemma {:induction false} MethodHitIs(x: string)
    ensures Marks(x, "eth_signtypeddata_v4") ==>
      MethodHit(x) == Some(Hit(WalletMethod, "eth_signTypedData_v4", 0.25, "script"))
    ensures !Marks(x, "eth_signtypeddata_v4") && Marks(x, "personal_sign") ==>
      MethodHit(x) == Some(Hit(WalletMethod, "personal_sign", 0.15, "script"))
    ensures !Marks(x, "eth_signtypeddata_v4") && !Marks(x, "personal_sign") ==>
      && (Marks(x, "wallet_addethereumchain") ==>
            MethodHit(x) == Some(Hit(WalletMethod, "wallet_addEthereumChain", 0.20, "script")))
      && (!Marks(x, "wallet_addethereumchain") && Marks(x, "wallet_watchasset") ==>
            MethodHit(x) == Some(Hit(WalletMethod, "wallet_watchAsset", 0.15, "script")))
      && (!Marks(x, "wallet_addethereumchain") && !Marks(x, "wallet_watchasset") && Marks(x, "setapprovalforall") ==>
            MethodHit(x) == Some(Hit(WalletMethod, "setApprovalForAll", 0.20, "script")))
      && (!Marks(x, "wallet_addethereumchain") && !Marks(x, "wallet_watchasset") && !Marks(x, "setapprovalforall") ==>
            MethodHit(x) == None)
  {
    hide Contains, Lower;
  }

  function IndicatorWeights(indicators: seq<string>): real {
    if indicators == [] then 0.0
    else IndicatorWeights(indicators[..|indicators| - 1]) + IndicatorWeight(indicators[|indicators| - 1])
  }

  lemma {:induction false} MethodSum(indicators: seq<string>)
    ensures Sum(MethodHits(indicators)) == IndicatorWeights(indicators)
  {
    hide IndicatorWeight;
    if indicators != [] {
      LastIndicator(indicators);
      MethodSum(indicators[..|indicators| - 1]);
    }
  }

  /** How many of the tokens occur in the text. */
  function Occurrences(text: string, tokens: seq<string>): set<nat> {
    set k: nat | k < |tokens| && Contains(text, tokens[k])
  }

  lemma {:induction false} OccurringCount(text: string, tokens: seq<string>)
    ensures |Occurring(text, tokens)| == |Occurrences(text, tokens)|
  {
    hide Contains;
    if tokens != [] {
      var (front, n) := (tokens[..|tokens| - 1], |tokens| - 1);
      OccurringCount(text, front);
      assert Occurrences(text, tokens) ==
        if Contains(text, tokens[n]) then Occurrences(text, front) + {n} else Occurrences(text, front);
    }
  }

  /** One lure with one brand gives 0.20, more pairs 0.40; without a brand two lures give 0.30. */
  lemma {:induction false} BonusIs(lures: nat, brands: nat)
    ensures lures >= 1 && brands >= 1 ==> Bonus(lures, brands) == if lures == 1 && brands == 1 then 0.20 else 0.40
    ensures brands == 0 ==> Bonus(lures, brands) == if lures >= 2 then 0.30 else 0.0
    ensures lures == 0 ==> Bonus(lures, brands) == 0.0
  {
    if lures >= 1 && brands >= 1 && !(lures == 1 && brands == 1) { assert lures * brands >= 2; }
  }

  function AtMost(x: real, cap: real): real { if x <= cap then x else cap }

  /**
   * The score in numbers: nothing for an exempt host; else the phrase weights of the five categories, each cut
   * at its cap, the indicator weights and the bonus, together cut at 1.5.
   */
  lemma {:induction false} ScoreInNumbers(i: Inputs, d: Dictionaries)
    ensures i.inBrandgraph ==> ScoreOf(i, d) == 0.0
    ensures !i.inBrandgraph ==>
      ScoreOf(i, d) ==
      AtMost(AtMost(FoundWeight(i, d.airdrop), 0.35) + AtMost(FoundWeight(i, d.revoke), 0.30)
             + AtMost(FoundWeight(i, d.mint), 0.30) + AtMost(FoundWeight(i, d.wallet), 0.25)
             + AtMost(FoundWeight(i, d.defi), 0.25) + IndicatorWeights(i.indicators)
             + (if i.sld == "" then 0.0
                else Bonus(|Occurrences(Lower(i.sld), d.lures)|, |Occurrences(Lower(i.sld), d.brands)|)), 1.5)
  {
    hide Sum, LocalHits, MethodHits, Sources, Bonus, Occurring, Occurrences;
    LocalSum(i, d.airdrop, AirdropLure);
    LocalSum(i, d.revoke, RevokePermissionsLure);
    LocalSum(i, d.mint, FakeMintLure);
    LocalSum(i, d.wallet, WalletConnectLure);
    LocalSum(i, d.defi, FakeDeFiBrand);
    MethodSum(i.indicators);
    OccurringCount(Lower(i.sld), d.lures);
    OccurringCount(Lower(i.sld), d.brands);
  }

  /** A phrase is reported with the first text, in this order, in which it occurs. */
  lemma {:induction false} ReportedSource(i: Inputs, term: string)
    ensures InText(i.url, term) ==> FoundIn(Sources(i), term) == Some("url")
    ensures !InText(i.url, term) && InText(i.sld, term) ==> FoundIn(Sources(i), term) == Some("sld")
    ensures !InText(i.url, term) && !InText(i.sld, term) ==>
      && (InText(i.title, term) ==> FoundIn(Sources(i), term) == Some("title"))
      && (!InText(i.title, term) && InText(i.visible, term) ==> FoundIn(Sources(i), term) == Some("visible"))
      && (!InText(i.title, term) && !InText(i.visible, term) ==>
            FoundIn(Sources(i), term) == if InText(i.ocr, term) then Some("ocr") else None)
  {
    hide FoundIn, OneSource, InText;
    var (a, b, c, d, e) := (OneSource("url", i.url), OneSource("sld", i.sld), OneSource("title", i.title),
                            OneSource("visible", i.visible), OneSource("ocr", i.ocr));
    FirstOf(a + b + c + d, e, term);
    FirstOf(a + b + c, d, term);
    FirstOf(a + b, c, term);
    FirstOf(a, b, term);
    OneIs("url", i.url, term);
    OneIs("sld", i.sld, term);
    OneIs("title", i.title, term);
    OneIs("visible", i.visible, term);
    OneIs("ocr", i.ocr, term);
  }

  lemma {:induction false} OneIs(name: string, text: string, term: string)
    ensures FoundIn(OneSource(name, text), term) == if InText(text, term) then Some(name) else None
  {
    hide Contains, Lower;
  }

  lemma {:induction false} FirstOf(x: seq<Source>, y: seq<Source>, term: string)
    ensures FoundIn(x + y, term) == if FoundIn(x, term).Some? then FoundIn(x, term) else FoundIn(y, term)
  {
    hide Contains;
    if x == [] {
      assert x + y == y;
    } else {
      FirstOf(x[1..], y, term);
      assert (x + y)[1..] == x[1..] + y;
    }
  }

  /** The hits of a category that exceeds its cap keep their proportions. */
  lemma {:induction false} HitsAreScaled(sources: seq<Source>, ps: seq<Phrase>, cat: Category, cap: real, k: nat)
    requires cap >= 0.0 && k < |LocalHits(sources, ps, cat)|
    ensures var (local, hits) := (LocalHits(sources, ps, cat), CategoryHits(sources, ps, cat, cap));
      && |hits| == |local| && hits[k].(weight := local[k].weight) == local[k]
      && (Sum(local) <= cap ==> hits[k].weight == local[k].weight)
      && (Sum(local) > cap ==> hits[k].weight == local[k].weight * (cap / Sum(local)))
  {
    hide LocalHits, Sum;
  }

  /** A phrase gives a hit, with its own weight and its source, exactly if it occurs. */
  lemma {:induction false} HitsAreFound(i: Inputs, ps: seq<Phrase>, cat: Category)
    ensures forall h :: h in LocalHits(Sources(i), ps, cat) <==>
      exists p :: p in ps && Occurs(i, p.term) && h.category == cat && h.phrase == p.term && h.weight == p.weight
                  && FoundIn(Sources(i), p.term) == Some(h.source)
  {
    hide Contains, Sources, FoundIn, Lower, Occurs;
    if ps != [] {
      var (front, p) := (ps[..|ps| - 1], ps[|ps| - 1]);
      HitsAreFound(i, front, cat);
      OccursIff(i, p.term);
      assert ps == front + [p];
    }
  }

  lemma {:induction false} OccursIff(i: Inputs, term: string)
    ensures Occurs(i, term) <==> FoundIn(Sources(i), term).Some?
  {
    hide Contains, Sources, FoundIn, Lower;
    FoundIff(i, term);
  }

  /** Nothing in front of `token` in the list occurs in the text, and it does itself. */
  predicate FirstThere(text: string, tokens: seq<string>, k: nat) {
    k < |tokens| && Contains(text, tokens[k]) && forall i :: 0 <= i < k ==> !Contains(text, tokens[i])
  }

  lemma {:induction false} FirstOccurring(text: string, tokens: seq<string>, k: nat)
    requires FirstThere(text, tokens, k)
    ensures Occurring(text, tokens) != [] && Occurring(text, tokens)[0] == tokens[k]
  {
    hide Contains;
    var front := tokens[..|tokens| - 1];
    if k < |front| {
      FirstOccurring(text, front, k);
    } else {
      NoneOccurring(text, front);
    }
  }

  lemma {:induction false} NoneOccurring(text: string, tokens: seq<string>)
    requires forall i :: 0 <= i < |tokens| ==> !Contains(text, tokens[i])
    ensures Occurring(text, tokens) == []
  {
    hide Contains;
    if tokens != [] { NoneOccurring(text, tokens[..|tokens| - 1]); }
  }

  /** The hit that reports the bonus of a lure with a brand names the first of each in their lists. */
  lemma {:induction false} BonusHitNames(sld: string, d: Dictionaries, k: nat, m: nat)
    requires sld != "" && FirstThere(Lower(sld), d.lures, k) && FirstThere(Lower(sld), d.brands, m)
    ensures BonusHits(sld, d) ==
      [Hit(FakeDeFiBrand, d.lures[k] + " + " + d.brands[m], SldBonus(sld, d), "sld_composite")]
  {
    hide Contains, Occurring, FirstThere;
    FirstOccurring(Lower(sld), d.lures, k);
    FirstOccurring(Lower(sld), d.brands, m);
  }

  /** Without a brand the hit names the first two lures. */
  lemma {:induction false} LureHitNames(sld: string, d: Dictionaries, k: nat, m: nat)
    requires sld != "" && FirstThere(Lower(sld), d.lures, k) && k < m < |d.lures| && Contains(Lower(sld), d.lures[m])
    requires forall i :: k < i < m ==> !Contains(Lower(sld), d.lures[i])
    requires forall i :: 0 <= i < |d.brands| ==> !Contains(Lower(sld), d.brands[i])
    ensures BonusHits(sld, d) == [Hit(AirdropLure, d.lures[k] + " + " + d.lures[m], 0.30, "sld_composite")]
  {
    hide Contains, Occurring, Lower;
    NoneOccurring(Lower(sld), d.brands);
    FirstOccurring(Lower(sld), d.lures[..m], k);
    SecondOccurring(Lower(sld), d.lures, k, m);
  }

  lemma {:induction false} SecondOccurring(text: string, tokens: seq<string>, k: nat, m: nat)
    requires FirstThere(text, tokens, k) && k < m < |tokens| && Contains(text, tokens[m])
    requires forall i :: k < i < m ==> !Contains(text, tokens[i])
    ensures |Occurring(text, tokens)| >= 2
    ensures Occurring(text, tokens)[0] == tokens[k] && Occurring(text, tokens)[1] == tokens[m]
  {
    hide Contains;
    var front := tokens[..|tokens| - 1];
    if m < |front| { SecondOccurring(text, front, k, m); } else { OneOccurring(text, front, k); }
  }

  lemma {:induction false} OneOccurring(text: string, tokens: seq<string>, k: nat)
    requires FirstThere(text, tokens, k) && forall i :: k < i < |tokens| ==> !Contains(text, tokens[i])
    ensures Occurring(text, tokens) == [tokens[k]]
  {
    hide Contains;
    var front := tokens[..|tokens| - 1];
    if k < |front| { OneOccurring(text, front, k); } else { NoneOccurring(text, front); }
  }
}
