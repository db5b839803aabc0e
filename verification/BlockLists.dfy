/** The resolver's lists: the never-block check and the Bloom prefilter with its loader. */
module NeverBlock {
  import opened Wrappers

  function FirstDot(s: string): (i: int)
    ensures i == -1 ==> '.' !in s
    ensures i != -1 ==> 0 <= i < |s| && s[i] == '.' && forall k :: 0 <= k < i ==> s[k] != '.'
  {
    if s == [] then -1 else if s[0] == '.' then 0
    else var i := FirstDot(s[1..]); if i == -1 then -1 else i + 1
  }

  /** `s` is what follows one of the dots of `domain`. */
  ghost predicate IsParent(domain: string, s: string) {
    exists i :: 0 <= i < |domain| && domain[i] == '.' && s == domain[i + 1..]
  }

  /** Listed itself, or below a listed parent that is not a shared-hosting suffix. */
  ghost predicate Covered(domain: string, listed: set<string>, shared: set<string>) {
    domain in listed || exists s :: s in listed && s !in shared && IsParent(domain, s)
  }

  method IsNeverBlock(domain: string, listed: Option<set<string>>, shared: set<string>) returns (b: bool)
    ensures b <==> listed.Some? && Covered(domain, listed.value, shared)
  {
    if listed.None? {
      return false;
    }
    var d := domain;
    ghost var k := 0;
    while true
      invariant k <= |domain| && d == domain[k..]
      invariant k == 0 || (domain[k - 1] == '.' && domain !in listed.value)
      invariant forall i :: 0 <= i < k - 1 && domain[i] == '.' ==> domain[i + 1..] !in listed.value - shared
      decreases |d|
    {
      if d in listed.value && !(d != domain && d in shared) {
        if k > 0 { assert IsParent(domain, d); }
        return true;
      }
      var i := FirstDot(d);
      if i < 0 {
        forall j | k <= j < |domain| ensures domain[j] != '.' { assert domain[j] == d[j - k]; }
        return false;
      }
      forall j | k <= j < k + i ensures domain[j] != '.' { assert domain[j] == d[j - k]; }
      d := d[i + 1..];
      k := k + i + 1;
    }
  }

  /** A tenant of a shared host is covered only through its own entry or through some other parent. */
  lemma {:induction false} TenantNeedsOwnEntry(domain: string, host: string, listed: set<string>, shared: set<string>)
    requires host in shared && domain !in listed
    ensures Covered(domain, listed, shared) <==> Covered(domain, listed - {host}, shared)
  {
  }
}

module BloomLoading {
  import opened Text

  // ----- lines

  /** `strings.Split(s, "\n")`. */
  function Split(s: string): (parts: seq<string>)
    ensures parts != []
  {
    if s == [] then [""] else Snoc(Split(s[..|s| - 1]), s[|s| - 1])
  }

  function Snoc(parts: seq<string>, c: char): (r: seq<string>)
    requires parts != []
    ensures r != []
  {
    if c == '\n' then parts + [""] else parts[..|parts| - 1] + [parts[|parts| - 1] + [c]]
  }

  function Item(part: string): seq<string> { if Trim(part) == "" then [] else [Trim(part)] }

  function Items(parts: seq<string>): seq<string> {
    if parts == [] then [] else Items(parts[..|parts| - 1]) + Item(parts[|parts| - 1])
  }

  /** The trimmed non-empty lines of a text. */
  function Lines(s: string): seq<string> { Items(Split(s)) }

  function Concat(chunks: seq<string>): string {
    if chunks == [] then "" else chunks[0] + Concat(chunks[1..])
  }

  /** What the loader adds: each read is split on its own. */
  function Loaded(chunks: seq<string>): seq<string> {
    if chunks == [] then [] else Lines(chunks[0]) + Loaded(chunks[1..])
  }

  function LastPart(s: string): string { Split(s)[|Split(s)| - 1] }
  function FirstPart(s: string): string { Split(s)[0] }

  /** At every boundary between reads, the line is blank on one side. */
  predicate CleanCuts(chunks: seq<string>) {
    |chunks| <= 1 ||
    ((AllBlank(LastPart(chunks[0])) || AllBlank(FirstPart(Concat(chunks[1..])))) && CleanCuts(chunks[1..]))
  }

  function Glued(parts: seq<string>): string
    requires parts != []
  {
    if |parts| == 1 then parts[0] else Glued(parts[..|parts| - 1]) + "\n" + parts[|parts| - 1]
  }

  lemma {:induction false} GluedSnoc(parts: seq<string>, c: char)
    requires parts != []
    ensures Glued(Snoc(parts, c)) == Glued(parts) + [c]
  {
    var (front, last) := (parts[..|parts| - 1], parts[|parts| - 1]);
    if c == '\n' {
      assert Snoc(parts, c)[..|parts|] == parts;
      assert Glued(parts) + "\n" + "" == Glued(parts) + [c];
    } else if front == [] {
      assert Snoc(parts, c) == [last + [c]];
    } else {
      assert Snoc(parts, c)[..|front|] == front;
      assert Glued(front) + "\n" + (last + [c]) == Glued(front) + "\n" + last + [c];
    }
  }

  /** The parts are the text between its line breaks. */
  lemma {:induction false} SplitIs(s: string)
    ensures Glued(Split(s)) == s && forall p :: p in Split(s) ==> '\n' !in p
  {
    hide Snoc, Glued;
    if s == [] {
      GluedOne("");
    } else {
      var (front, c) := (s[..|s| - 1], s[|s| - 1]);
      SplitIs(front);
      GluedSnoc(Split(front), c);
      SnocParts(Split(front), c);
    }
  }

  lemma {:induction false} GluedOne(p: string)
    ensures Glued([p]) == p
  {
  }

  lemma {:induction false} SnocParts(parts: seq<string>, c: char)
    requires parts != [] && forall p :: p in parts ==> '\n' !in p
    ensures forall p :: p in Snoc(parts, c) ==> '\n' !in p
  {
  }

  /** The lines are the parts that are not blank, trimmed. */
  lemma {:induction false} LinesIff(s: string, line: string)
    ensures line in Lines(s) <==> line != "" && exists p :: p in Split(s) && Trim(p) == line
  {
    hide Split, Trim;
    ItemsIff(Split(s), line);
  }

  lemma {:induction false} ItemsIff(parts: seq<string>, line: string)
    ensures line in Items(parts) <==> line != "" && exists p :: p in parts && Trim(p) == line
  {
    hide Trim;
    if parts != [] {
      ItemsIff(parts[..|parts| - 1], line);
      assert parts == parts[..|parts| - 1] + [parts[|parts| - 1]];
    }
  }

  // ----- splitting a concatenation

  /** Two line lists with the last line of the one and the first of the other run together. */
  function Joined(x: seq<string>, y: seq<string>): (r: seq<string>)
    requires x != [] && y != []
    ensures r != []
  {
    x[..|x| - 1] + [x[|x| - 1] + y[0]] + y[1..]
  }

  lemma {:induction false} JoinSnoc(x: seq<string>, y: seq<string>, c: char)
    requires x != [] && y != []
    ensures Snoc(Joined(x, y), c) == Joined(x, Snoc(y, c))
  {
    var (init, l, rest) := (x[..|x| - 1], x[|x| - 1], y[1..]);
    if c == '\n' {
      assert (y + [""])[1..] == rest + [""];
    } else if |y| == 1 {
      assert rest == [] && Joined(x, y) == init + [l + y[0]];
      assert l + y[0] + [c] == l + (y[0] + [c]);
    } else {
      var last := rest[|rest| - 1];
      assert Joined(x, y)[..|Joined(x, y)| - 1] == init + [l + y[0]] + rest[..|rest| - 1];
      assert Snoc(y, c)[1..] == rest[..|rest| - 1] + [last + [c]];
    }
  }

  lemma {:induction false} SplitConcat(a: string, b: string)
    ensures Split(a + b) == Joined(Split(a), Split(b))
  {
    hide Snoc, Joined;
    if b == [] {
      assert a + b == a;
      JoinNothing(Split(a));
    } else {
      SplitConcat(a, b[..|b| - 1]);
      assert (a + b)[..|a + b| - 1] == a + b[..|b| - 1];
      JoinSnoc(Split(a), Split(b[..|b| - 1]), b[|b| - 1]);
    }
  }

  lemma {:induction false} JoinNothing(x: seq<string>)
    requires x != []
    ensures Joined(x, [""]) == x
  {
    assert x[|x| - 1] + "" == x[|x| - 1];
  }

  lemma {:induction false} ItemsConcat(x: seq<string>, y: seq<string>)
    ensures Items(x + y) == Items(x) + Items(y)
  {
    hide Item;
    if y == [] {
      assert x + y == x;
    } else {
      ItemsConcat(x, y[..|y| - 1]);
      assert (x + y)[..|x + y| - 1] == x + y[..|y| - 1];
    }
  }

  lemma {:induction false} ItemsOne(p: string)
    ensures Items([p]) == Item(p)
  {
  }

  // ----- trimming

  lemma {:induction false} TrimLeftIs(s: string)
    ensures TrimLeft(s) == "" <==> AllBlank(s)
    ensures TrimLeft(s) != "" ==> !Blank(TrimLeft(s)[0])
  {
    if s != [] && Blank(s[0]) {
      TrimLeftIs(s[1..]);
      assert AllBlank(s) <==> AllBlank(s[1..]) by {
        if AllBlank(s[1..]) {
          forall i | 0 <= i < |s| ensures Blank(s[i]) { if i > 0 { assert s[i] == s[1..][i - 1]; } }
        }
      }
    }
  }

  lemma {:induction false} TrimLeftConcat(p: string, q: string)
    ensures TrimLeft(p + q) == if AllBlank(p) then TrimLeft(q) else TrimLeft(p) + q
  {
    if p == [] {
      assert p + q == q;
    } else if Blank(p[0]) {
      TrimLeftConcat(p[1..], q);
      assert (p + q)[1..] == p[1..] + q;
      assert AllBlank(p) <==> AllBlank(p[1..]) by {
        if AllBlank(p[1..]) {
          forall i | 0 <= i < |p| ensures Blank(p[i]) { if i > 0 { assert p[i] == p[1..][i - 1]; } }
        }
      }
    }
  }

  lemma {:induction false} TrimRightBlankTail(x: string, q: string)
    requires AllBlank(q)
    ensures TrimRight(x + q) == TrimRight(x)
  {
    if q == [] {
      assert x + q == x;
    } else {
      assert Blank((x + q)[|x + q| - 1]);
      assert (x + q)[..|x + q| - 1] == x + q[..|q| - 1];
      TrimRightBlankTail(x, q[..|q| - 1]);
    }
  }

  lemma {:induction false} TrimRightKeepsHead(x: string)
    requires x != "" && !Blank(x[0])
    ensures TrimRight(x) != ""
  {
    if Blank(x[|x| - 1]) { TrimRightKeepsHead(x[..|x| - 1]); }
  }

  lemma {:induction false} TrimIsEmptyIff(s: string)
    ensures Trim(s) == "" <==> AllBlank(s)
  {
    TrimLeftIs(s);
    if TrimLeft(s) != "" { TrimRightKeepsHead(TrimLeft(s)); }
  }

  /** Joining two partial lines yields the same items as taking them apart exactly when one is blank. */
  lemma {:induction false} ItemJoin(p: string, q: string)
    ensures AllBlank(p) || AllBlank(q) ==> Item(p + q) == Item(p) + Item(q)
    ensures !AllBlank(p) && !AllBlank(q) ==> |Item(p + q)| == 1 && |Item(p) + Item(q)| == 2
  {
    hide Trim, AllBlank;
    TrimIsEmptyIff(p);
    TrimIsEmptyIff(q);
    TrimIsEmptyIff(p + q);
    TrimJoin(p, q);
  }

  lemma {:induction false} TrimJoin(p: string, q: string)
    ensures AllBlank(p) ==> Trim(p + q) == Trim(q)
    ensures AllBlank(q) ==> Trim(p + q) == Trim(p)
    ensures AllBlank(p + q) <==> AllBlank(p) && AllBlank(q)
  {
    TrimLeftConcat(p, q);
    TrimLeftIs(p);
    TrimLeftIs(q);
    if AllBlank(q) { TrimRightBlankTail(TrimLeft(p), q); }
    if AllBlank(p + q) {
      forall i | 0 <= i < |p| ensures Blank(p[i]) { assert p[i] == (p + q)[i]; }
      forall i | 0 <= i < |q| ensures Blank(q[i]) { assert q[i] == (p + q)[|p| + i]; }
    }
  }

  // ----- reads against whole lines

  lemma {:induction false} TwoReads(a: string, b: string)
    ensures AllBlank(LastPart(a)) || AllBlank(FirstPart(b)) ==> Lines(a + b) == Lines(a) + Lines(b)
    ensures !AllBlank(LastPart(a)) && !AllBlank(FirstPart(b)) ==> |Lines(a)| + |Lines(b)| == |Lines(a + b)| + 1
  {
    hide Trim, AllBlank, Item, Split, Items;
    var (init, p, q, rest) := (Split(a)[..|Split(a)| - 1], LastPart(a), FirstPart(b), Split(b)[1..]);
    SplitConcat(a, b);
    ItemsAround(init, p + q, rest);
    assert Split(a) == init + [p] + [] && Split(b) == [] + [q] + rest;
    ItemsAround(init, p, []);
    ItemsAround([], q, rest);
    ItemsOfNothing();
    ItemJoin(p, q);
    assert Items(init) + Item(p) + (Item(q) + Items(rest)) == Items(init) + (Item(p) + Item(q)) + Items(rest);
    assert Lines(a) == Items(init) + Item(p) && Lines(b) == Item(q) + Items(rest);
  }

  lemma {:induction false} ItemsOfNothing()
    ensures Items([]) == []
  {
  }

  lemma {:induction false} ItemsAround(x: seq<string>, p: string, y: seq<string>)
    ensures Items(x + [p] + y) == Items(x) + Item(p) + Items(y)
  {
    hide Item;
    ItemsConcat(x + [p], y);
    ItemsConcat(x, [p]);
    ItemsOne(p);
  }

  lemma {:induction false} ReadsCount(chunks: seq<string>)
    ensures |Loaded(chunks)| >= |Lines(Concat(chunks))|
    ensures CleanCuts(chunks) ==> Loaded(chunks) == Lines(Concat(chunks))
    ensures !CleanCuts(chunks) ==> |Loaded(chunks)| > |Lines(Concat(chunks))|
  {
    hide Lines, LastPart, FirstPart, AllBlank;
    if chunks == [] {
      NoLines();
    } else {
      ReadsCount(chunks[1..]);
      TwoReads(chunks[0], Concat(chunks[1..]));
      if |chunks| == 1 {
        assert chunks[1..] == [];
        assert chunks[0] + "" == chunks[0];
        assert Loaded(chunks[1..]) == [];
        assert Lines(chunks[0]) + [] == Lines(chunks[0]);
      }
    }
  }

  lemma {:induction false} NoLines()
    ensures Lines("") == []
  {
  }

  /** Splitting every read on its own loads the file's lines exactly when no read boundary cuts a line in two. */
  lemma {:induction false} LoadedIsLinesIff(chunks: seq<string>)
    ensures Loaded(chunks) == Lines(Concat(chunks)) <==> CleanCuts(chunks)
  {
    ReadsCount(chunks);
  }

  // ----- the filter

  /** A Bloom filter over an arbitrary family of hash positions. */
  class BloomFilter {
    const hash: string -> set<nat>
    var bits: set<nat>
    ghost var added: seq<string>

    ghost predicate Valid()
      reads this
    {
      bits == Bits(hash, added)
    }

    constructor (hash: string -> set<nat>)
      ensures Valid() && this.hash == hash && added == []
    {
      this.hash, bits, added := hash, {}, [];
    }

    method AddString(s: string)
      requires Valid()
      modifies this
      ensures Valid() && added == old(added) + [s]
    {
      bits := bits + hash(s);
      assert (added + [s])[..|added|] == added;
      added := added + [s];
    }

    method TestString(s: string) returns (b: bool)
      requires Valid()
      ensures b <==> hash(s) <= Bits(hash, added)
    {
      b := hash(s) <= bits;
    }

    /** `loadBloom`: each element of `chunks` is what one read of the file delivered. */
    method Load(chunks: seq<string>)
      requires Valid() && added == []
      modifies this
      ensures Valid() && added == Loaded(chunks)
    {
      hide Split, Items, Loaded, Trim, Bits, Lines;
      LoadedPrefix(chunks, 0);
      for i := 0 to |chunks|
        invariant Valid() && added == Loaded(chunks[..i])
      {
        var parts := Split(chunks[i]);
        ghost var was := added;
        ItemsPrefix(parts, 0);
        for j := 0 to |parts|
          invariant Valid() && added == was + Items(parts[..j])
        {
          ItemsPrefix(parts, j);
          var line := Trim(parts[j]);
          if line != "" {
            AddString(line);
          }
        }
        assert parts[..|parts|] == parts;
        LoadedPrefix(chunks, i);
        LinesAre(chunks[i]);
      }
      assert chunks[..|chunks|] == chunks;
    }
  }

  lemma {:induction false} LinesAre(s: string)
    ensures Lines(s) == Items(Split(s))
  {
  }

  lemma {:induction false} ItemsPrefix(parts: seq<string>, j: nat)
    requires j <= |parts|
    ensures Items(parts[..0]) == []
    ensures j < |parts| ==> Items(parts[..j + 1]) == Items(parts[..j]) + Item(parts[j])
  {
    if j < |parts| { assert parts[..j + 1][..j] == parts[..j]; }
  }

  lemma {:induction false} LoadedPrefix(chunks: seq<string>, i: nat)
    requires i <= |chunks|
    ensures Loaded(chunks[..0]) == []
    ensures i < |chunks| ==> Loaded(chunks[..i + 1]) == Loaded(chunks[..i]) + Lines(chunks[i])
  {
    hide Lines;
    if i < |chunks| {
      LoadedAppend(chunks[..i], chunks[i]);
      assert chunks[..i + 1] == chunks[..i] + [chunks[i]];
    }
  }

  lemma {:induction false} LoadedAppend(chunks: seq<string>, c: string)
    ensures Loaded(chunks + [c]) == Loaded(chunks) + Lines(c)
  {
    hide Lines;
    if chunks != [] {
      LoadedAppend(chunks[1..], c);
      assert (chunks + [c])[1..] == chunks[1..] + [c];
    }
  }

  function Bits(hash: string -> set<nat>, added: seq<string>): set<nat> {
    if added == [] then {} else Bits(hash, added[..|added| - 1]) + hash(added[|added| - 1])
  }

  lemma {:induction false} NoFalseNegative(hash: string -> set<nat>, added: seq<string>, s: string)
    requires s in added
    ensures hash(s) <= Bits(hash, added)
  {
    if s != added[|added| - 1] {
      assert s in added[..|added| - 1];
      NoFalseNegative(hash, added[..|added| - 1], s);
    }
  }

  /** Prefilter and exact set together: what the resolver takes for strictly listed. */
  method StrictlyListed(bf: BloomFilter, strict: set<string>, domain: string) returns (b: bool)
    requires bf.Valid()
    ensures b <==> Decides(bf.hash, bf.added, strict, domain)
  {
    b := bf.TestString(domain);
    if b {
      b := domain in strict;
    }
  }

  predicate Decides(hash: string -> set<nat>, added: seq<string>, strict: set<string>, domain: string) {
    hash(domain) <= Bits(hash, added) && domain in strict
  }

  /** Every hash position of `d` is distinguished from those of all other strings. */
  function TellsApart(d: string): string -> set<nat> { s => if s == d then {1} else {0} }

  lemma {:induction false} OtherBits(d: string, added: seq<string>)
    requires d !in added
    ensures Bits(TellsApart(d), added) <= {0}
  {
    if added != [] {
      assert forall x :: x in added[..|added| - 1] ==> x in added;
      OtherBits(d, added[..|added| - 1]);
    }
  }

  /** Whatever the hash positions are, the decision is membership in the strict set. */
  ghost predicate DecidedRight(added: seq<string>, strict: set<string>, domain: string) {
    forall hash: string -> set<nat> :: Decides(hash, added, strict, domain) <==> domain in strict
  }

  /**
   * Whatever the hash positions, the decision for a domain is membership in the strict set exactly if the
   * domain is not in that set or was itself loaded, however the reads cut the other lines.
   */
  lemma {:induction false} DecisionIsMembershipIff(chunks: seq<string>, strict: set<string>, domain: string)
    ensures DecidedRight(Loaded(chunks), strict, domain) <==> (domain in strict ==> domain in Loaded(chunks))
  {
    hide Loaded, Bits;
    if domain in strict {
      if domain in Loaded(chunks) {
        forall hash ensures Decides(hash, Loaded(chunks), strict, domain) {
          NoFalseNegative(hash, Loaded(chunks), domain);
        }
      } else {
        OtherBits(domain, Loaded(chunks));
        assert !Decides(TellsApart(domain), Loaded(chunks), strict, domain) by {
          assert 1 in TellsApart(domain)(domain);
        }
      }
    }
  }

  /** When the file lists the strict set and no read cuts a line, the decision is exactly membership. */
  lemma {:induction false} DecisionIsMembership(hash: string -> set<nat>, chunks: seq<string>, strict: set<string>,
          domain: string)
    requires CleanCuts(chunks) && forall d :: d in strict ==> d in Lines(Concat(chunks))
    ensures Decides(hash, Loaded(chunks), strict, domain) <==> domain in strict
  {
    LoadedIsLinesIff(chunks);
    if domain in strict { NoFalseNegative(hash, Loaded(chunks), domain); }
  }

  predicate Plain(s: string) { s != "" && forall i :: 0 <= i < |s| ==> !Blank(s[i]) }

  function LengthHash(s: string): set<nat> { {|s|} }

  /** Any name cut in two by a read boundary is loaded as its two halves, and can get past the prefilter. */
  lemma {:induction false} CutLineCanBeMissed(a: string, b: string)
    requires Plain(a) && Plain(b)
    ensures Lines(Concat([a, b])) == [a + b] && Loaded([a, b]) == [a, b] && !CleanCuts([a, b])
    ensures forall hash :: Decides(hash, Loaded([a, b]), {a + b}, a + b) <==> hash(a + b) <= hash(a) + hash(b)
    ensures !Decides(LengthHash, Loaded([a, b]), {a + b}, a + b)
  {
    hide Split, Trim, AllBlank, CleanCuts, Items, Lines;
    PlainConcat(a, b);
    OneLine(a);
    OneLine(b);
    OneLine(a + b);
    TwoChunks(a, b);
    assert [a] + [b] == [a, b];
    forall hash ensures Bits(hash, [a, b]) == hash(a) + hash(b) { BitsOfTwo(hash, a, b); }
    assert |a + b| in LengthHash(a + b);
  }

  lemma {:induction false} PlainConcat(a: string, b: string)
    requires Plain(a) && Plain(b)
    ensures Plain(a + b)
  {
  }

  lemma {:induction false} TwoChunks(a: string, b: string)
    ensures Concat([a, b]) == a + b && Loaded([a, b]) == Lines(a) + Lines(b)
    ensures CleanCuts([a, b]) <==> AllBlank(LastPart(a)) || AllBlank(FirstPart(b))
  {
    hide Lines, AllBlank, LastPart, FirstPart;
    assert [a, b][1..] == [b] && [b][1..] == [];
    assert Concat([b]) == b + "" == b;
    assert Loaded([b]) == Lines(b) + [];
  }

  lemma {:induction false} BitsOfTwo(hash: string -> set<nat>, x: string, y: string)
    ensures Bits(hash, [x, y]) == hash(x) + hash(y)
  {
    assert [x, y][..1] == [x] && [x][..0] == [];
    assert Bits(hash, [x]) == {} + hash(x);
  }

  lemma {:induction false} OneLine(s: string)
    requires Plain(s)
    ensures Lines(s) == [s] && LastPart(s) == FirstPart(s) == s && !AllBlank(s)
  {
    hide Split, Items, Trim, AllBlank;
    SplitPlain(s);
    TrimPlain(s);
    ItemsOne(s);
  }

  lemma {:induction false} TrimPlain(s: string)
    requires Plain(s)
    ensures Trim(s) == s && !AllBlank(s) && '\n' !in s
  {
    assert !Blank(s[0]);
    assert forall i :: 0 <= i < |s| ==> s[i] != '\n';
  }

  lemma {:induction false} SplitPlain(s: string)
    requires '\n' !in s
    ensures Split(s) == [s]
  {
    hide Snoc;
    if s != [] {
      var (front, c) := (s[..|s| - 1], s[|s| - 1]);
      assert s == front + [c];
      SplitPlain(front);
      SnocOne(front, c);
    }
  }

  lemma {:induction false} SnocOne(f: string, c: char)
    requires c != '\n'
    ensures Snoc([f], c) == [f + [c]]
  {
  }
}
