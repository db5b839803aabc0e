/**
 * ct-monitor: the two-row edit distance and the keyword matcher built on it.
 * The reference notion is independent of any table: the least number of single-character
 * insertions, deletions and substitutions that turn one text into another.
 */
module EditDistance {
  import opened Text

  datatype Edit = Insert(at: nat, c: char) | Delete(at: nat) | Substitute(at: nat, c: char)

  predicate Fits(e: Edit, s: string) {
    match e
    case Insert(at, _) => at <= |s|
    case Delete(at) => at < |s|
    case Substitute(at, _) => at < |s|
  }

  function Edited(e: Edit, s: string): string
    requires Fits(e, s)
  {
    match e
    case Insert(at, c) => s[..at] + [c] + s[at..]
    case Delete(at) => s[..at] + s[at + 1..]
    case Substitute(at, c) => s[at := c]
  }

  /** Performing the edits of `script` from left to right turns `a` into `b`. */
  predicate Turns(script: seq<Edit>, a: string, b: string) {
    if script == [] then a == b
    else Fits(script[0], a) && Turns(script[1..], Edited(script[0], a), b)
  }

  ghost predicate IsEditDistance(a: string, b: string, n: nat) {
    && (exists script :: Turns(script, a, b) && |script| == n)
    && (forall script :: Turns(script, a, b) ==> n <= |script|)
  }

  // ----- the recurrence the table fills in

  function Cost(x: char, y: char): (c: nat)
    ensures c <= 1
  {
    if x == y then 0 else 1
  }

  function Min3(x: nat, y: nat, z: nat): nat {
    var m := if y < x then y else x;
    if z < m then z else m
  }

  /** The distance of the first `i` characters of `a` from the first `j` of `b`. */
  function Cell(a: string, b: string, i: nat, j: nat): nat
    requires i <= |a| && j <= |b|
  {
    if i == 0 then j
    else if j == 0 then i
    else Min3(Cell(a, b, i, j - 1) + 1, Cell(a, b, i - 1, j) + 1, Cell(a, b, i - 1, j - 1) + Cost(a[i - 1], b[j - 1]))
  }

  function Dist(a: string, b: string): nat { Cell(a, b, |a|, |b|) }

  /** A cell depends on the two prefixes only. */
  lemma {:induction false} CellOfPrefixes(a: string, b: string, c: string, d: string, i: nat, j: nat)
    requires i <= |a| && j <= |b| && i <= |c| && j <= |d|
    requires forall k :: 0 <= k < i ==> a[k] == c[k]
    requires forall k :: 0 <= k < j ==> b[k] == d[k]
    ensures Cell(a, b, i, j) == Cell(c, d, i, j)
    decreases i + j
  {
    hide Min3, Cost;
    if i != 0 && j != 0 {
      CellOfPrefixes(a, b, c, d, i, j - 1);
      CellOfPrefixes(a, b, c, d, i - 1, j);
      CellOfPrefixes(a, b, c, d, i - 1, j - 1);
    }
  }

  lemma {:induction false} TurnsConcat(p: seq<Edit>, q: seq<Edit>, a: string, b: string, c: string)
    requires Turns(p, a, b) && Turns(q, b, c)
    ensures Turns(p + q, a, c)
  {
    if p == [] {
      assert p + q == q;
    } else {
      TurnsConcat(p[1..], q, Edited(p[0], a), b, c);
      assert (p + q)[1..] == p[1..] + q;
    }
  }

  /** An edit of the front part leaves the last character alone. */
  lemma {:induction false} EditedInFront(e: Edit, s: string, x: char)
    requires Fits(e, s)
    ensures Fits(e, s + [x]) && Edited(e, s + [x]) == Edited(e, s) + [x]
  {
  }

  /** A script keeps working in front of one more character. */
  lemma {:induction false} TurnsInFront(script: seq<Edit>, a: string, b: string, x: char)
    requires Turns(script, a, b)
    ensures Turns(script, a + [x], b + [x])
  {
    if script != [] {
      EditedInFront(script[0], a, x);
      TurnsInFront(script[1..], Edited(script[0], a), b, x);
    }
  }

  lemma {:induction false} Single(e: Edit, a: string)
    requires Fits(e, a)
    ensures Turns([e], a, Edited(e, a))
  {
  }

  lemma {:induction false} InsertLast(p: seq<Edit>, a: string, b: string, y: char)
    requires Turns(p, a, b)
    ensures Turns(p + [Insert(|b|, y)], a, b + [y])
  {
    var e := Insert(|b|, y);
    Single(e, b);
    assert b[..|b|] + [y] + b[|b|..] == b + [y];
    TurnsConcat(p, [e], a, b, b + [y]);
  }

  lemma {:induction false} DeleteFirst(p: seq<Edit>, a: string, x: char, b: string)
    requires Turns(p, a, b)
    ensures Turns([Delete(|a|)] + p, a + [x], b)
  {
    var e := Delete(|a|);
    Single(e, a + [x]);
    assert Edited(e, a + [x]) == a;
    TurnsConcat([e], p, a + [x], a, b);
  }

  lemma {:induction false} SubstituteLast(p: seq<Edit>, a: string, b: string, x: char, y: char)
    requires Turns(p, a, b)
    ensures Turns(p + [Substitute(|b|, y)], a + [x], b + [y])
  {
    var e := Substitute(|b|, y);
    TurnsInFront(p, a, b, x);
    Single(e, b + [x]);
    assert Edited(e, b + [x]) == b + [y];
    TurnsConcat(p, [e], a + [x], b + [x], b + [y]);
  }

  lemma {:induction false} DistStep(a: string, x: char, b: string, y: char)
    ensures Dist(a + [x], b + [y]) == Min3(Dist(a + [x], b) + 1, Dist(a, b + [y]) + 1, Dist(a, b) + Cost(x, y))
  {
    hide Cell;
    var (s, t) := (a + [x], b + [y]);
    CellStep(s, t, |s|, |t|);
    CellOfPrefixes(s, t, s, b, |s|, |b|);
    CellOfPrefixes(s, t, a, t, |a|, |t|);
    CellOfPrefixes(s, t, a, b, |a|, |b|);
  }

  lemma {:induction false} DistEdge(a: string, b: string)
    requires a == [] || b == []
    ensures Dist(a, b) == |a| + |b|
  {
  }

  /** Some script has exactly `Dist(a, b)` edits. */
  lemma {:induction false} Achieved(a: string, b: string) returns (script: seq<Edit>)
    ensures Turns(script, a, b) && |script| == Dist(a, b)
    decreases |a| + |b|, 1
  {
    if a == [] && b == [] {
      script := [];
      DistEdge(a, b);
    } else if a == [] {
      hide Dist, Turns;
      var (b', y) := (b[..|b| - 1], b[|b| - 1]);
      script := Achieved(a, b');
      InsertLast(script, a, b', y);
      script := script + [Insert(|b'|, y)];
      assert b' + [y] == b;
      DistEdge(a, b);
      DistEdge(a, b');
    } else if b == [] {
      hide Dist, Turns;
      var (a', x) := (a[..|a| - 1], a[|a| - 1]);
      script := Achieved(a', b);
      DeleteFirst(script, a', x, b);
      script := [Delete(|a'|)] + script;
      assert a' + [x] == a;
      DistEdge(a, b);
      DistEdge(a', b);
    } else {
      hide Dist, Turns;
      var (a', x, b', y) := (a[..|a| - 1], a[|a| - 1], b[..|b| - 1], b[|b| - 1]);
      assert a == a' + [x] && b == b' + [y];
      script := AchievedInside(a', x, b', y);
    }
  }

  lemma {:induction false} AchievedInside(a: string, x: char, b: string, y: char) returns (script: seq<Edit>)
    ensures Turns(script, a + [x], b + [y]) && |script| == Dist(a + [x], b + [y])
    decreases |a| + |b| + 2, 0
  {
    DistStep(a, x, b, y);
    if Dist(a + [x], b + [y]) == Dist(a + [x], b) + 1 {
      script := Achieved(a + [x], b);
      InsertLast(script, a + [x], b, y);
      script := script + [Insert(|b|, y)];
    } else if Dist(a + [x], b + [y]) == Dist(a, b + [y]) + 1 {
      script := Achieved(a, b + [y]);
      DeleteFirst(script, a, x, b + [y]);
      script := [Delete(|a|)] + script;
    } else {
      script := Achieved(a, b);
      if x == y {
        TurnsInFront(script, a, b, x);
      } else {
        SubstituteLast(script, a, b, x, y);
        script := script + [Substitute(|b|, y)];
      }
    }
  }

  /** Taking back the last character of the left text costs at most one. */
  lemma {:induction false} DropLast(s: string, c: char, b: string)
    ensures Dist(s, b) <= 1 + Dist(s + [c], b)
    decreases |b|
  {
    if b != [] {
      var (b', y) := (b[..|b| - 1], b[|b| - 1]);
      assert b == b' + [y];
      DropLast(s, c, b');
      DistStep(s, c, b', y);
      GrowRight(s, b', y);
    }
  }

  lemma {:induction false} GrowRight(a: string, b: string, y: char)
    ensures Dist(a, b + [y]) <= Dist(a, b) + 1
  {
    if a != [] {
      assert a == a[..|a| - 1] + [a[|a| - 1]];
      DistStep(a[..|a| - 1], a[|a| - 1], b, y);
    }
  }

  lemma {:induction false} GrowLeft(a: string, x: char, b: string)
    ensures Dist(a + [x], b) <= Dist(a, b) + 1
  {
    if b != [] {
      assert b == b[..|b| - 1] + [b[|b| - 1]];
      DistStep(a, x, b[..|b| - 1], b[|b| - 1]);
    }
  }

  /** Substituting the last character costs at most one. */
  lemma {:induction false} SwapLast(s: string, x: char, c: char, b: string)
    ensures Dist(s + [x], b) <= 1 + Dist(s + [c], b)
    decreases |b|
  {
    if b != [] {
      var (b', y) := (b[..|b| - 1], b[|b| - 1]);
      assert b == b' + [y];
      SwapLast(s, x, c, b');
      DistStep(s, x, b', y);
      DistStep(s, c, b', y);
    }
  }

  /** An edit of the front part, in front of a common last character. */
  lemma {:induction false} EditInside(e: Edit, s: string, x: char, b: string)
    requires Fits(e, s)
    ensures Dist(s + [x], b) <= 1 + Dist(Edited(e, s) + [x], b)
    decreases |s| + 1 + |b|, 0
  {
    if b != [] {
      var (b', y) := (b[..|b| - 1], b[|b| - 1]);
      assert b == b' + [y];
      var t := Edited(e, s);
      EditInside(e, s, x, b');
      OneEdit(e, s, b);
      OneEdit(e, s, b');
      DistStep(s, x, b', y);
      DistStep(t, x, b', y);
    }
  }

  /** One edit changes the distance to a fixed text by at most one. */
  lemma {:induction false} OneEdit(e: Edit, s: string, b: string)
    requires Fits(e, s)
    ensures Dist(s, b) <= 1 + Dist(Edited(e, s), b)
    decreases |s| + |b|, 1
  {
    if e.at == |s| {
      assert Edited(e, s) == s + [e.c];
      DropLast(s, e.c, b);
    } else {
      var (s', x) := (s[..|s| - 1], s[|s| - 1]);
      assert s == s' + [x];
      if e.Insert? || e.at < |s'| {
        EditedInFront(e, s', x);
        EditInside(e, s', x, b);
      } else if e.Delete? {
        assert Edited(e, s) == s';
        GrowLeft(s', x, b);
      } else {
        assert Edited(e, s) == s' + [e.c];
        SwapLast(s', x, e.c, b);
      }
    }
  }

  lemma {:induction false} Diagonal(s: string, i: nat)
    requires i <= |s|
    ensures Cell(s, s, i, i) == 0
  {
    if i != 0 { Diagonal(s, i - 1); }
  }

  /** No script is shorter than `Dist(a, b)`. */
  lemma {:induction false} NotBeaten(script: seq<Edit>, a: string, b: string)
    requires Turns(script, a, b)
    ensures Dist(a, b) <= |script|
  {
    if script == [] {
      Diagonal(a, |a|);
    } else {
      OneEdit(script[0], a, b);
      NotBeaten(script[1..], Edited(script[0], a), b);
    }
  }

  /** The recurrence computes the minimum length of an edit script, and nothing else does. */
  lemma {:induction false} DistIsEditDistance(a: string, b: string, n: nat)
    ensures IsEditDistance(a, b, n) <==> n == Dist(a, b)
  {
    var s := Achieved(a, b);
    forall script | Turns(script, a, b) ensures Dist(a, b) <= |script| { NotBeaten(script, a, b); }
  }

  // ----- the distance is a metric

  lemma {:induction false} ZeroIffEqual(a: string, b: string, n: nat)
    requires IsEditDistance(a, b, n)
    ensures n == 0 <==> a == b
  {
  }

  function Undo(e: Edit, s: string): (u: Edit)
    requires Fits(e, s)
  {
    match e
    case Insert(at, c) => Delete(at)
    case Delete(at) => Insert(at, s[at])
    case Substitute(at, c) => Substitute(at, s[at])
  }

  lemma {:induction false} UndoUndoes(e: Edit, s: string)
    requires Fits(e, s)
    ensures Fits(Undo(e, s), Edited(e, s)) && Edited(Undo(e, s), Edited(e, s)) == s
  {
  }

  lemma {:induction false} Reversible(script: seq<Edit>, a: string, b: string) returns (back: seq<Edit>)
    requires Turns(script, a, b)
    ensures Turns(back, b, a) && |back| == |script|
  {
    if script == [] {
      back := [];
    } else {
      var mid := Edited(script[0], a);
      var u := Undo(script[0], a);
      UndoUndoes(script[0], a);
      var rest := Reversible(script[1..], mid, b);
      Single(u, mid);
      TurnsConcat(rest, [u], b, mid, a);
      back := rest + [u];
    }
  }

  lemma {:induction false} Symmetric(a: string, b: string, n: nat)
    requires IsEditDistance(a, b, n)
    ensures IsEditDistance(b, a, n)
  {
    var script :| Turns(script, a, b) && |script| == n;
    var back := Reversible(script, a, b);
    forall s | Turns(s, b, a) ensures n <= |s| {
      var s' := Reversible(s, b, a);
    }
  }

  lemma {:induction false} Triangle(a: string, b: string, c: string, m: nat, n: nat, k: nat)
    requires IsEditDistance(a, b, m) && IsEditDistance(b, c, n) && IsEditDistance(a, c, k)
    ensures k <= m + n
  {
    var p :| Turns(p, a, b) && |p| == m;
    var q :| Turns(q, b, c) && |q| == n;
    TurnsConcat(p, q, a, b, c);
  }

  lemma {:induction false} CellStep(a: string, b: string, i: nat, j: nat)
    requires 0 < i <= |a| && 0 < j <= |b|
    ensures Cell(a, b, i, j) ==
      Min3(Cell(a, b, i, j - 1) + 1, Cell(a, b, i - 1, j) + 1, Cell(a, b, i - 1, j - 1) + Cost(a[i - 1], b[j - 1]))
  {
  }

  lemma {:induction false} CellEdge(a: string, b: string, i: nat, j: nat)
    requires i <= |a| && j <= |b| && (i == 0 || j == 0)
    ensures Cell(a, b, i, j) == i + j
  {
  }

  lemma {:induction false} CellBounds(a: string, b: string, i: nat, j: nat)
    requires i <= |a| && j <= |b|
    ensures i - j <= Cell(a, b, i, j) && j - i <= Cell(a, b, i, j)
    ensures Cell(a, b, i, j) <= i || Cell(a, b, i, j) <= j
    decreases i + j
  {
    hide Cell;
    if i == 0 || j == 0 {
      CellEdge(a, b, i, j);
    } else {
      CellBounds(a, b, i, j - 1);
      CellBounds(a, b, i - 1, j);
      CellBounds(a, b, i - 1, j - 1);
      CellStep(a, b, i, j);
    }
  }

  /** The distance lies between the difference of the lengths and the longer length. */
  lemma {:induction false} LengthBounds(a: string, b: string, n: nat)
    requires IsEditDistance(a, b, n)
    ensures |a| - |b| <= n && |b| - |a| <= n
    ensures n <= |a| || n <= |b|
  {
    DistIsEditDistance(a, b, n);
    CellBounds(a, b, |a|, |b|);
  }

  // ----- the two-row algorithm

  lemma {:induction false} LeastOf(x: nat, y: nat, z: nat)
    ensures Min3(x, y, z) == if y < x then (if z < y then z else y) else if z < x then z else x
  {
  }

  method Levenshtein(a: string, b: string) returns (n: nat)
    ensures IsEditDistance(a, b, n)
  {
    hide Cell, IsEditDistance, Min3;
    if a == b {
      Diagonal(a, |a|);
      DistIsEditDistance(a, b, 0);
      return 0;
    }
    var prev, curr := new int[|b| + 1], new int[|b| + 1];
    for j := 0 to |b| + 1
      invariant forall k :: 0 <= k < j ==> prev[k] == k == Cell(a, b, 0, k)
    {
      prev[j] := j;
      CellEdge(a, b, 0, j);
    }
    for i := 1 to |a| + 1
      invariant prev != curr && prev.Length == curr.Length == |b| + 1
      invariant fresh(prev) && fresh(curr)
      invariant forall j {:trigger prev[j]} :: 0 <= j <= |b| ==> prev[j] == Cell(a, b, i - 1, j)
    {
      curr[0] := i;
      CellEdge(a, b, i, 0);
      for j := 1 to |b| + 1
        invariant forall k {:trigger prev[k]} :: 0 <= k <= |b| ==> prev[k] == Cell(a, b, i - 1, k)
        invariant forall k {:trigger curr[k]} :: 0 <= k < j ==> curr[k] == Cell(a, b, i, k)
      {
        var cost := 1;
        if a[i - 1] == b[j - 1] {
          cost := 0;
        }
        var m := curr[j - 1] + 1;
        if prev[j] + 1 < m {
          m := prev[j] + 1;
        }
        if prev[j - 1] + cost < m {
          m := prev[j - 1] + cost;
        }
        CellStep(a, b, i, j);
        assert m == Cell(a, b, i, j) by { LeastOf(curr[j - 1] + 1, prev[j] + 1, prev[j - 1] + cost); }
        curr[j] := m;
      }
      prev, curr := curr, prev;
    }
    n := prev[|b|];
    DistIsEditDistance(a, b, n);
  }

  // ----- the keyword matcher

  /** The label in front of the first dot. */
  function Core(domain: string): (core: string)
    ensures core <= domain && '.' !in core
    ensures core == domain || domain[|core|] == '.'
  {
    if domain == [] || domain[0] == '.' then [] else [domain[0]] + Core(domain[1..])
  }

  /** A keyword is hit when it occurs in the label or some script of at most two edits leads to it. */
  ghost predicate Hit(core: string, k: string) {
    k != "" && (Contains(core, k) || exists script :: Turns(script, core, k) && |script| <= 2)
  }

  lemma {:induction false} ContainsSelf(s: string)
    ensures Contains(s, s)
  {
    assert OccursAt(s, s, 0);
  }

  /** Returns the first hit in list order; the guard against equal texts never decides anything. */
  method Matches(domain: string, keywords: seq<string>) returns (hint: string, ok: bool)
    ensures ok <==> exists i :: 0 <= i < |keywords| && Hit(Core(domain), keywords[i])
    ensures ok ==> exists i :: 0 <= i < |keywords| && hint == keywords[i] && Hit(Core(domain), hint)
                     && forall j :: 0 <= j < i ==> !Hit(Core(domain), keywords[j])
    ensures !ok ==> hint == ""
  {
    var core := Core(domain);
    for i := 0 to |keywords|
      invariant forall j :: 0 <= j < i ==> !Hit(core, keywords[j])
    {
      var k := keywords[i];
      if k == "" {
        continue;
      }
      if Contains(core, k) {
        return k, true;
      }
      var d := Levenshtein(core, k);
      if d <= 2 && core != k {
        return k, true;
      }
      if core == k { ContainsSelf(k); }
    }
    return "", false;
  }
}
