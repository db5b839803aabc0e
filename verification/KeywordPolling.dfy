/**
 * ct-monitor: the round-robin cursor of the crt.sh fallback. Each tick queries up to ten keywords,
 * starting where the previous tick stopped. Keywords are denoted by their position in the list.
 */
module KeywordPolling {
  const PER_CYCLE: nat := 10

  function PerTick(n: nat): nat { if n < PER_CYCLE then n else PER_CYCLE }

  /** The positions met when walking `steps` places around a list of `n` from `start`. */
  function Walk(start: nat, steps: nat, n: nat): seq<nat>
    requires n > 0
  {
    seq(steps, p requires 0 <= p => (start + p) % n)
  }

  class Poller {
    var idx: nat

    constructor ()
      ensures idx == 0
    {
      idx := 0;
    }

    /** One tick over the current list; a failed query moves the cursor like a successful one. */
    method Tick<T>(kws: seq<T>) returns (queried: seq<nat>)
      modifies this
      ensures kws == [] ==> queried == [] && idx == old(idx)
      ensures kws != [] ==> queried == Walk(old(idx), PerTick(|kws|), |kws|)
      ensures kws != [] ==> idx == (old(idx) + PerTick(|kws|)) % |kws| < |kws|
      ensures forall p :: p in queried ==> p < |kws|
      ensures |queried| == (if |kws| < 10 then |kws| else 10)
      ensures forall p :: 0 <= p < |queried| ==> queried[p] == (old(idx) + p) % |kws|
      ensures kws != [] ==> idx == (old(idx) + |queried|) % |kws|
    {
      queried := [];
      if |kws| == 0 {
        return;
      }
      var start := idx;
      var count := 0;
      var n := 0;
      while n < |kws| && count < PER_CYCLE
        invariant n == count <= PerTick(|kws|)
        invariant queried == Walk(start, n, |kws|)
        invariant idx == if n == 0 then start else (start + n) % |kws|
      {
        queried := queried + [(start + n) % |kws|];
        idx := (start + n + 1) % |kws|;
        count := count + 1;
        n := n + 1;
      }
    }
  }

  // ----- arithmetic of the cursor

  lemma {:induction false} MulBounds(d: int, n: int)
    requires n > 0
    ensures d >= 1 ==> d * n >= n
    ensures d <= -1 ==> d * n <= -n
    ensures d == 0 ==> d * n == 0
  {
  }

  lemma {:induction false} ModUnique(a: int, q: int, r: int, n: int)
    requires 0 <= r < n && a == q * n + r
    ensures a % n == r && a / n == q
  {
    var (q', r') := (a / n, a % n);
    assert (q - q') * n == r' - r;
    MulBounds(q - q', n);
  }

  lemma {:induction false} ModAdd(a: nat, b: nat, n: nat)
    requires n > 0
    ensures (a % n + b) % n == (a + b) % n
  {
    var q := (a % n + b) / n;
    assert (a / n + q) * n == a / n * n + q * n;
    ModUnique(a + b, a / n + q, (a % n + b) % n, n);
  }

  /** Two places less than `n` apart are different positions. */
  lemma {:induction false} ModDistinct(a: nat, b: nat, n: nat)
    requires n > 0 && a < b < a + n
    ensures a % n != b % n
  {
    assert (b / n - a / n) * n == b - a + a % n - b % n;
    MulBounds(b / n - a / n, n);
  }

  // ----- runs over a fixed list

  function CursorAfter(idx: nat, ticks: nat, n: nat): nat
    requires n > 0
  {
    if ticks == 0 then idx else (CursorAfter(idx, ticks - 1, n) + PerTick(n)) % n
  }

  /** Everything queried by `ticks` consecutive ticks, in order. */
  function Queried(idx: nat, ticks: nat, n: nat): seq<nat>
    requires n > 0
  {
    if ticks == 0 then []
    else Queried(idx, ticks - 1, n) + Walk(CursorAfter(idx, ticks - 1, n), PerTick(n), n)
  }

  lemma {:induction false} CursorIsOffset(idx: nat, ticks: nat, n: nat)
    requires n > 0
    ensures CursorAfter(idx, ticks, n) % n == (idx + ticks * PerTick(n)) % n
  {
    if ticks != 0 {
      CursorIsOffset(idx, ticks - 1, n);
      OneMore(ticks, PerTick(n));
      Shift(CursorAfter(idx, ticks - 1, n), idx + (ticks - 1) * PerTick(n), PerTick(n), n);
    }
  }

  lemma {:induction false} OneMore(ticks: nat, m: nat)
    requires ticks != 0
    ensures (ticks - 1) * m + m == ticks * m
  {
  }

  /** Positions that agree modulo `n` still agree after the same number of steps. */
  lemma {:induction false} Shift(c: nat, d: nat, p: nat, n: nat)
    requires n > 0 && c % n == d % n
    ensures (c + p) % n == (d + p) % n == (c + p) % n % n
  {
    ModAdd(c, p, n);
    ModAdd(d, p, n);
    ModAdd(c + p, 0, n);
  }

  lemma {:induction false} WalksJoin(idx: nat, done: nat, c: nat, m: nat, n: nat)
    requires n > 0 && c % n == (idx + done) % n
    ensures Walk(idx, done, n) + Walk(c, m, n) == Walk(idx, done + m, n)
  {
    forall p: nat | p < m ensures Walk(c, m, n)[p] == Walk(idx, done + m, n)[done + p] {
      Shift(c, idx + done, p, n);
    }
  }

  /** Ticks do not overlap and leave nothing out: together they are one walk around the list. */
  lemma {:induction false} TicksAreOneWalk(idx: nat, ticks: nat, n: nat)
    requires n > 0
    ensures Queried(idx, ticks, n) == Walk(idx, ticks * PerTick(n), n)
  {
    if ticks != 0 {
      TicksAreOneWalk(idx, ticks - 1, n);
      CursorIsOffset(idx, ticks - 1, n);
      OneMore(ticks, PerTick(n));
      WalksJoin(idx, (ticks - 1) * PerTick(n), CursorAfter(idx, ticks - 1, n), PerTick(n), n);
    }
  }

  /** Within one tick no keyword is queried twice. */
  lemma {:induction false} TickIsDistinct(idx: nat, n: nat, i: nat, j: nat)
    requires n > 0 && i < j < PerTick(n)
    ensures Walk(idx, PerTick(n), n)[i] != Walk(idx, PerTick(n), n)[j]
  {
    ModDistinct(idx + i, idx + j, n);
  }

  /** Every position in range occurs among any `n` consecutive steps. */
  lemma {:induction false} WalkCovers(start: nat, n: nat, k: nat) returns (p: nat)
    requires k < n
    ensures p < n && (start + p) % n == k
  {
    var r := start % n;
    p := if r <= k then k - r else n - r + k;
    ModAdd(start, p, n);
    if r > k { ModUnique(r + p, 1, k, n); }
  }

  /** Any ceil(n / 10) consecutive ticks query every keyword. */
  lemma {:induction false} CoversAll(idx: nat, ticks: nat, n: nat, k: nat)
    requires k < n && ticks * 10 >= n
    ensures k in Queried(idx, ticks, n)
  {
    TicksAreOneWalk(idx, ticks, n);
    var p := WalkCovers(idx, n, k);
    var m := PerTick(n);
    if m == n {
      assert ticks >= 1;
      assert ticks * m >= m;
    }
    assert Walk(idx, ticks * m, n)[p] == k;
  }

  function Count(s: seq<nat>, k: nat): nat {
    if s == [] then 0 else Count(s[..|s| - 1], k) + (if s[|s| - 1] == k then 1 else 0)
  }

  /** The first place at or after `start` that shows `k` is at distance `first`; then every `n` steps. */
  lemma {:induction false} CountOfWalk(start: nat, steps: nat, n: nat, k: nat, first: nat)
    requires k < n && first < n && (start + first) % n == k
    ensures Count(Walk(start, steps, n), k) == if steps <= first then 0 else 1 + (steps - 1 - first) / n
  {
    if steps != 0 {
      var (s, p) := (Walk(start, steps, n), steps - 1);
      assert s[..|s| - 1] == Walk(start, p, n);
      CountOfWalk(start, p, n, k, first);
      if p < first {
        ModDistinct(start + p, start + first, n);
      } else if p > first {
        HitsEveryRound(start, n, k, first, p);
      }
    }
  }

  lemma {:induction false} OneStepBack(d: nat, n: nat)
    requires d > 0 && n > 0
    ensures d % n == 0 ==> d / n == 1 + (d - 1) / n
    ensures d % n != 0 ==> d / n == (d - 1) / n
  {
    var (q, r) := (d / n, d % n);
    if r == 0 {
      assert (q - 1) * n == q * n - n;
      ModUnique(d - 1, q - 1, n - 1, n);
    } else {
      ModUnique(d - 1, q, r - 1, n);
    }
  }

  /** `d` steps lead back to the same position exactly when `d` is a number of full rounds. */
  lemma {:induction false} BackAgain(c: nat, d: nat, n: nat)
    requires n > 0
    ensures (c + d) % n == c % n <==> d % n == 0
  {
    var (q, r, k) := (d / n, d % n, c % n);
    ModAdd(c, d, n);
    if k + r < n {
      ModUnique(k + d, q, k + r, n);
    } else {
      assert (q + 1) * n == q * n + n;
      ModUnique(k + d, q + 1, k + r - n, n);
    }
  }

  lemma {:induction false} HitsEveryRound(start: nat, n: nat, k: nat, first: nat, p: nat)
    requires k < n && first < n && (start + first) % n == k && first < p
    ensures (start + p) % n == k ==> (p - first) / n == 1 + (p - 1 - first) / n
    ensures (start + p) % n != k ==> (p - first) / n == (p - 1 - first) / n
  {
    BackAgain(start + first, p - first, n);
    OneStepBack(p - first, n);
  }

  /** After any number of ticks the query counts of two keywords differ by at most one. */
  lemma {:induction false} Fair(idx: nat, ticks: nat, n: nat, j: nat, k: nat)
    requires j < n && k < n
    ensures Count(Queried(idx, ticks, n), j) <= Count(Queried(idx, ticks, n), k) + 1
  {
    TicksAreOneWalk(idx, ticks, n);
    var N := ticks * PerTick(n);
    var a := WalkCovers(idx, n, j);
    var b := WalkCovers(idx, n, k);
    CountOfWalk(idx, N, n, j, a);
    CountOfWalk(idx, N, n, k, b);
    if N > a {
      AtMostOneRoundApart(N - 1 - a, N - 1 - b, n);
    }
  }

  lemma {:induction false} AtMostOneRoundApart(x: nat, y: int, n: nat)
    requires n > 0 && x < y + n
    ensures y < 0 ==> x / n == 0
    ensures y >= 0 ==> x / n <= y / n + 1
  {
    if y < 0 {
      ModUnique(x, 0, x, n);
    } else {
      assert (x / n - y / n - 1) * n == x - y + y % n - x % n - n;
      MulBounds(x / n - y / n - 1, n);
    }
  }
}
