/**
 * verdict-api: the per-day session log with size-triggered rotation. The directory maps a day and a
 * generation (0 is the active file, 1..5 the rotated ones) to the lines of that file.
 */
module SessionLog {
  type Day = string
  type Line = string  // one JSON object with its newline
  type Lines = seq<Line>
  datatype Name = Name(day: Day, gen: nat)
  type Dir = map<Name, Lines>

  const CAP: nat := 100 * 1024 * 1024
  const GENS: nat := 5

  function Size(lines: Lines): nat {
    if lines == [] then 0 else Size(lines[..|lines| - 1]) + |lines[|lines| - 1]|
  }

  function File(dir: Dir, day: Day, gen: nat): Lines {
    if Name(day, gen) in dir then dir[Name(day, gen)] else []
  }

  /** Generations `hi` down to `lo`, oldest lines first. */
  function Older(dir: Dir, day: Day, hi: nat, lo: nat): Lines
    decreases hi - lo
  {
    if hi < lo then [] else if hi == lo then File(dir, day, hi) else Older(dir, day, hi, lo + 1) + File(dir, day, lo)
  }

  /** Everything kept for a day: `.5 ++ .4 ++ .3 ++ .2 ++ .1 ++ active`. */
  function Kept(dir: Dir, day: Day): Lines { Older(dir, day, GENS, 0) }

  // ----- specification of the operations

  function Removed(dir: Dir, n: Name): Dir { dir - {n} }

  /** Renaming a missing file fails and changes nothing. */
  function Renamed(dir: Dir, from: Name, to: Name): Dir {
    if from in dir then (dir - {from})[to := dir[from]] else dir
  }

  /** Every generation moves up one; the oldest is lost. */
  function Rotated(dir: Dir, day: Day): Dir {
    map n | n in Shifted(dir, day) :: if n.day == day && 1 <= n.gen <= GENS then dir[Name(day, n.gen - 1)] else dir[n]
  }

  function Shifted(dir: Dir, day: Day): set<Name> {
    (set n | n in dir && (n.day != day || n.gen > GENS))
    + (set n | n in dir && n.day == day && n.gen < GENS :: Name(day, n.gen + 1))
  }

  lemma {:induction false} RotatedIs(dir: Dir, day: Day, n: Name)
    ensures n.day != day || n.gen > GENS ==> SameFile(Rotated(dir, day), n, dir, n)
    ensures n.day == day && n.gen == 0 ==> n !in Rotated(dir, day)
    ensures n.day == day && 0 < n.gen <= GENS ==> SameFile(Rotated(dir, day), n, dir, Name(day, n.gen - 1))
  {
  }

  datatype Log = Log(dir: Dir, day: Day, open: bool, bytes: nat)

  /** The state after day change and size check. */
  function Prepared(s: Log, day: Day): Log {
    var s := if s.open && s.day != day then s.(open := false, bytes := 0) else s;
    if s.open && s.bytes >= CAP then s.(dir := Rotated(s.dir, day), open := false, bytes := 0) else s
  }

  function Opened(s: Log, day: Day): Log {
    if s.open then s
    else Log(s.dir[Name(day, 0) := File(s.dir, day, 0)], day, true, Size(File(s.dir, day, 0)))
  }

  function Appended(s: Log, line: Line): Log {
    s.(dir := s.dir[Name(s.day, 0) := File(s.dir, s.day, 0) + [line]], bytes := s.bytes + |line|)
  }

  function WriteStep(s: Log, day: Day, line: Line): Log { Appended(Opened(Prepared(s, day), day), line) }

  /** A new process: only the directory survives. */
  function RestartStep(s: Log): Log { Log(s.dir, "", false, 0) }

  /** The two directories agree on these names: both files missing, or both there with the same lines. */
  predicate SameFile(a: Dir, m: Name, b: Dir, n: Name) {
    (m in a <==> n in b) && (m in a ==> a[m] == b[n])
  }

  // ----- rotation, one generation at a time

  /** The generations above `gen` have moved up, the others have not. */
  ghost predicate Shifting(was: Dir, cur: Dir, d: Day, gen: nat) {
    && (forall n: Name :: n.day != d || n.gen > GENS || n.gen <= gen ==> SameFile(cur, n, was, n))
    && (forall g: nat :: gen + 2 <= g <= GENS ==> SameFile(cur, Name(d, g), was, Name(d, g - 1)))
    && (gen < GENS ==> Name(d, gen + 1) !in cur)
  }

  lemma {:induction false} ShiftStart(dir: Dir, d: Day)
    ensures Shifting(dir, dir, d, GENS)
  {
  }

  lemma {:induction false} ShiftStep(was: Dir, cur: Dir, d: Day, gen: nat)
    requires 1 <= gen <= GENS && Shifting(was, cur, d, gen)
    ensures Shifting(was, if gen == GENS then Removed(cur, Name(d, gen))
               else Renamed(cur, Name(d, gen), Name(d, gen + 1)), d, gen - 1)
  {
  }

  lemma {:induction false} ShiftDone(was: Dir, cur: Dir, d: Day)
    requires Shifting(was, cur, d, 0)
    ensures Renamed(cur, Name(d, 0), Name(d, 1)) == Rotated(was, d)
  {
    var next := Renamed(cur, Name(d, 0), Name(d, 1));
    forall n: Name ensures SameFile(next, n, Rotated(was, d), n) {
      RotatedIs(was, d, n);
      assert SameFile(cur, Name(d, 0), was, Name(d, 0));
      if n.day != d || n.gen > GENS {
        assert SameFile(cur, n, was, n);
      } else if n.gen >= 2 {
        assert SameFile(cur, n, was, Name(d, n.gen - 1));
      }
    }
    SameFiles(next, Rotated(was, d));
  }

  // ----- the logger

  class SessionLogger {
    var dir: Dir
    var day: Day
    var isOpen: bool
    var bytesWritten: nat

    function View(): Log
      reads this
    {
      Log(dir, day, isOpen, bytesWritten)
    }

    constructor (dir: Dir)
      ensures View() == RestartStep(Log(dir, "", false, 0))
    {
      this.dir, day, isOpen, bytesWritten := dir, "", false, 0;
    }

    method RotateCurrent(d: Day)
      modifies this
      ensures View() == Log(Rotated(old(dir), d), old(day), false, 0)
    {
      hide Shifting, Rotated;
      ShiftStart(dir, d);
      isOpen := false;
      var gen := GENS;
      while gen >= 1
        invariant 0 <= gen <= GENS && !isOpen && day == old(day)
        invariant Shifting(old(dir), dir, d, gen)
        decreases gen
      {
        ShiftStep(old(dir), dir, d, gen);
        var older := Name(d, gen);
        if gen == GENS {
          dir := Removed(dir, older);
        } else {
          dir := Renamed(dir, older, Name(d, gen + 1));
        }
        gen := gen - 1;
      }
      ShiftDone(old(dir), dir, d);
      dir := Renamed(dir, Name(d, 0), Name(d, 1));
      bytesWritten := 0;
    }

    method Write(today: Day, line: Line)
      modifies this
      ensures View() == WriteStep(old(View()), today, line)
    {
      if isOpen && day != today {
        isOpen := false;
        bytesWritten := 0;
      }
      if isOpen && bytesWritten >= CAP {
        RotateCurrent(today);
      }
      if !isOpen {
        dir := dir[Name(today, 0) := File(dir, today, 0)];
        bytesWritten := Size(dir[Name(today, 0)]);
        isOpen := true;
        day := today;
      }
      dir := dir[Name(day, 0) := File(dir, day, 0) + [line]];
      bytesWritten := bytesWritten + |line|;
    }
  }

  lemma {:induction false} SameFiles(a: Dir, b: Dir)
    requires forall n: Name :: SameFile(a, n, b, n)
    ensures a == b
  {
    assert forall n: Name :: n in a <==> n in b by {
      forall n: Name ensures n in a <==> n in b { assert SameFile(a, n, b, n); }
    }
    assert forall n: Name :: n in a ==> a[n] == b[n] by {
      forall n: Name | n in a ensures a[n] == b[n] { assert SameFile(a, n, b, n); }
    }
  }

  // ----- runs

  datatype Event = Put(day: Day, line: Line) | Restart

  function Next(s: Log, e: Event): Log {
    match e
    case Put(day, line) => WriteStep(s, day, line)
    case Restart => RestartStep(s)
  }

  function Run(dir: Dir, es: seq<Event>): Log {
    if es == [] then RestartStep(Log(dir, "", false, 0)) else Next(Run(dir, es[..|es| - 1]), es[|es| - 1])
  }

  /** The lines written on a day, in order. */
  function Written(es: seq<Event>, day: Day): Lines {
    if es == [] then []
    else
      var (front, e) := (Written(es[..|es| - 1], day), es[|es| - 1]);
      if e.Put? && e.day == day then front + [e.line] else front
  }

  predicate IsSuffix(k: Lines, h: Lines) { |k| <= |h| && h[|h| - |k|..] == k }

  /** Rotated files are numbered without gaps, starting from the active file. */
  ghost predicate Contiguous(dir: Dir) {
    forall day: Day, g: nat :: g < GENS && Name(day, g + 1) in dir ==> Name(day, g) in dir
  }

  ghost predicate Inv(s: Log) {
    Contiguous(s.dir) && (s.open ==> Name(s.day, 0) in s.dir && s.bytes == Size(s.dir[Name(s.day, 0)]))
  }

  /** Nothing is gone from what was there, `before`, and written since, `h`, while there is no oldest generation. */
  ghost predicate Faithful(s: Log, day: Day, h: Lines) {
    && IsSuffix(Kept(s.dir, day), h)
    && (Name(day, GENS) !in s.dir ==> Kept(s.dir, day) == h)
  }

  lemma {:induction false} OlderRotated(dir: Dir, day: Day, hi: nat, lo: nat)
    requires lo <= hi < GENS
    ensures Older(Rotated(dir, day), day, hi + 1, lo + 1) == Older(dir, day, hi, lo)
    decreases hi - lo
  {
    hide Rotated;
    RotatedIs(dir, day, Name(day, lo + 1));
    if lo < hi { OlderRotated(dir, day, hi, lo + 1); }
  }

  /** `Older` sees only the generations it ranges over. */
  lemma {:induction false} OlderSame(a: Dir, b: Dir, day: Day, hi: nat, lo: nat)
    requires forall g: nat :: lo <= g <= hi ==> File(a, day, g) == File(b, day, g)
    ensures Older(a, day, hi, lo) == Older(b, day, hi, lo)
    decreases hi - lo
  {
    if lo < hi { OlderSame(a, b, day, hi, lo + 1); }
  }

  /** The topmost generation holds the oldest lines. */
  lemma {:induction false} OlderTop(dir: Dir, day: Day, hi: nat, lo: nat)
    requires lo < hi
    ensures Older(dir, day, hi, lo) == File(dir, day, hi) + Older(dir, day, hi - 1, lo)
    decreases hi - lo
  {
    if lo + 1 < hi { OlderTop(dir, day, hi, lo + 1); }
  }

  /** Rotation drops exactly the oldest file of the day, and nothing of any other day. */
  lemma {:induction false} RotationKeeps(dir: Dir, day: Day, other: Day)
    ensures Kept(dir, day) == File(dir, day, GENS) + Kept(Rotated(dir, day), day)
    ensures other != day ==> Kept(Rotated(dir, day), other) == Kept(dir, other)
  {
    hide Rotated;
    OlderTop(dir, day, GENS, 0);
    OlderRotated(dir, day, GENS - 1, 0);
    RotatedIs(dir, day, Name(day, 0));
    assert Kept(Rotated(dir, day), day) == Older(Rotated(dir, day), day, GENS, 1) + File(Rotated(dir, day), day, 0);
    if other != day {
      forall g: nat | 0 <= g <= GENS ensures File(Rotated(dir, day), other, g) == File(dir, other, g) {
        RotatedIs(dir, day, Name(other, g));
      }
      OlderSame(Rotated(dir, day), dir, other, GENS, 0);
    }
  }

  lemma {:induction false} RotationContiguous(dir: Dir, day: Day)
    requires Contiguous(dir) && Name(day, 0) in dir
    ensures forall d: Day, g: nat :: g < GENS && Name(d, g + 1) in Rotated(dir, day) ==>
      Name(d, g) in Rotated(dir, day) || (d == day && g == 0)
    ensures Name(day, 0) !in Rotated(dir, day)
    ensures Name(day, GENS) in dir ==> Name(day, GENS) in Rotated(dir, day)
  {
    hide Rotated;
    RotatedIs(dir, day, Name(day, 0));
    RotatedIs(dir, day, Name(day, GENS));
    forall d: Day, g: nat | g < GENS && Name(d, g + 1) in Rotated(dir, day)
      ensures Name(d, g) in Rotated(dir, day) || (d == day && g == 0)
    {
      RotatedIs(dir, day, Name(d, g + 1));
      RotatedIs(dir, day, Name(d, g));
    }
    assert Name(day, GENS) in dir ==> Name(day, GENS - 1) in dir by {
      assert Name(day, GENS - 1 + 1) == Name(day, GENS);
    }
  }

  /** Extending the active file of `day` extends what is kept for that day, and only for that day. */
  lemma {:induction false} ActiveExtends(dir: Dir, day: Day, more: Lines, other: Day)
    ensures var t := dir[Name(day, 0) := File(dir, day, 0) + more];
      Kept(t, day) == Kept(dir, day) + more && (other != day ==> Kept(t, other) == Kept(dir, other))
  {
    var t := dir[Name(day, 0) := File(dir, day, 0) + more];
    OlderSame(t, dir, day, GENS, 1);
    assert Older(dir, day, GENS, 1) + (File(dir, day, 0) + more) == Older(dir, day, GENS, 1) + File(dir, day, 0) + more;
    if other != day { OlderSame(t, dir, other, GENS, 0); }
  }

  // ----- one write

  lemma {:induction false} PreparedKeeps(s: Log, today: Day, day: Day, h: Lines)
    requires Inv(s) && Faithful(s, day, h)
    ensures var t := Prepared(s, today);
      Faithful(t, day, h) && (t.open ==> Inv(t) && t.day == today)
      && (forall d: Day, g: nat :: g < GENS && Name(d, g + 1) in t.dir ==>
            Name(d, g) in t.dir || (d == today && g == 0))
  {
    hide Rotated, Kept;
    if s.open && s.day == today && s.bytes >= CAP {
      RotationKeeps(s.dir, today, day);
      RotationContiguous(s.dir, today);
      RotatedIs(s.dir, today, Name(day, GENS));
      if day == today && Name(day, GENS) !in s.dir {
        assert File(s.dir, day, GENS) == [];
      }
    }
  }

  /** The state invariant and the faithfulness to everything written survive a write. */
  lemma {:induction false} WriteKeeps(s: Log, today: Day, line: Line, day: Day, h: Lines)
    requires Inv(s) && Faithful(s, day, h)
    ensures Inv(WriteStep(s, today, line))
    ensures Faithful(WriteStep(s, today, line), day, if day == today then h + [line] else h)
  {
    hide Kept, Prepared, Opened, Appended, Inv, Faithful;
    PreparedKeeps(s, today, day, h);
    OpenedKeeps(Prepared(s, today), today, day, h);
    AppendedKeeps(Opened(Prepared(s, today), today), line, day, h);
  }

  lemma {:induction false} OpenedKeeps(t: Log, today: Day, day: Day, h: Lines)
    requires Faithful(t, day, h) && (t.open ==> Inv(t) && t.day == today)
    requires forall d: Day, g: nat :: g < GENS && Name(d, g + 1) in t.dir ==>
      Name(d, g) in t.dir || (d == today && g == 0)
    ensures var o := Opened(t, today); Inv(o) && o.open && o.day == today && Faithful(o, day, h)
  {
  }

  lemma {:induction false} AppendedKeeps(o: Log, line: Line, day: Day, h: Lines)
    requires Inv(o) && o.open && Faithful(o, day, h)
    ensures Inv(Appended(o, line)) && Faithful(Appended(o, line), day, if day == o.day then h + [line] else h)
  {
    hide Kept;
    var file := File(o.dir, o.day, 0);
    ActiveExtends(o.dir, o.day, [line], day);
    assert (file + [line])[..|file|] == file;
    SuffixExtends(Kept(o.dir, day), h, line);
  }

  lemma {:induction false} SuffixExtends(k: Lines, h: Lines, line: Line)
    requires IsSuffix(k, h)
    ensures IsSuffix(k + [line], h + [line])
  {
  }

  lemma {:induction false} RunKeeps(dir: Dir, es: seq<Event>, day: Day)
    requires Contiguous(dir)
    ensures Inv(Run(dir, es)) && Faithful(Run(dir, es), day, Kept(dir, day) + Written(es, day))
  {
    hide Kept, Contiguous, WriteStep;
    if es == [] {
      assert Kept(dir, day) + [] == Kept(dir, day);
    } else {
      var (front, e) := (es[..|es| - 1], es[|es| - 1]);
      RunKeeps(dir, front, day);
      if e.Put? {
        WriteKeeps(Run(dir, front), e.day, e.line, day, Kept(dir, day) + Written(front, day));
        assert Kept(dir, day) + Written(front, day) + [e.line] == Kept(dir, day) + (Written(front, day) + [e.line]);
      }
    }
  }

  // ----- what the log promises, over every run of writes and restarts

  /** What is kept for a day, file by file. */
  lemma {:induction false} KeptIs(dir: Dir, day: Day)
    ensures Kept(dir, day) == File(dir, day, 5) + File(dir, day, 4) + File(dir, day, 3) + File(dir, day, 2)
                              + File(dir, day, 1) + File(dir, day, 0)
  {
    hide File;
    assert Older(dir, day, 5, 4) == Older(dir, day, 5, 5) + File(dir, day, 4);
    assert Older(dir, day, 5, 2) == Older(dir, day, 5, 3) + File(dir, day, 2);
    assert Older(dir, day, 5, 1) == Older(dir, day, 5, 2) + File(dir, day, 1);
  }

  /** The files of a day, oldest generation first, are an unbroken end of all lines written that day. */
  lemma {:induction false} KeepsASuffix(es: seq<Event>, day: Day)
    ensures var dir := Run(map[], es).dir;
      IsSuffix(File(dir, day, 5) + File(dir, day, 4) + File(dir, day, 3) + File(dir, day, 2)
               + File(dir, day, 1) + File(dir, day, 0), Written(es, day))
  {
    hide Run, Written, Kept, File, IsSuffix, Contiguous;
    EmptyDir(day);
    RunKeeps(map[], es, day);
    KeptIs(Run(map[], es).dir, day);
    assert [] + Written(es, day) == Written(es, day);
  }

  /** A write to the day that is open, when its active file has reached a hundred mebibytes, rotates. */
  predicate Rotates(s: Log, today: Day) { s.open && s.day == today && s.bytes >= 104_857_600 }

  /** What one write does to each file: only a rotation moves files, each up by one, and the fifth is lost. */
  lemma {:induction false} WriteMoves(s: Log, today: Day, line: Line, day: Day, gen: nat)
    ensures var t := WriteStep(s, today, line);
      File(t.dir, day, gen) ==
        if day != today || gen > 5 then File(s.dir, day, gen)
        else if !Rotates(s, today) then File(s.dir, day, gen) + (if gen == 0 then [line] else [])
        else if gen == 0 then [line] else File(s.dir, day, gen - 1)
  {
    hide Rotated, Size;
    RotatedIs(s.dir, today, Name(day, gen));
    RotatedIs(s.dir, today, Name(today, 0));
  }

  lemma {:induction false} WriteDir(s: Log, today: Day, line: Line)
    ensures var dir := if Rotates(s, today) then Rotated(s.dir, today) else s.dir;
      WriteStep(s, today, line).dir == dir[Name(today, 0) := File(dir, today, 0) + [line]]
  {
    hide Rotated, Size;
  }

  /** A write loses no line but those of the fifth generation, and these only if it rotates. */
  lemma {:induction false} WriteLosesOnlyTheOldest(s: Log, today: Day, line: Line, day: Day)
    ensures var t := WriteStep(s, today, line);
      if day != today then Kept(t.dir, day) == Kept(s.dir, day)
      else if Rotates(s, today) then Kept(s.dir, day) + [line] == File(s.dir, day, 5) + Kept(t.dir, day)
      else Kept(s.dir, day) + [line] == Kept(t.dir, day)
  {
    hide File, WriteStep, Kept, Rotates, Rotated;
    var dir := if Rotates(s, today) then Rotated(s.dir, today) else s.dir;
    WriteDir(s, today, line);
    RotationKeeps(s.dir, today, day);
    ActiveExtends(dir, today, [line], day);
    if day == today && Rotates(s, today) {
      assert File(s.dir, day, 5) + Kept(dir, day) + [line] == File(s.dir, day, 5) + (Kept(dir, day) + [line]);
    }
  }

  /** No line of a day is lost before there is a fifth generation. */
  lemma {:induction false} NothingLostYet(es: seq<Event>, day: Day)
    requires Name(day, 5) !in Run(map[], es).dir
    ensures Kept(Run(map[], es).dir, day) == Written(es, day)
  {
    EmptyDir(day);
    RunKeeps(map[], es, day);
    assert [] + Written(es, day) == Written(es, day);
  }

  lemma {:induction false} EmptyDir(day: Day)
    ensures Kept(map[], day) == [] && Contiguous(map[])
  {
  }

  /** Generations have no gaps, and the byte counter is the size of the active file while it is open. */
  lemma {:induction false} CounterIsSize(es: seq<Event>)
    ensures var s := Run(map[], es);
      Contiguous(s.dir) && (s.open ==> Name(s.day, 0) in s.dir && s.bytes == Size(s.dir[Name(s.day, 0)]))
  {
    EmptyDir("");
    RunKeeps(map[], es, "");
  }

  // ----- the size cap

  /** What one write does to the active file: the check is made only on a file that is already open. */
  lemma {:induction false} ActiveAfterWrite(s: Log, today: Day, line: Line, day: Day)
    ensures File(WriteStep(s, today, line).dir, day, 0)
         == if day != today then File(s.dir, day, 0)
            else if s.open && s.day == today && s.bytes >= 104_857_600 then [line]
            else File(s.dir, today, 0) + [line]
  {
  }

  function Restarts(es: seq<Event>): nat {
    if es == [] then 0 else Restarts(es[..|es| - 1]) + (if es[|es| - 1].Restart? then 1 else 0)
  }

  /** The clock does not come back to a day it has left. */
  ghost predicate DaysAdvance(es: seq<Event>) {
    forall i, j, k :: 0 <= i < j < k < |es| && es[i].Put? && es[j].Put? && es[k].Put? && es[i].day == es[k].day ==>
      es[j].day == es[i].day
  }

  predicate HasPut(es: seq<Event>, day: Day) { exists i :: 0 <= i < |es| && es[i].Put? && es[i].day == day }

  /** Without its last `n` lines the file is below the cap. */
  predicate BelowBut(lines: Lines, n: nat) { |lines| <= n || Size(lines[..|lines| - n]) < 104_857_600 }

  lemma {:induction false} LineAdded(lines: Lines, n: nat, line: Line)
    requires BelowBut(lines, n)
    ensures BelowBut(lines + [line], n + 1)
  {
    if |lines| > n { assert (lines + [line])[..|lines| - n] == lines[..|lines| - n]; }
  }

  lemma {:induction false} MoreAllowance(lines: Lines, n: nat, m: nat)
    requires BelowBut(lines, n) && n <= m
    ensures BelowBut(lines, m)
    decreases m - n
  {
    if n < m {
      if |lines| > n { SizeOfPrefix(lines[..|lines| - n]); }
      assert |lines| > n + 1 ==> lines[..|lines| - n][..|lines| - n - 1] == lines[..|lines| - (n + 1)];
      MoreAllowance(lines, n + 1, m);
    }
  }

  lemma {:induction false} SizeOfPrefix(lines: Lines)
    requires lines != []
    ensures Size(lines[..|lines| - 1]) <= Size(lines)
  {
  }

  /** Which day is open, and what has been written since the last restart. */
  lemma {:induction false} OpenDay(dir: Dir, es: seq<Event>)
    ensures var s := Run(dir, es);
      if es == [] || es[|es| - 1].Restart? then !s.open else s.open && s.day == es[|es| - 1].day
  {
  }

  /** A file not written in this run is as it was found. */
  lemma {:induction false} Untouched(dir: Dir, es: seq<Event>, day: Day)
    requires !HasPut(es, day)
    ensures File(Run(dir, es).dir, day, 0) == File(dir, day, 0)
  {
    hide WriteStep;
    if es != [] {
      var (front, e) := (es[..|es| - 1], es[|es| - 1]);
      forall i | 0 <= i < |front| ensures !(front[i].Put? && front[i].day == day) { assert front[i] == es[i]; }
      Untouched(dir, front, day);
      if e.Put? { ActiveAfterWrite(Run(dir, front), e.day, e.line, day); }
    }
  }

  /**
   * Started on files below the cap, the active file stays below the cap plus one line, and each restart
   * can add one more line.
   */
  lemma {:induction false} SizeBound(dir: Dir, es: seq<Event>, day: Day)
    requires Contiguous(dir) && DaysAdvance(es) && forall d: Day :: Size(File(dir, d, 0)) < 104_857_600
    ensures BelowBut(File(Run(dir, es).dir, day, 0), 1 + Restarts(es))
    decreases |es|, 1
  {
    hide WriteStep, Size, Contiguous;
    if es == [] {
      SomeBelow(File(dir, day, 0));
    } else {
      var (front, e) := (es[..|es| - 1], es[|es| - 1]);
      DaysAdvancePrefix(es);
      SizeBound(dir, front, day);
      var s := Run(dir, front);
      if e.Restart? {
        MoreAllowance(File(s.dir, day, 0), 1 + Restarts(front), 1 + Restarts(es));
      } else {
        ActiveAfterWrite(s, e.day, e.line, day);
        if e.day == day { SizeStep(dir, es, day); }
      }
    }
  }

  lemma {:induction false} SizeStep(dir: Dir, es: seq<Event>, day: Day)
    requires es != [] && es[|es| - 1].Put? && es[|es| - 1].day == day
    requires Contiguous(dir) && DaysAdvance(es) && forall d: Day :: Size(File(dir, d, 0)) < 104_857_600
    ensures BelowBut(File(Run(dir, es).dir, day, 0), 1 + Restarts(es))
    decreases |es|, 0
  {
    hide WriteStep, Size, Contiguous, Faithful, BelowBut, Run, Restarts, File;
    RunPut(dir, es);
    RestartsAfterPut(es);
    var (front, line) := (es[..|es| - 1], es[|es| - 1].line);
    var s := Run(dir, front);
    var file := File(s.dir, day, 0);
    OpenDay(dir, front);
    RunKeeps(dir, front, day);
    ActiveAfterWrite(s, day, line, day);
    if s.open && s.day == day && s.bytes >= CAP {
      JustOne(line);
      MoreAllowance([line], 1, 1 + Restarts(es));
    } else if (s.open && s.day == day) || !HasPut(front, day) {
      if !HasPut(front, day) { Untouched(dir, front, day); }
      assert Size(file) < CAP by { OpenSize(s, day); }
      SomeBelow(file);
      LineAdded(file, 0, line);
      MoreAllowance(file + [line], 1, 1 + Restarts(es));
    } else {
      var i :| 0 <= i < |front| && front[i].Put? && front[i].day == day;
      var last := |front| - 1;
      NotLeft(es, i, last, day);
      DaysAdvancePrefix(es);
      DaysAdvancePrefix(front);
      SizeBound(dir, front[..last], day);
      RestartKeepsFiles(dir, front, day);
      LineAdded(file, Restarts(front), line);
    }
  }

  lemma {:induction false} OpenSize(s: Log, day: Day)
    requires Inv(s)
    ensures s.open && s.day == day ==> s.bytes == Size(File(s.dir, day, 0))
  {
  }

  lemma {:induction false} RestartKeepsFiles(dir: Dir, es: seq<Event>, day: Day)
    requires es != [] && es[|es| - 1].Restart?
    ensures File(Run(dir, es).dir, day, 0) == File(Run(dir, es[..|es| - 1]).dir, day, 0)
    ensures Restarts(es) == Restarts(es[..|es| - 1]) + 1
  {
  }

  lemma {:induction false} RestartsAfterPut(es: seq<Event>)
    requires es != [] && es[|es| - 1].Put?
    ensures Restarts(es) == Restarts(es[..|es| - 1])
  {
  }

  lemma {:induction false} RunPut(dir: Dir, es: seq<Event>)
    requires es != [] && es[|es| - 1].Put?
    ensures Run(dir, es) == WriteStep(Run(dir, es[..|es| - 1]), es[|es| - 1].day, es[|es| - 1].line)
  {
  }

  /** The file of a day already written is found closed only after a restart. */
  lemma {:induction false} NotLeft(es: seq<Event>, i: nat, last: nat, day: Day)
    requires DaysAdvance(es) && i <= last == |es| - 2 && es[|es| - 1].Put? && es[|es| - 1].day == day
    requires es[i].Put? && es[i].day == day
    ensures es[last].Put? ==> es[last].day == day
  {
  }

  lemma {:induction false} JustOne(line: Line)
    ensures BelowBut([line], 1)
  {
  }

  lemma {:induction false} DaysAdvancePrefix(es: seq<Event>)
    requires DaysAdvance(es) && es != []
    ensures DaysAdvance(es[..|es| - 1])
  {
  }

  lemma {:induction false} SomeBelow(lines: Lines)
    requires Size(lines) < CAP
    ensures BelowBut(lines, 0) && BelowBut(lines, 1)
  {
    assert lines[..|lines|] == lines;
    MoreAllowance(lines, 0, 1);
  }
}
