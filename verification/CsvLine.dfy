/** scheduler: the quote-aware splitter for URLhaus lines, against the quoting of section 2 of RFC 4180. */
module CsvLine {
  datatype Scan = Scan(out: seq<string>, cur: string, inQ: bool)

  const START: Scan := Scan([], "", false)

  function Step(s: Scan, c: char): Scan {
    if c == '"' then s.(inQ := !s.inQ)
    else if c == ',' && !s.inQ then Scan(s.out + [s.cur], "", false)
    else s.(cur := s.cur + [c])
  }

  function Feed(s: Scan, text: string): Scan {
    if text == "" then s else Step(Feed(s, text[..|text| - 1]), text[|text| - 1])
  }

  function Parsed(line: string): seq<string> {
    var s := Feed(START, line);
    s.out + [s.cur]
  }

  method ParseCSVLine(line: string) returns (out: seq<string>)
    ensures out == Parsed(line)
  {
    out := [];
    var cur := "";
    var inQ := false;
    for i := 0 to |line|
      invariant Scan(out, cur, inQ) == Feed(START, line[..i])
    {
      var c := line[i];
      assert line[..i + 1][..i] == line[..i];
      if c == '"' {
        inQ := !inQ;
      } else if c == ',' && !inQ {
        out := out + [cur];
        cur := "";
      } else {
        cur := cur + [c];
      }
    }
    assert line[..|line|] == line;
    out := out + [cur];
  }

  // ----- what the fields are, by the parity of the quotes in front of each character

  function Quotes(s: string): nat {
    if s == "" then 0 else Quotes(s[..|s| - 1]) + (if s[|s| - 1] == '"' then 1 else 0)
  }

  /** A comma outside quotes: an even number of quotes stands in front of it. */
  predicate Separates(line: string, i: nat)
    requires i < |line|
  {
    line[i] == ',' && Quotes(line[..i]) % 2 == 0
  }

  function Separators(line: string): nat {
    if line == "" then 0
    else Separators(line[..|line| - 1]) + (if Separates(line, |line| - 1) then 1 else 0)
  }

  /** The line without quotes and separators. */
  function Payload(line: string): string {
    if line == "" then ""
    else
      var (front, i) := (Payload(line[..|line| - 1]), |line| - 1);
      if line[i] == '"' || Separates(line, i) then front else front + [line[i]]
  }

  function Concat(fields: seq<string>): string {
    if fields == [] then "" else Concat(fields[..|fields| - 1]) + fields[|fields| - 1]
  }

  lemma {:induction false} ConcatLast(fields: seq<string>, f: string)
    ensures Concat(fields + [f]) == Concat(fields) + f
  {
  }

  /** The scan so far, by the text it has seen. */
  predicate Scanned(s: Scan, line: string) {
    (s.inQ <==> Quotes(line) % 2 == 1) && |s.out| == Separators(line) && Concat(s.out) + s.cur == Payload(line)
  }

  lemma {:induction false} OneMore(front: string, c: char)
    ensures Quotes(front + [c]) == Quotes(front) + (if c == '"' then 1 else 0)
    ensures Separators(front + [c]) == Separators(front) + (if c == ',' && Quotes(front) % 2 == 0 then 1 else 0)
    ensures Payload(front + [c]) ==
      if c == '"' || (c == ',' && Quotes(front) % 2 == 0) then Payload(front) else Payload(front) + [c]
  {
  }

  lemma {:induction false} ScanStep(s: Scan, front: string, c: char)
    requires Scanned(s, front)
    ensures Scanned(Step(s, c), front + [c])
  {
  }

  lemma {:induction false} ScanIs(line: string)
    ensures Scanned(Feed(START, line), line)
  {
    hide Step;
    if line != "" {
      var (front, c) := (line[..|line| - 1], line[|line| - 1]);
      ScanIs(front);
      ScanStep(Feed(START, front), front, c);
      assert front + [c] == line;
    }
  }

  /** One field more than there are separators; together the fields are the line minus quotes and separators. */
  lemma {:induction false} FieldsPartitionTheLine(line: string)
    ensures |Parsed(line)| == 1 + Separators(line)
    ensures Concat(Parsed(line)) == Payload(line)
  {
    ScanIs(line);
    ConcatLast(Feed(START, line).out, Feed(START, line).cur);
  }

  // ----- printing and reading back

  /** A quote inside a field is doubled. */
  function Escaped(f: string): string {
    if f == "" then ""
    else Escaped(f[..|f| - 1]) + (if f[|f| - 1] == '"' then "\"\"" else [f[|f| - 1]])
  }

  function Quoted(f: string): string { "\"" + Escaped(f) + "\"" }

  function Print(fields: seq<string>): string
    requires fields != []
  {
    if |fields| == 1 then Quoted(fields[0])
    else Print(fields[..|fields| - 1]) + "," + Quoted(fields[|fields| - 1])
  }

  function Stripped(f: string): string {
    if f == "" then "" else if f[|f| - 1] == '"' then Stripped(f[..|f| - 1]) else Stripped(f[..|f| - 1]) + [f[|f| - 1]]
  }

  function AllStripped(fields: seq<string>): seq<string> {
    seq(|fields|, i requires 0 <= i < |fields| => Stripped(fields[i]))
  }

  lemma {:induction false} FeedConcat(s: Scan, a: string, b: string)
    ensures Feed(s, a + b) == Feed(Feed(s, a), b)
  {
    if b == "" {
      assert a + b == a;
    } else {
      FeedConcat(s, a, b[..|b| - 1]);
      assert (a + b)[..|a + b| - 1] == a + b[..|b| - 1];
    }
  }

  lemma {:induction false} FeedOne(s: Scan, c: char)
    ensures Feed(s, [c]) == Step(s, c)
  {
  }

  lemma {:induction false} FeedEscaped(s: Scan, f: string)
    requires s.inQ
    ensures Feed(s, Escaped(f)) == s.(cur := s.cur + Stripped(f))
  {
    if f == "" {
      assert s.cur + "" == s.cur;
    } else {
      var (front, c) := (f[..|f| - 1], f[|f| - 1]);
      FeedEscaped(s, front);
      var t := s.(cur := s.cur + Stripped(front));
      if c == '"' {
        FeedConcat(s, Escaped(front), "\"\"");
        FeedConcat(t, "\"", "\"");
        assert "\"" + "\"" == "\"\"";
        FeedOne(t, '"');
        FeedOne(Step(t, '"'), '"');
      } else {
        FeedConcat(s, Escaped(front), [c]);
        FeedOne(t, c);
        assert s.cur + Stripped(front) + [c] == s.cur + (Stripped(front) + [c]);
      }
    }
  }

  lemma {:induction false} FeedQuoted(s: Scan, f: string)
    requires !s.inQ
    ensures Feed(s, Quoted(f)) == s.(cur := s.cur + Stripped(f))
  {
    hide Escaped, Stripped, Feed;
    var t := s.(inQ := true);
    FeedConcat(s, "\"", Escaped(f));
    FeedConcat(s, "\"" + Escaped(f), "\"");
    FeedOne(s, '"');
    FeedEscaped(t, f);
    FeedOne(t.(cur := t.cur + Stripped(f)), '"');
  }

  lemma {:induction false} FeedPrint(fields: seq<string>)
    requires fields != []
    ensures Feed(START, Print(fields)) ==
      Scan(AllStripped(fields[..|fields| - 1]), Stripped(fields[|fields| - 1]), false)
  {
    hide Feed, Quoted, Stripped;
    if |fields| == 1 {
      FeedQuoted(START, fields[0]);
      assert "" + Stripped(fields[0]) == Stripped(fields[0]);
    } else {
      var (front, last) := (fields[..|fields| - 1], fields[|fields| - 1]);
      FeedPrint(front);
      FeedConcat(START, Print(front), ",");
      FeedConcat(START, Print(front) + ",", Quoted(last));
      var s := Feed(START, Print(front));
      FeedOne(s, ',');
      assert AllStripped(front) == s.out + [s.cur];
      FeedQuoted(Step(s, ','), last);
      assert "" + Stripped(last) == Stripped(last);
    }
  }

  /** Reading back what RFC 4180 prints gives every field without its quote characters. */
  lemma {:induction false} ReadsBackStripped(fields: seq<string>)
    requires fields != []
    ensures Parsed(Print(fields)) == AllStripped(fields)
  {
    hide Feed, Print;
    FeedPrint(fields);
  }

  lemma {:induction false} StrippedIs(f: string)
    ensures |Stripped(f)| <= |f| && (Stripped(f) == f <==> '"' !in f)
  {
    if f != "" {
      var (front, c) := (f[..|f| - 1], f[|f| - 1]);
      StrippedIs(front);
      assert f == front + [c];
      if c != '"' && '"' in f { assert '"' in front; }
    }
  }

  /** The round trip holds exactly for fields without a quote; there it stops short of RFC 4180. */
  lemma {:induction false} RoundTripIff(fields: seq<string>)
    requires fields != []
    ensures Parsed(Print(fields)) == fields <==> forall i :: 0 <= i < |fields| ==> '"' !in fields[i]
  {
    hide Print, Parsed, Stripped;
    ReadsBackStripped(fields);
    forall i | 0 <= i < |fields| ensures AllStripped(fields)[i] == fields[i] <==> '"' !in fields[i] {
      StrippedIs(fields[i]);
    }
  }
}
