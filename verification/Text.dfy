/** Shared vocabulary: optional values and the string operations the sources take from their libraries. */
module Wrappers {
  datatype Option<+T> = None | Some(value: T)
}

module Text {
  predicate OccursAt(s: string, sub: string, i: nat) {
    i + |sub| <= |s| && s[i..i + |sub|] == sub
  }

  /** Substring containment (`strings.Contains`). */
  predicate Contains(s: string, sub: string) {
    exists i: nat :: i <= |s| && OccursAt(s, sub, i)
  }

  lemma {:induction false} ContainsTransitive(s: string, mid: string, sub: string)
    requires Contains(s, mid) && Contains(mid, sub)
    ensures Contains(s, sub)
  {
    var i: nat :| i <= |s| && OccursAt(s, mid, i);
    var j: nat :| j <= |mid| && OccursAt(mid, sub, j);
    forall k | 0 <= k < |sub| ensures s[i + j..i + j + |sub|][k] == sub[k] {
      assert sub[k] == mid[j..j + |sub|][k] == mid[j + k] == s[i..i + |mid|][j + k];
    }
    assert OccursAt(s, sub, i + j);
  }

  function LowerChar(c: char): char {
    if 'A' <= c <= 'Z' then (c as int + 32) as char else c
  }

  /** ASCII lower-casing (`strings.ToLower` on host names and markers). */
  function Lower(s: string): (r: string)
    ensures |r| == |s|
    ensures forall i :: 0 <= i < |s| ==> r[i] == LowerChar(s[i])
  {
    seq(|s|, i requires 0 <= i < |s| => LowerChar(s[i]))
  }

  lemma {:induction false} LowerKeepsContainment(s: string, sub: string)
    requires Contains(s, sub)
    ensures Contains(Lower(s), Lower(sub))
  {
    var i: nat :| i <= |s| && OccursAt(s, sub, i);
    forall k | 0 <= k < |sub| ensures Lower(s)[i..i + |sub|][k] == Lower(sub)[k] {
      assert s[i + k] == s[i..i + |sub|][k];
    }
    assert OccursAt(Lower(s), Lower(sub), i);
  }

  /** ASCII white space. */
  predicate Blank(c: char) { c == ' ' || '\t' <= c <= '\r' }

  predicate AllBlank(s: string) { forall i :: 0 <= i < |s| ==> Blank(s[i]) }

  function TrimLeft(s: string): string {
    if s != [] && Blank(s[0]) then TrimLeft(s[1..]) else s
  }

  function TrimRight(s: string): string {
    if s != [] && Blank(s[|s| - 1]) then TrimRight(s[..|s| - 1]) else s
  }

  /** `strings.TrimSpace` over ASCII white space. */
  function Trim(s: string): string { TrimRight(TrimLeft(s)) }

  /** Space, tab, line feed, vertical tab, form feed and carriage return. */
  predicate WhiteSpace(c: char) { c as int in {32, 9, 10, 11, 12, 13} }

  /** Trimming takes off exactly the white space at both ends. */
  lemma {:induction false} TrimIs(s: string) returns (front: string, back: string)
    ensures s == front + Trim(s) + back
    ensures forall c :: c in front || c in back ==> WhiteSpace(c)
    ensures Trim(s) != "" ==> !WhiteSpace(Trim(s)[0]) && !WhiteSpace(Trim(s)[|Trim(s)| - 1])
  {
    front := TrimLeftTakes(s);
    back := TrimRightTakes(TrimLeft(s));
    assert s == front + (Trim(s) + back);
    assert s == front + Trim(s) + back;
    assert TrimLeft(s) == Trim(s) + back;
  }

  lemma {:induction false} TrimLeftTakes(s: string) returns (front: string)
    ensures s == front + TrimLeft(s) && AllBlank(front)
    ensures TrimLeft(s) != "" ==> !Blank(TrimLeft(s)[0])
  {
    if s != [] && Blank(s[0]) {
      front := TrimLeftTakes(s[1..]);
      front := [s[0]] + front;
      assert s == [s[0]] + s[1..];
    } else {
      front := "";
    }
  }

  lemma {:induction false} TrimRightTakes(s: string) returns (back: string)
    ensures s == TrimRight(s) + back && AllBlank(back)
    ensures TrimRight(s) != "" ==> !Blank(TrimRight(s)[|TrimRight(s)| - 1])
  {
    if s != [] && Blank(s[|s| - 1]) {
      back := TrimRightTakes(s[..|s| - 1]);
      back := back + [s[|s| - 1]];
      assert s == s[..|s| - 1] + [s[|s| - 1]];
    } else {
      back := "";
    }
  }

  /** Only the letters A to Z change, each to its lower-case letter. */
  lemma {:induction false} LowerIs(s: string, i: nat)
    requires i < |s|
    ensures Lower(s)[i] == if 'A' <= s[i] <= 'Z' then 'a' + (s[i] - 'A') else s[i]
  {
  }
}
