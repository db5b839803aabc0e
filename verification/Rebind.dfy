/** The resolver's answer path: the in-place rebinding filter, the upstream answer and its addresses. */
module Rebind {
  import opened Wrappers
  import opened Addresses

  datatype RR = A(ip: IP, ttl: nat) | AAAA(ip: IP, ttl: nat) | Other(data: string, ttl: nat)

  predicate IsAddress(rr: RR) { rr.A? || rr.AAAA? }

  predicate Passes(rr: RR) { IsAddress(rr) ==> !IsPrivateOrReserved(rr.ip) }

  /** The records that survive, in order. */
  function Kept(s: seq<RR>): seq<RR> {
    if s == [] then []
    else if Passes(s[|s| - 1]) then Kept(s[..|s| - 1]) + [s[|s| - 1]]
    else Kept(s[..|s| - 1])
  }

  predicate HasAddress(s: seq<RR>) { exists i :: 0 <= i < |s| && IsAddress(s[i]) }

  class Msg {
    var buf: array<RR>
    var len: nat

    ghost predicate Valid()
      reads this
    {
      len <= buf.Length
    }

    ghost function Answer(): seq<RR>
      reads this, buf
      requires Valid()
    {
      buf[..len]
    }

    constructor (answer: seq<RR>)
      ensures Valid() && fresh(buf) && Answer() == answer
    {
      buf := new RR[|answer|](i requires 0 <= i < |answer| => answer[i]);
      len := |answer|;
      new;
      assert buf[..len] == answer;
    }
  }

  /** Compacts `msg.Answer` inside its own backing array. */
  method Filter(msg: Msg) returns (dropped: nat, anyA: bool, wasA: bool)
    requires msg.Valid()
    modifies msg`len, msg.buf
    ensures msg.Valid() && msg.buf == old(msg.buf)
    ensures msg.Answer() == Kept(old(msg.Answer()))
    ensures dropped + |msg.Answer()| == |old(msg.Answer())|
    ensures anyA <==> HasAddress(msg.Answer())
    ensures wasA <==> HasAddress(old(msg.Answer()))
  {
    hide IsPrivateOrReserved, Kept, HasAddress;
    dropped, anyA, wasA := 0, false, false;
    var (b, n) := (msg.buf, msg.len);
    ghost var was := msg.Answer();
    var kept := 0;
    KeptOfNothing(was);
    for i := 0 to n
      invariant kept + dropped == i
      invariant forall k :: i <= k < n ==> b[k] == was[k]
      invariant b[..kept] == Kept(was[..i])
      invariant anyA <==> HasAddress(b[..kept])
      invariant wasA <==> HasAddress(was[..i])
    {
      var rr := b[i];
      KeptOfPrefix(was, i);
      HasAddressOfPrefix(was, i);
      if IsAddress(rr) {
        wasA := true;
        if IsPrivateOrReserved(rr.ip) {
          dropped := dropped + 1;
          continue;
        }
        anyA := true;
      }
      ghost var before := b[..kept];
      b[kept] := rr;
      assert b[..kept + 1] == before + [rr];
      HasAddressAppend(before, rr);
      kept := kept + 1;
    }
    assert was[..n] == was;
    msg.len := kept;
  }

  lemma {:induction false} KeptOfNothing(s: seq<RR>)
    ensures Kept(s[..0]) == [] && !HasAddress(s[..0])
  {
  }

  lemma {:induction false} KeptOfPrefix(s: seq<RR>, i: nat)
    requires i < |s|
    ensures Kept(s[..i + 1]) == if Passes(s[i]) then Kept(s[..i]) + [s[i]] else Kept(s[..i])
  {
    assert s[..i + 1][..i] == s[..i];
  }

  lemma {:induction false} HasAddressOfPrefix(s: seq<RR>, i: nat)
    requires i < |s|
    ensures HasAddress(s[..i + 1]) <==> HasAddress(s[..i]) || IsAddress(s[i])
  {
  }

  lemma {:induction false} HasAddressAppend(s: seq<RR>, rr: RR)
    ensures HasAddress(s + [rr]) <==> HasAddress(s) || IsAddress(rr)
  {
    HasAddressOfPrefix(s + [rr], |s|);
    assert (s + [rr])[..|s|] == s && (s + [rr])[..|s| + 1] == s + [rr];
  }

  /** Strictly increasing positions that pick `t` out of `s`. */
  ghost predicate Picks(at: seq<nat>, s: seq<RR>, t: seq<RR>) {
    && |at| == |t|
    && (forall i :: 0 <= i < |at| ==> at[i] < |s| && s[at[i]] == t[i])
    && (forall i, j :: 0 <= i < j < |at| ==> at[i] < at[j])
  }

  function Positions(s: seq<RR>): seq<nat> {
    if s == [] then []
    else if Passes(s[|s| - 1]) then Positions(s[..|s| - 1]) + [|s| - 1]
    else Positions(s[..|s| - 1])
  }

  lemma {:induction false} PositionsPick(s: seq<RR>)
    ensures Picks(Positions(s), s, Kept(s))
  {
    hide Passes;
    if s != [] {
      var front := s[..|s| - 1];
      PositionsPick(front);
      assert forall i :: 0 <= i < |Positions(front)| ==> front[Positions(front)[i]] == s[Positions(front)[i]];
    }
  }

  lemma {:induction false} PositionsPass(s: seq<RR>, k: nat)
    requires k < |s|
    ensures k in Positions(s) <==> Passes(s[k])
  {
    hide Passes;
    var front := s[..|s| - 1];
    PositionsPick(front);
    if k < |s| - 1 {
      PositionsPass(front, k);
    } else if Passes(s[k]) {
      assert Positions(s)[|Positions(front)|] == k;
    }
  }

  /** The filter keeps the original order and exactly the positions whose record passes. */
  lemma {:induction false} KeptPositions(s: seq<RR>)
    ensures Picks(Positions(s), s, Kept(s))
    ensures forall k :: 0 <= k < |s| ==> (k in Positions(s) <==> Passes(s[k]))
  {
    PositionsPick(s);
    forall k | 0 <= k < |s| ensures k in Positions(s) <==> Passes(s[k]) { PositionsPass(s, k); }
  }

  // ----- the upstream answer

  datatype Rcode = NoError | NXDomain | ServFail | OtherCode(n: nat)
  datatype Reply = Reply(rcode: Rcode, answer: seq<RR>)

  const NX: Reply := Reply(NXDomain, [])

  function Upstream(exchange: Option<Reply>): Reply {
    if exchange.None? then Reply(ServFail, [])
    else
      var kept := Kept(exchange.value.answer);
      if HasAddress(exchange.value.answer) && !HasAddress(kept) then NX else Reply(exchange.value.rcode, kept)
  }

  /** An address record that may not be sent on. */
  predicate Rejected(rr: RR) { (rr.A? || rr.AAAA?) && IsPrivateOrReserved(rr.ip) }

  /** `t` are the records of `s` that may be sent on: all of them, at strictly increasing positions. */
  ghost predicate SentOn(s: seq<RR>, t: seq<RR>) {
    exists at :: Picks(at, s, t) && forall k :: 0 <= k < |s| ==> (k in at <==> !Rejected(s[k]))
  }

  /** There are address records, and every one is rejected. */
  predicate OnlyRejected(s: seq<RR>) {
    && (exists i :: 0 <= i < |s| && (s[i].A? || s[i].AAAA?))
    && forall i :: 0 <= i < |s| && (s[i].A? || s[i].AAAA?) ==> IsPrivateOrReserved(s[i].ip)
  }

  lemma {:induction false} KeptHasAddressIff(s: seq<RR>)
    ensures HasAddress(Kept(s)) <==>
      exists i :: 0 <= i < |s| && (s[i].A? || s[i].AAAA?) && !IsPrivateOrReserved(s[i].ip)
  {
    hide IsPrivateOrReserved;
    if s != [] {
      var (front, last) := (s[..|s| - 1], s[|s| - 1]);
      KeptHasAddressIff(front);
      if Passes(last) { assert Kept(s)[|Kept(s)| - 1] == last; }
      assert forall i :: 0 <= i < |Kept(front)| ==> Kept(front)[i] == Kept(s)[i];
      assert forall i :: 0 <= i < |front| ==> front[i] == s[i];
    }
  }

  /**
   * The answer for every exchange: SERVFAIL if it failed; NXDOMAIN without records if it has address records
   * and none passes; else its own rcode with exactly the records that pass, in their order.
   */
  lemma {:induction false} UpstreamIs(exchange: Option<Reply>)
    ensures exchange.None? ==> Upstream(exchange).rcode == ServFail && Upstream(exchange).answer == []
    ensures exchange.Some? && OnlyRejected(exchange.value.answer) ==>
      Upstream(exchange).rcode == NXDomain && Upstream(exchange).answer == []
    ensures exchange.Some? && !OnlyRejected(exchange.value.answer) ==>
      Upstream(exchange).rcode == exchange.value.rcode && SentOn(exchange.value.answer, Upstream(exchange).answer)
  {
    hide IsPrivateOrReserved, Kept, Positions;
    if exchange.Some? {
      KeptHasAddressIff(exchange.value.answer);
      KeptPositions(exchange.value.answer);
    }
  }

  /** `upstreamAnswer`; `None` stands for a failed exchange. */
  method UpstreamAnswer(exchange: Option<Reply>) returns (r: Reply)
    ensures r == Upstream(exchange)
    ensures exchange.None? ==> r.rcode == ServFail && r.answer == []
    ensures exchange.Some? && OnlyRejected(exchange.value.answer) ==> r.rcode == NXDomain && r.answer == []
    ensures exchange.Some? && !OnlyRejected(exchange.value.answer) ==>
      r.rcode == exchange.value.rcode && SentOn(exchange.value.answer, r.answer)
  {
    hide IsPrivateOrReserved, OnlyRejected, SentOn, Kept;
    UpstreamIs(exchange);
    if exchange.None? {
      return Reply(ServFail, []);
    }
    var msg := new Msg(exchange.value.answer);
    var dropped, anyA, wasA := Filter(msg);
    if wasA && !anyA {
      return NX;
    }
    return Reply(exchange.value.rcode, msg.buf[..msg.len]);
  }

  lemma {:induction false} KeptPass(s: seq<RR>, rr: RR)
    requires rr in Kept(s)
    ensures rr in s && Passes(rr)
  {
    if rr !in Kept(s[..|s| - 1]) {
      assert rr == s[|s| - 1];
    } else {
      KeptPass(s[..|s| - 1], rr);
    }
  }

  /** No answer carries an address the filter rejects, and each comes from the upstream answer. */
  lemma {:induction false} UpstreamIsClean(exchange: Option<Reply>, rr: RR)
    requires rr in Upstream(exchange).answer
    ensures exchange.Some? && rr in exchange.value.answer && Passes(rr)
  {
    KeptPass(exchange.value.answer, rr);
  }

  // ----- the addresses and TTL handed to the ledger

  function Addrs(answer: seq<RR>): (addrs: seq<RR>)
    ensures forall i :: 0 <= i < |addrs| ==> IsAddress(addrs[i])
  {
    if answer == [] then []
    else if IsAddress(answer[|answer| - 1]) then Addrs(answer[..|answer| - 1]) + [answer[|answer| - 1]]
    else Addrs(answer[..|answer| - 1])
  }

  function TextsOf(addrs: seq<RR>, text: IP -> string): seq<string>
    requires forall i :: 0 <= i < |addrs| ==> IsAddress(addrs[i])
  {
    seq(|addrs|, i requires 0 <= i < |addrs| && IsAddress(addrs[i]) => text(addrs[i].ip))
  }

  lemma {:induction false} AddrsAreAddresses(answer: seq<RR>)
    ensures forall rr :: rr in Addrs(answer) <==> rr in answer && IsAddress(rr)
  {
    if answer != [] {
      var front := answer[..|answer| - 1];
      AddrsAreAddresses(front);
      assert answer == front + [answer[|answer| - 1]];
    }
  }

  /** `ips` are the texts of the A and AAAA records, which stand at the positions `at`. */
  ghost predicate TextsAt(answer: seq<RR>, text: IP -> string, ips: seq<string>, at: seq<nat>) {
    && |at| == |ips| && (forall i, j :: 0 <= i < j < |at| ==> at[i] < at[j])
    && (forall i :: 0 <= i < |at| ==>
          at[i] < |answer| && (answer[at[i]].A? || answer[at[i]].AAAA?) && ips[i] == text(answer[at[i]].ip))
    && (forall k :: 0 <= k < |answer| && (answer[k].A? || answer[k].AAAA?) ==> k in at)
  }

  /** The texts handed to the ledger are those of all A and AAAA records, in their order. */
  ghost predicate TextsInOrder(answer: seq<RR>, text: IP -> string, ips: seq<string>) {
    exists at: seq<nat> :: TextsAt(answer, text, ips, at)
  }

  lemma {:induction false} OneMoreText(answer: seq<RR>, text: IP -> string, ips: seq<string>, at: seq<nat>, rr: RR)
    requires TextsAt(answer, text, ips, at)
    ensures IsAddress(rr) ==> TextsAt(answer + [rr], text, ips + [text(rr.ip)], at + [|answer|])
    ensures !IsAddress(rr) ==> TextsAt(answer + [rr], text, ips, at)
  {
    assert (at + [|answer|])[|at|] == |answer|;
    assert forall k :: k in at ==> k in at + [|answer|];
  }

  lemma {:induction false} TextsAreInOrder(answer: seq<RR>, text: IP -> string)
    ensures TextsInOrder(answer, text, TextsOf(Addrs(answer), text))
  {
    hide TextsAt;
    if answer == [] {
      NoTexts(text);
    } else {
      var (front, last) := (answer[..|answer| - 1], answer[|answer| - 1]);
      TextsAreInOrder(front, text);
      var ips := TextsOf(Addrs(front), text);
      var at: seq<nat> :| TextsAt(front, text, ips, at);
      OneMoreText(front, text, ips, at, last);
      assert front + [last] == answer;
      if IsAddress(last) { assert TextsOf(Addrs(answer), text) == ips + [text(last.ip)]; }
    }
  }

  lemma {:induction false} NoTexts(text: IP -> string)
    ensures TextsInOrder([], text, TextsOf(Addrs([]), text))
  {
    assert TextsAt([], text, TextsOf(Addrs([]), text), []);
  }

  /** The running TTL: a TTL of zero is taken for "none yet". */
  function FoldTtl(addrs: seq<RR>): nat {
    if addrs == [] then 0
    else
      var m := FoldTtl(addrs[..|addrs| - 1]);
      var ttl := addrs[|addrs| - 1].ttl;
      if m == 0 || ttl < m then ttl else m
  }

  method ExtractAnswers(answer: seq<RR>, text: IP -> string) returns (ips: seq<string>, minTTL: nat)
    ensures ips == TextsOf(Addrs(answer), text)
    ensures TextsInOrder(answer, text, ips)
    ensures minTTL == FoldTtl(Addrs(answer))
  {
    hide TextsInOrder;
    TextsAreInOrder(answer, text);
    ips, minTTL := [], 0;
    ghost var seen := [];
    for i := 0 to |answer|
      invariant seen == Addrs(answer[..i])
      invariant ips == TextsOf(seen, text)
      invariant minTTL == FoldTtl(seen)
    {
      var rr := answer[i];
      assert answer[..i + 1][..i] == answer[..i];
      if !IsAddress(rr) {
        continue;
      }
      ips := ips + [text(rr.ip)];
      assert (seen + [rr])[..|seen|] == seen;
      if minTTL == 0 || rr.ttl < minTTL {
        minTTL := rr.ttl;
      }
      seen := seen + [rr];
    }
    assert answer[..|answer|] == answer;
  }

  ghost predicate IsMinTtl(addrs: seq<RR>, m: nat) {
    && (exists i :: 0 <= i < |addrs| && addrs[i].ttl == m)
    && (forall i :: 0 <= i < |addrs| ==> m <= addrs[i].ttl)
  }

  lemma {:induction false} FoldTtlBound(addrs: seq<RR>)
    requires addrs != []
    ensures exists i :: 0 <= i < |addrs| && addrs[i].ttl == FoldTtl(addrs)
    ensures (forall i :: 0 <= i < |addrs| ==> addrs[i].ttl > 0) ==>
              forall i :: 0 <= i < |addrs| ==> FoldTtl(addrs) <= addrs[i].ttl
    ensures FoldTtl(addrs) == 0 <==> addrs[|addrs| - 1].ttl == 0
  {
    var front := addrs[..|addrs| - 1];
    if front != [] {
      FoldTtlBound(front);
      var i :| 0 <= i < |front| && front[i].ttl == FoldTtl(front);
      assert addrs[i] == front[i];
      assert forall k :: 0 <= k < |front| ==> front[k] == addrs[k];
    }
  }

  /** The extracted TTL is the true minimum exactly when no address has TTL zero or the last one has. */
  lemma {:induction false} TtlIsMinimumIff(addrs: seq<RR>)
    requires addrs != []
    ensures IsMinTtl(addrs, FoldTtl(addrs))
      <==> (forall i :: 0 <= i < |addrs| ==> addrs[i].ttl > 0) || addrs[|addrs| - 1].ttl == 0
  {
    FoldTtlBound(addrs);
  }

  /** In general it is the least TTL after the last zero, or zero if that is the last one. */
  lemma {:induction false} TtlIsMinimumSinceZero(addrs: seq<RR>, z: nat)
    requires z < |addrs| && (z > 0 ==> addrs[z - 1].ttl == 0) && forall i :: z <= i < |addrs| ==> addrs[i].ttl > 0
    ensures IsMinTtl(addrs[z..], FoldTtl(addrs))
    decreases |addrs|
  {
    var (front, n) := (addrs[..|addrs| - 1], |addrs| - 1);
    if z < n {
      TtlIsMinimumSinceZero(front, z);
      assert front[z..] == addrs[z..n] && addrs[z..] == addrs[z..n] + [addrs[n]];
      var i :| 0 <= i < |front[z..]| && front[z..][i].ttl == FoldTtl(front);
      assert addrs[z..][i].ttl == FoldTtl(front) && addrs[z..][n - z] == addrs[n];
    } else {
      if n > 0 { FoldTtlBound(front); }
      assert addrs[z..] == [addrs[n]];
    }
  }
}
