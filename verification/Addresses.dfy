/**
 * IP addresses as Go's net.IP holds them, the resolver's rebinding rule and verdict-api's
 * notion of a private address. The standard library's predicates are written out.
 */
module Addresses {
  import opened Wrappers

  type Byte = bv8

  /** No address, a 4-byte address, or a 16-byte address (which may be an IPv4-mapped one). */
  datatype IP = Nil | V4(a: Byte, b: Byte, c: Byte, d: Byte) | V6(bytes: Bytes16)

  type Bytes16 = s: seq<Byte> | |s| == 16 witness [0, 0, 0, 0, 0, 0, 0, 0, 0, 0, 0, 0, 0, 0, 0, 0]

  predicate Mapped(s: Bytes16) {
    (forall i :: 0 <= i < 10 ==> s[i] == 0) && s[10] == 0xff && s[11] == 0xff
  }

  /** The 4-byte form, when there is one (`To4`). */
  function To4(ip: IP): (r: IP)
    ensures r.Nil? || r.V4?
  {
    match ip
    case Nil => Nil
    case V4(_, _, _, _) => ip
    case V6(s) => if Mapped(s) then V4(s[12], s[13], s[14], s[15]) else Nil
  }

  /** The 16-byte form, in which parsing delivers every address. */
  function To16(ip: IP): IP {
    match ip
    case V4(a, b, c, d) => V6([0, 0, 0, 0, 0, 0, 0, 0, 0, 0, 0xff, 0xff, a, b, c, d])
    case _ => ip
  }

  // ----- net.IP predicates

  predicate AllZeroBut(s: Bytes16, last: Byte) { (forall i :: 0 <= i < 15 ==> s[i] == 0) && s[15] == last }

  predicate IsPrivate(ip: IP) {
    var v := To4(ip);
    if v.V4? then v.a == 10 || (v.a == 172 && v.b & 0xf0 == 16) || (v.a == 192 && v.b == 168)
    else ip.V6? && ip.bytes[0] & 0xfe == 0xfc
  }

  predicate IsLoopback(ip: IP) {
    var v := To4(ip);
    if v.V4? then v.a == 127 else ip.V6? && AllZeroBut(ip.bytes, 1)
  }

  predicate IsLinkLocalUnicast(ip: IP) {
    var v := To4(ip);
    if v.V4? then v.a == 169 && v.b == 254 else ip.V6? && ip.bytes[0] == 0xfe && ip.bytes[1] & 0xc0 == 0x80
  }

  predicate IsLinkLocalMulticast(ip: IP) {
    var v := To4(ip);
    if v.V4? then v.a == 224 && v.b == 0 && v.c == 0 else ip.V6? && ip.bytes[0] == 0xff && ip.bytes[1] & 0x0f == 2
  }

  predicate IsInterfaceLocalMulticast(ip: IP) { ip.V6? && ip.bytes[0] == 0xff && ip.bytes[1] & 0x0f == 1 }

  predicate IsMulticast(ip: IP) {
    var v := To4(ip);
    if v.V4? then v.a & 0xf0 == 0xe0 else ip.V6? && ip.bytes[0] == 0xff
  }

  predicate IsUnspecified(ip: IP) {
    var v := To4(ip);
    if v.V4? then v == V4(0, 0, 0, 0) else ip.V6? && AllZeroBut(ip.bytes, 0)
  }

  // ----- the two classifiers

  /** `isPrivateOrReserved` of the rebinding filter. */
  predicate IsPrivateOrReserved(ip: IP) {
    ip.Nil?
    || IsPrivate(ip)
    || IsLoopback(ip) || IsLinkLocalUnicast(ip) || IsLinkLocalMulticast(ip)
    || IsMulticast(ip) || IsInterfaceLocalMulticast(ip) || IsUnspecified(ip)
    || (var v := To4(ip);
        if v.V4? then
          (v.a == 100 && v.b & 0xc0 == 64)
          || (v.a == 169 && v.b == 254)
          || (v.a == 192 && v.b == 0 && v.c == 0)
          || (v.a == 192 && v.b == 0 && v.c == 2)
          || (v.a == 198 && v.b == 51 && v.c == 100)
          || (v.a == 203 && v.b == 0 && v.c == 113)
          || (v.a == 198 && (v.b == 18 || v.b == 19))
          || v.a >= 240
        else ip.V6? && ip.bytes[0] == 0x20 && ip.bytes[1] == 0x01 && ip.bytes[2] == 0x0d && ip.bytes[3] == 0xb8)
  }

  /** `IsPrivateIP` of verdict-api, on the parsed address; text that does not parse is not private. */
  predicate IsPrivateIP(parsed: Option<IP>) {
    parsed.Some? && !parsed.value.Nil? &&
    (var ip := parsed.value;
     IsLoopback(ip) || IsLinkLocalUnicast(ip) || IsLinkLocalMulticast(ip) || IsPrivate(ip)
     || (var v := To4(ip); v.V4? && v.a == 100 && 64 <= v.b <= 127))
  }

  lemma {:induction false} To4To16(ip: IP)
    ensures To4(To16(ip)) == To4(ip) && (ip.V4? ==> To16(ip).V6? && To16(ip).bytes[0] == 0)
  {
    if ip.V4? {
      var m := To16(ip);
      assert Mapped(m.bytes);
    }
  }

  /** A 16-byte address has a 4-byte form exactly if it is ::ffff:a.b.c.d, and then that. */
  lemma {:induction false} To4Is(s: Bytes16)
    ensures To4(V6(s)) ==
      if s[..12] == [0, 0, 0, 0, 0, 0, 0, 0, 0, 0, 0xff, 0xff] then V4(s[12], s[13], s[14], s[15]) else Nil
  {
    if Mapped(s) {
      assert s[..12] == [0, 0, 0, 0, 0, 0, 0, 0, 0, 0, 0xff, 0xff];
    } else if s[..12] == [0, 0, 0, 0, 0, 0, 0, 0, 0, 0, 0xff, 0xff] {
      forall i | 0 <= i < 12 ensures s[i] == s[..12][i] {}
    }
  }

  /** Both classifiers look through the 16-byte form of an IPv4 address. */
  lemma {:induction false} To16SameClass(ip: IP)
    ensures IsPrivateOrReserved(To16(ip)) == IsPrivateOrReserved(ip)
    ensures IsPrivateIP(Some(To16(ip))) == IsPrivateIP(Some(ip))
  {
    if ip.V4? {
      hide To4, To16, AllZeroBut;
      To4To16(ip);
      OwnTo4(ip);
    }
  }

  lemma {:induction false} OwnTo4(ip: IP)
    requires ip.V4?
    ensures To4(ip) == ip
  {
  }

  lemma {:induction false} CgnatMask(b: Byte)
    ensures 64 <= b <= 127 <==> b & 0xc0 == 64
  {
  }

  /** Everything verdict-api calls private the resolver refuses to answer with. */
  lemma {:induction false} PrivateIsReserved(ip: IP)
    requires IsPrivateIP(Some(ip))
    ensures IsPrivateOrReserved(ip) && IsPrivateOrReserved(To16(ip))
  {
    var v := To4(ip);
    if v.V4? { CgnatMask(v.b); }
    To16SameClass(ip);
  }

  // ----- the IPv4 rule against a table of address blocks

  datatype Block = Block(base: IP, mask: IP)

  predicate InBlock(v: IP, k: Block)
    requires v.V4? && k.base.V4? && k.mask.V4?
  {
    v.a & k.mask.a == k.base.a && v.b & k.mask.b == k.base.b && v.c & k.mask.c == k.base.c && v.d & k.mask.d == k.base.d
  }

  function Slash(a: Byte, b: Byte, c: Byte, bits: nat): Block
    requires bits in {4, 8, 10, 12, 15, 16, 24}
  {
    Block(V4(a, b, c, 0),
          if bits == 4 then V4(0xf0, 0, 0, 0) else if bits == 8 then V4(0xff, 0, 0, 0)
          else if bits == 10 then V4(0xff, 0xc0, 0, 0) else if bits == 12 then V4(0xff, 0xf0, 0, 0)
          else if bits == 15 then V4(0xff, 0xfe, 0, 0) else if bits == 16 then V4(0xff, 0xff, 0, 0)
          else V4(0xff, 0xff, 0xff, 0))
  }

  /** The blocks the filter's comments name. */
  function Reserved(): (r: seq<Block>)
    ensures forall k :: k in r ==> k.base.V4? && k.mask.V4?
  {
    [ Block(V4(0, 0, 0, 0), V4(0xff, 0xff, 0xff, 0xff)),
      Slash(10, 0, 0, 8), Slash(100, 64, 0, 10), Slash(127, 0, 0, 8), Slash(169, 254, 0, 16), Slash(172, 16, 0, 12),
      Slash(192, 0, 0, 24), Slash(192, 0, 2, 24), Slash(192, 168, 0, 16), Slash(198, 18, 0, 15),
      Slash(198, 51, 100, 24), Slash(203, 0, 113, 24), Slash(224, 0, 0, 4), Slash(240, 0, 0, 4) ]
  }

  /** The block a reserved address belongs to. */
  function BlockOf(v: IP): (i: nat)
    requires v.V4?
    ensures i < |Reserved()|
  {
    if v.a == 0 then 0 else if v.a == 10 then 1 else if v.a == 100 then 2 else if v.a == 127 then 3
    else if v.a == 169 then 4 else if v.a == 172 then 5
    else if v.a == 192 then (if v.b == 168 then 8 else if v.c == 0 then 6 else 7)
    else if v.a == 198 then (if v.b == 51 then 10 else 9)
    else if v.a == 203 then 11 else if v.a >= 240 then 13 else 12
  }

  /** The IPv4 rule is membership in that table: nothing listed gets through, nothing else is dropped. */
  lemma {:induction false} ReservedV4(v: IP)
    requires v.V4?
    ensures IsPrivateOrReserved(v) <==> exists k :: k in Reserved() && InBlock(v, k)
  {
    hide IsPrivateOrReserved, InBlock, Reserved;
    forall i | 0 <= i < |Reserved()| && InBlock(v, Reserved()[i])
      ensures IsPrivateOrReserved(v) { ListedIsReserved(v, i); }
    if IsPrivateOrReserved(v) {
      ReservedIsListed(v);
      assert Reserved()[BlockOf(v)] in Reserved();
    }
  }

  lemma {:induction false} ListedIsReserved(v: IP, i: nat)
    requires v.V4? && i < |Reserved()| && InBlock(v, Reserved()[i])
    ensures IsPrivateOrReserved(v)
  {
    hide InBlock, IsPrivateOrReserved;
    var r := Reserved();
    if i == 0 || i == 1 || i == 3 || i == 5 || i == 8 {
      Wide(v, r[i]);
    } else if i == 2 || i == 4 || i == 9 || i == 12 || i == 13 {
      Special(v, r[i]);
    } else {
      Narrow(v, r[i]);
    }
  }

  lemma {:induction false} Wide(v: IP, k: Block)
    requires v.V4? && k.base.V4? && k.mask.V4? && InBlock(v, k)
    requires k == Block(V4(0, 0, 0, 0), V4(0xff, 0xff, 0xff, 0xff)) || k == Slash(10, 0, 0, 8)
               || k == Slash(127, 0, 0, 8)
             || k == Slash(172, 16, 0, 12) || k == Slash(192, 168, 0, 16)
    ensures IsPrivateOrReserved(v)
  {
  }

  lemma {:induction false} Special(v: IP, k: Block)
    requires v.V4? && k.base.V4? && k.mask.V4? && InBlock(v, k)
    requires k == Slash(100, 64, 0, 10) || k == Slash(169, 254, 0, 16) || k == Slash(198, 18, 0, 15)
             || k == Slash(224, 0, 0, 4) || k == Slash(240, 0, 0, 4)
    ensures IsPrivateOrReserved(v)
  {
  }

  lemma {:induction false} Narrow(v: IP, k: Block)
    requires v.V4? && k.base.V4? && k.mask.V4? && InBlock(v, k)
    requires k == Slash(192, 0, 0, 24) || k == Slash(192, 0, 2, 24) || k == Slash(198, 51, 100, 24)
               || k == Slash(203, 0, 113, 24)
    ensures IsPrivateOrReserved(v)
  {
  }

  /** The IPv4 rule on the four bytes. */
  predicate RuleV4(v: IP)
    requires v.V4?
  {
    || v.a == 10 || (v.a == 172 && v.b & 0xf0 == 16) || (v.a == 192 && v.b == 168) || v.a == 127
    || (v.a == 169 && v.b == 254) || v.a & 0xf0 == 0xe0 || v == V4(0, 0, 0, 0)
    || (v.a == 100 && v.b & 0xc0 == 64)
    || (v.a == 192 && v.b == 0 && (v.c == 0 || v.c == 2))
    || (v.a == 198 && ((v.b == 51 && v.c == 100) || v.b == 18 || v.b == 19))
    || (v.a == 203 && v.b == 0 && v.c == 113) || v.a >= 240
  }

  lemma {:induction false} RuleIs(v: IP)
    requires v.V4? && IsPrivateOrReserved(v)
    ensures RuleV4(v)
  {
  }

  lemma {:induction false} ReservedIsListed(v: IP)
    requires v.V4? && IsPrivateOrReserved(v)
    ensures InBlock(v, Reserved()[BlockOf(v)])
  {
    hide IsPrivateOrReserved;
    RuleIs(v);
  }

  // ----- the IPv6 rule likewise

  datatype Prefix = Prefix(base: seq<Byte>, mask: seq<Byte>)

  predicate HasPrefix(s: Bytes16, p: Prefix) {
    |p.base| == |p.mask| <= 16 && forall i :: 0 <= i < |p.base| ==> s[i] & p.mask[i] == p.base[i]
  }

  const ONES: seq<Byte> := seq(16, _ => 0xff)

  /** Unspecified, loopback, unique local, link-local, multicast and documentation addresses. */
  predicate Reserved6(s: Bytes16) {
    || HasPrefix(s, Prefix(seq(16, _ => 0), ONES))
    || HasPrefix(s, Prefix(seq(15, _ => 0) + [1], ONES))
    || HasPrefix(s, Prefix([0xfc], [0xfe]))
    || HasPrefix(s, Prefix([0xfe, 0x80], [0xff, 0xc0]))
    || HasPrefix(s, Prefix([0xff], [0xff]))
    || HasPrefix(s, Prefix([0x20, 0x01, 0x0d, 0xb8], [0xff, 0xff, 0xff, 0xff]))
  }

  lemma {:induction false} FullMask(s: Bytes16, last: Byte)
    ensures HasPrefix(s, Prefix(seq(15, _ => 0) + [last], ONES)) <==> AllZeroBut(s, last)
  {
    hide HasPrefix;
    if HasPrefix(s, Prefix(seq(15, _ => 0) + [last], ONES)) { FullMaskOnly(s, last); }
    if AllZeroBut(s, last) { FullMaskEnough(s, last); }
  }

  lemma {:induction false} FullMaskOnly(s: Bytes16, last: Byte)
    requires HasPrefix(s, Prefix(seq(15, _ => 0) + [last], ONES))
    ensures AllZeroBut(s, last)
  {
    var base := seq<Byte>(15, _ => 0) + [last];
    forall i | 0 <= i < 16 ensures s[i] == base[i] { MaskAll(s[i]); }
  }

  lemma {:induction false} FullMaskEnough(s: Bytes16, last: Byte)
    requires AllZeroBut(s, last)
    ensures HasPrefix(s, Prefix(seq(15, _ => 0) + [last], ONES))
  {
    forall i | 0 <= i < 16 ensures s[i] & ONES[i] == s[i] { MaskAll(s[i]); }
  }

  lemma {:induction false} MaskAll(b: Byte)
    ensures b & 0xff == b
  {
  }

  lemma {:induction false} ShortPrefix(s: Bytes16)
    ensures HasPrefix(s, Prefix([0xfc], [0xfe])) <==> s[0] & 0xfe == 0xfc
    ensures HasPrefix(s, Prefix([0xff], [0xff])) <==> s[0] == 0xff
    ensures HasPrefix(s, Prefix([0xfe, 0x80], [0xff, 0xc0])) <==> s[0] == 0xfe && s[1] & 0xc0 == 0x80
    ensures HasPrefix(s, Prefix([0x20, 0x01, 0x0d, 0xb8], [0xff, 0xff, 0xff, 0xff]))
      <==> s[0] == 0x20 && s[1] == 0x01 && s[2] == 0x0d && s[3] == 0xb8
  {
    forall i | 0 <= i < 16 ensures s[i] & 0xff == s[i] { MaskAll(s[i]); }
  }

  /** For a 16-byte address that is no mapped IPv4 address the rule is that list, both directions. */
  lemma {:induction false} ReservedV6(s: Bytes16)
    requires !Mapped(s)
    ensures IsPrivateOrReserved(V6(s)) <==> Reserved6(s)
  {
    hide HasPrefix, AllZeroBut;
    FullMask(s, 0);
    FullMask(s, 1);
    assert seq(15, _ => 0) + [0] == seq<Byte>(16, _ => 0);
    ShortPrefix(s);
  }

  // ----- what verdict-api calls private, in numbers

  lemma {:induction false} PrivateMask(b: Byte)
    ensures 16 <= b <= 31 <==> b & 0xf0 == 16
    ensures b == 0xfc || b == 0xfd <==> b & 0xfe == 0xfc
    ensures 0x80 <= b <= 0xbf <==> b & 0xc0 == 0x80
  {
  }

  /** Private networks, loopback, link-local addresses, link-local multicast and carrier-grade NAT. */
  lemma {:induction false} PrivateV4Iff(v: IP)
    requires v.V4?
    ensures IsPrivateIP(Some(v)) <==>
      || v.a == 10 || (v.a == 172 && 16 <= v.b <= 31) || (v.a == 192 && v.b == 168) || v.a == 127
      || (v.a == 169 && v.b == 254) || (v.a == 224 && v.b == 0 && v.c == 0) || (v.a == 100 && 64 <= v.b <= 127)
  {
    PrivateMask(v.b);
  }

  /** Loopback, unique local, link-local, and multicast of link-local scope. */
  lemma {:induction false} PrivateV6Iff(s: Bytes16)
    requires !Mapped(s)
    ensures IsPrivateIP(Some(V6(s))) <==>
      || AllZeroBut(s, 1) || s[0] == 0xfc || s[0] == 0xfd || (s[0] == 0xfe && 0x80 <= s[1] <= 0xbf)
      || (s[0] == 0xff && s[1] & 0x0f == 2)
  {
    PrivateMask(s[0]);
    PrivateMask(s[1]);
  }
}
