/** IPv4 address lists: parsing, prefix masks on 32-bit numbers, and the ranges that count as private. */
module Ip {
  import opened Common

  const TWO32 := 0x1_0000_0000

  // ----- 32-bit numbers ------------------------------------------------------------

  /** `x >>> 0`. */
  function ToUint32(x: int): (r: nat)
    ensures r < TWO32
  {
    x % TWO32
  }

  function ToInt32(x: int): int {
    if ToUint32(x) >= 0x8000_0000 then ToUint32(x) - TWO32 else ToUint32(x)
  }

  /** `x` followed by `k` zeros. */
  function Scale(x: nat, k: nat): nat {
    if k == 0 then x else 2 * Scale(x, k - 1)
  }

  /** `x << n` for the counts below 32 that occur; the result is signed. */
  function Shl(x: nat, n: nat): int {
    ToInt32(Scale(x, n))
  }

  /** Bitwise and of two naturals, binary digit by binary digit. */
  function BitAnd(a: nat, b: nat): (r: nat)
    ensures r <= a
  {
    if a == 0 || b == 0 then 0
    else 2 * BitAnd(a / 2, b / 2) + if a % 2 == 1 && b % 2 == 1 then 1 else 0
  }

  /** `a & b` of two unsigned words: the result is signed. */
  function And32(a: nat, b: nat): int
    requires a < TWO32 && b < TWO32
  {
    ToInt32(BitAnd(a, b))
  }

  // ----- Parsing -----------------------------------------------------------------------

  /** One part of a dotted address: one to three digits, at most 255, no leading zero. */
  function Octet(s: string): (r: Option<nat>)
    ensures r.Some? ==> r.value < 256
  {
    if 1 <= |s| <= 3 && AllDigits(s) && (|s| > 1 ==> s[0] != '0') && Value(s) <= 255
    then Some(Value(s)) else None
  }

  function Ipv4ToInt(ip: string): (r: Option<nat>)
    ensures r.Some? ==> r.value < TWO32
  {
    var parts := Split(ip, '.');
    if |parts| != 4 || exists part :: part in parts && Octet(part).None? then None
    else Some(Assemble(Octet(parts[0]).value, Octet(parts[1]).value, Octet(parts[2]).value, Octet(parts[3]).value))
  }

  function Assemble(a: nat, b: nat, c: nat, d: nat): nat {
    ToUint32(ToUint32(Shl(a, 24)) + ToUint32(Shl(b, 16)) + ToUint32(Shl(c, 8)) + d)
  }

  const MAPPED_PREFIX := "::ffff:"

  function NormalizeIp(value: Option<string>): Option<string> {
    if value.None? || value.value == "" then None
    else
      var trimmed := Trim(value.value);
      if trimmed == "" then None
      else if MAPPED_PREFIX <= trimmed then Some(trimmed[|MAPPED_PREFIX|..])
      else Some(trimmed)
  }

  lemma {:induction false} FourDigits(s: string)
    requires AllDigits(s) && |s| >= 4 && s[0] != '0'
    ensures Value(s) >= 1000
  {
    if |s| == 4 {
      assert Value(s[..3]) == 10 * Value(s[..3][..2]) + (s[2] as int - '0' as int);
      assert s[..3][..2] == s[..2] && s[..2][..1] == s[..1] && s[..1][..0] == "";
      assert Value(s[..1]) == s[0] as int - '0' as int >= 1;
      assert Value(s[..2]) >= 10 && Value(s[..3]) >= 100;
    } else {
      FourDigits(s[..|s| - 1]);
    }
  }

  /** A part of an address is a decimal numeral without leading zeros, of a number below 256. */
  lemma OctetIff(s: string, n: nat)
    ensures Octet(s) == Some(n) <==>
            s != "" && AllDigits(s) && (s[0] == '0' ==> s == "0") && Value(s) == n && n < 256
  {
    if |s| >= 4 && AllDigits(s) && s[0] != '0' {
      FourDigits(s);
    }
  }

  /** What is compared: the trimmed text, without the prefix of an IPv4 address mapped into IPv6. */
  lemma NormalizedIs(value: Option<string>)
    ensures value.None? || Trim(value.value) == "" ==> NormalizeIp(value) == None
    ensures value.Some? && Trim(value.value) != "" ==>
              var trimmed := Trim(value.value);
              NormalizeIp(value) == Some(if |trimmed| >= 7 && trimmed[..7] == "::ffff:" then trimmed[7..] else trimmed)
  {
  }

  /** Reading back a 32-bit number as signed changes it by a multiple of 2^32 at most. */
  lemma SignedIs(x: int)
    ensures -0x8000_0000 <= ToInt32(x) < 0x8000_0000 && (ToInt32(x) - x) % TWO32 == 0
  {
  }

  // ----- Matching ----------------------------------------------------------------------

  function Mask(prefix: nat): (r: nat)
    requires prefix <= 32
    ensures r < TWO32
  {
    if prefix == 0 then 0 else ToUint32(Shl(0xffff_ffff, 32 - prefix))
  }

  /** `number` reads text as JavaScript's `Number` does: the integer, or nothing. */
  predicate MatchesCidr(ip: string, cidr: string, number: string -> Option<int>) {
    var parts := Split(cidr, '/');
    var prefix := if |parts| == 1 then Some(32) else number(parts[1]);
    && prefix.Some? && 0 <= prefix.value <= 32
    && Ipv4ToInt(ip).Some? && Ipv4ToInt(parts[0]).Some?
    && And32(Ipv4ToInt(ip).value, Mask(prefix.value)) == And32(Ipv4ToInt(parts[0]).value, Mask(prefix.value))
  }

  predicate EntryAllows(ip: string, entry: string, number: string -> Option<int>) {
    var candidate := NormalizeIp(Some(entry));
    && candidate.Some? && candidate.value != ""
    && if '/' in candidate.value then MatchesCidr(ip, candidate.value, number) else ip == candidate.value
  }

  predicate IsIpAllowed(remote: Option<string>, allowlist: seq<string>, number: string -> Option<int>) {
    var ip := NormalizeIp(remote);
    && ip.Some? && ip.value != ""
    && exists i :: 0 <= i < |allowlist| && EntryAllows(ip.value, allowlist[i], number)
  }

  /** Who is let in: an address equal to an entry, or an IPv4 address inside an entry that is a block. */
  lemma AllowedIff(remote: Option<string>, allowlist: seq<string>, number: string -> Option<int>)
    ensures IsIpAllowed(remote, allowlist, number) <==>
            && NormalizeIp(remote).Some? && NormalizeIp(remote) != Some("")
            && exists i :: && 0 <= i < |allowlist|
                           && (|| (NormalizeIp(Some(allowlist[i])) == NormalizeIp(remote)
                                   && '/' !in NormalizeIp(remote).value)
                               || (&& NormalizeIp(Some(allowlist[i])).Some?
                                   && '/' in NormalizeIp(Some(allowlist[i])).value
                                   && MatchesCidr(NormalizeIp(remote).value, NormalizeIp(Some(allowlist[i])).value,
                                                  number)))
  {
  }

  predicate InPrivateBlock(host: string, number: string -> Option<int>)
    requires Ipv4ToInt(host).Some?
  {
    || MatchesCidr(host, "10.0.0.0/8", number)
    || MatchesCidr(host, "172.16.0.0/12", number)
    || MatchesCidr(host, "192.168.0.0/16", number)
    || MatchesCidr(host, "127.0.0.0/8", number)
    || MatchesCidr(host, "169.254.0.0/16", number)
    || MatchesCidr(host, "0.0.0.0/8", number)
    || Ipv4ToInt(host).value == 0xffff_ffff
  }

  /** `lowered` is the host name in lower case. */
  predicate IsPrivateOrLocalAddress(lowered: string, number: string -> Option<int>) {
    var host := NormalizeIp(Some(lowered));
    && host.Some? && host.value != ""
    && (|| host.value == "localhost" || host.value == "::1"
        || (Ipv4ToInt(host.value).Some? && InPrivateBlock(host.value, number)))
  }

  // ----- The number of an address ---------------------------------------------------------

  /** Dotted parts as base-256 digits. */
  function Base256(a: nat, b: nat, c: nat, d: nat): nat {
    ((a * 256 + b) * 256 + c) * 256 + d
  }

  lemma Pow2Values()
    ensures Pow2(8) == 0x100 && Pow2(16) == 0x1_0000 && Pow2(20) == 0x10_0000 && Pow2(24) == 0x100_0000
    ensures Pow2(32) == TWO32
  {
    assert Pow2(4) == 16;
    assert Pow2(8) == 16 * Pow2(4);
    assert Pow2(12) == 16 * Pow2(8);
    assert Pow2(16) == 16 * Pow2(12);
    assert Pow2(20) == 16 * Pow2(16);
    assert Pow2(24) == 16 * Pow2(20);
    assert Pow2(28) == 16 * Pow2(24);
  }

  lemma {:induction false} ScaleIsProduct(x: nat, k: nat)
    ensures Scale(x, k) == x * Pow2(k)
  {
    if k == 0 {
    } else {
      ScaleIsProduct(x, k - 1);
    }
  }

  lemma SignedShift(x: nat, n: nat)
    requires x * Pow2(n) < TWO32
    ensures ToUint32(Shl(x, n)) == x * Pow2(n)
  {
    ScaleIsProduct(x, n);
  }

  /** The signed shifts add up to the base-256 value. */
  lemma AssembleIsBase256(a: nat, b: nat, c: nat, d: nat)
    requires a < 256 && b < 256 && c < 256 && d < 256
    ensures Assemble(a, b, c, d) == Base256(a, b, c, d) < TWO32
  {
    Pow2Values();
    SignedShift(a, 24);
    SignedShift(b, 16);
    SignedShift(c, 8);
  }

  lemma AddressIsBase256(ip: string)
    requires Ipv4ToInt(ip).Some?
    ensures |Split(ip, '.')| == 4
    ensures forall part :: part in Split(ip, '.') ==> Octet(part).Some?
    ensures var p := Split(ip, '.');
            Ipv4ToInt(ip).value
            == Base256(Octet(p[0]).value, Octet(p[1]).value, Octet(p[2]).value, Octet(p[3]).value) < TWO32
  {
    var p := Split(ip, '.');
    AssembleIsBase256(Octet(p[0]).value, Octet(p[1]).value, Octet(p[2]).value, Octet(p[3]).value);
  }

  lemma DigitsOf(s: string)
    requires AllDigits(s) && 1 <= |s| <= 3
    ensures |s| == 1 ==> Value(s) == s[0] as int - 48
    ensures |s| == 2 ==> Value(s) == 10 * (s[0] as int - 48) + (s[1] as int - 48)
    ensures |s| == 3 ==> Value(s) == 100 * (s[0] as int - 48) + 10 * (s[1] as int - 48) + (s[2] as int - 48)
  {
    if |s| <= 1 {
    } else {
      DigitsOf(s[..|s| - 1]);
    }
  }

  lemma OctetInjective(s: string, t: string)
    requires Octet(s).Some? && Octet(s) == Octet(t)
    ensures s == t
  {
    OctetLength(s);
    OctetLength(t);
    DigitsInjective(s, t);
  }

  lemma DigitsInjective(s: string, t: string)
    requires AllDigits(s) && AllDigits(t) && |s| == |t| && 1 <= |s| <= 3 && Value(s) == Value(t)
    ensures s == t
  {
    DigitsOf(s);
    DigitsOf(t);
    hide Value;
    assert s[0] == t[0];
  }

  /** Without leading zeros the value tells the number of digits. */
  lemma OctetLength(s: string)
    requires Octet(s).Some?
    ensures |s| == if Octet(s).value < 10 then 1 else if Octet(s).value < 100 then 2 else 3
  {
    DigitsOf(s);
  }

  lemma PartsInjective(p: seq<string>, q: seq<string>)
    requires |p| == |q| == 4
    requires forall i :: 0 <= i < 4 ==> Octet(p[i]).Some? && Octet(q[i]).Some?
    requires Base256(Octet(p[0]).value, Octet(p[1]).value, Octet(p[2]).value, Octet(p[3]).value)
             == Base256(Octet(q[0]).value, Octet(q[1]).value, Octet(q[2]).value, Octet(q[3]).value)
    ensures p == q
  {
    Base256Injective(Octet(p[0]).value, Octet(p[1]).value, Octet(p[2]).value, Octet(p[3]).value,
                     Octet(q[0]).value, Octet(q[1]).value, Octet(q[2]).value, Octet(q[3]).value);
    forall i | 0 <= i < 4
      ensures p[i] == q[i]
    {
      OctetInjective(p[i], q[i]);
    }
  }

  lemma Base256Injective(a: nat, b: nat, c: nat, d: nat, a': nat, b': nat, c': nat, d': nat)
    requires a < 256 && b < 256 && c < 256 && d < 256 && a' < 256 && b' < 256 && c' < 256 && d' < 256
    requires Base256(a, b, c, d) == Base256(a', b', c', d')
    ensures a == a' && b == b' && c == c' && d == d'
  {
  }

  /** Different texts are different addresses. */
  lemma AddressInjective(ip: string, other: string)
    requires Ipv4ToInt(ip).Some? && Ipv4ToInt(ip) == Ipv4ToInt(other)
    ensures ip == other
  {
    var p, q := Split(ip, '.'), Split(other, '.');
    AddressIsBase256(ip);
    AddressIsBase256(other);
    PartsInjective(p, q);
    JoinSplit(ip, '.');
    JoinSplit(other, '.');
  }

  // ----- The mask test ---------------------------------------------------------------------

  /** `x` without its lowest `k` binary digits. */
  function Above(x: nat, k: nat): nat {
    if k == 0 then x else Above(x / 2, k - 1)
  }

  lemma MultipleIsFar(z: int, d: nat)
    requires z >= 1
    ensures z * d >= d
  {
  }

  lemma DivIs(x: nat, d: nat, q: nat, r: nat)
    requires 0 <= r < d && x == q * d + r
    ensures x / d == q
  {
    var q' := x / d;
    assert x == q' * d + x % d;
    if q' > q {
      MultipleIsFar(q' - q, d);
    } else if q > q' {
      MultipleIsFar(q - q', d);
    }
  }

  lemma {:induction false} AboveBrackets(x: nat, k: nat)
    ensures Scale(Above(x, k), k) <= x < Scale(Above(x, k), k) + Pow2(k)
  {
    if k == 0 {
    } else {
      AboveBrackets(x / 2, k - 1);
    }
  }

  /** Dropping `k` binary digits is division by two to the `k`. */
  lemma AboveIsDivision(x: nat, k: nat)
    ensures Above(x, k) == x / Pow2(k)
  {
    AboveBrackets(x, k);
    ScaleIsProduct(Above(x, k), k);
    DivIs(x, Pow2(k), Above(x, k), x - Scale(Above(x, k), k));
  }

  lemma {:induction false} AboveTwice(x: nat, j: nat, k: nat)
    ensures Above(Above(x, j), k) == Above(x, j + k)
  {
    if j == 0 {
    } else {
      AboveTwice(x / 2, j - 1, k);
    }
  }

  lemma {:induction false} AboveBounds(x: nat, p: nat, k: nat)
    requires x < Pow2(p + k)
    ensures Above(x, k) < Pow2(p)
    ensures Scale(Above(x, k), k) <= x
  {
    if k == 0 {
    } else {
      AboveBounds(x / 2, p, k - 1);
    }
  }

  lemma {:induction false} ScaleInjective(x: nat, y: nat, k: nat)
    requires Scale(x, k) == Scale(y, k)
    ensures x == y
  {
    if k == 0 {
    } else {
      ScaleInjective(x, y, k - 1);
    }
  }

  lemma {:induction false} ScaledOnes(p: nat, k: nat)
    ensures Scale(Pow2(p) - 1, k) == Pow2(p + k) - Pow2(k)
  {
    if k == 0 {
    } else {
      ScaledOnes(p, k - 1);
    }
  }

  lemma {:induction false} AndOnes(x: nat, n: nat)
    requires x < Pow2(n)
    ensures BitAnd(x, Pow2(n) - 1) == x
  {
    if n == 0 || x == 0 {
    } else {
      AndOnes(x / 2, n - 1);
    }
  }

  /** Masking with digits followed by `k` zeros looks only above the lowest `k` digits. */
  lemma {:induction false} AndAbove(x: nat, m: nat, k: nat)
    ensures BitAnd(x, Scale(m, k)) == Scale(BitAnd(Above(x, k), m), k)
  {
    if k == 0 {
    } else {
      AndAbove(x / 2, m, k - 1);
    }
  }

  lemma ShiftedOnes(w: nat)
    requires 0 < w <= TWO32
    ensures ToUint32(ToInt32(0xffff_ffff * w)) == TWO32 - w
  {
    assert 0xffff_ffff * w == TWO32 * (w - 1) + (TWO32 - w);
  }

  /** The shifted word is `prefix` ones followed by zeros. */
  lemma MaskShape(prefix: nat)
    requires prefix <= 32
    ensures Mask(prefix) == Scale(Pow2(prefix) - 1, 32 - prefix) < TWO32
  {
    var k := 32 - prefix;
    Pow2Values();
    ScaledOnes(prefix, k);
    AboveBounds(0, prefix, k);
    if prefix > 0 {
      ScaleIsProduct(0xffff_ffff, k);
      Pow2Grows(k, 32);
      ShiftedOnes(Pow2(k));
    } else {
      ScaledOnes(0, 32);
    }
  }

  lemma MaskedValue(x: nat, prefix: nat)
    requires x < TWO32 && prefix <= 32
    ensures BitAnd(x, Mask(prefix)) == Scale(Above(x, 32 - prefix), 32 - prefix) < TWO32
  {
    hide Pow2, BitAnd, Scale, Above;
    var k := 32 - prefix;
    MaskShape(prefix);
    AndAbove(x, Pow2(prefix) - 1, k);
    assert x < Pow2(prefix + k) by {
      Pow2Values();
    }
    AboveBounds(x, prefix, k);
    AndOnes(Above(x, k), prefix);
  }

  lemma SignKeepsEquality(a: nat, b: nat)
    requires a < TWO32 && b < TWO32
    ensures ToInt32(a) == ToInt32(b) <==> a == b
  {
  }

  /** The mask test holds exactly when the addresses agree above the lowest 32 - prefix binary digits. */
  lemma MaskTestIff(x: nat, y: nat, prefix: nat)
    requires x < TWO32 && y < TWO32 && prefix <= 32
    ensures And32(x, Mask(prefix)) == And32(y, Mask(prefix)) <==> Above(x, 32 - prefix) == Above(y, 32 - prefix)
  {
    var k := 32 - prefix;
    MaskShape(prefix);
    MaskedValue(x, prefix);
    MaskedValue(y, prefix);
    SignKeepsEquality(Scale(Above(x, k), k), Scale(Above(y, k), k));
    if Scale(Above(x, k), k) == Scale(Above(y, k), k) {
      ScaleInjective(Above(x, k), Above(y, k), k);
    }
  }

  /** A block given as text matches the addresses that share its first `prefix` binary digits. */
  lemma CidrMatchIff(ip: string, base: string, text: string, number: string -> Option<int>)
    requires '/' !in base && '/' !in text
    ensures MatchesCidr(ip, base + "/" + text, number) <==>
            && number(text).Some? && 0 <= number(text).value <= 32
            && Ipv4ToInt(ip).Some? && Ipv4ToInt(base).Some?
            && Above(Ipv4ToInt(ip).value, 32 - number(text).value)
               == Above(Ipv4ToInt(base).value, 32 - number(text).value)
  {
    SplitPrefix(base, text, '/');
    SplitPrefix(text, "", '/');
    assert Split(base + "/" + text, '/') == [base, text];
    if Ipv4ToInt(ip).Some? && Ipv4ToInt(base).Some? && number(text).Some? && 0 <= number(text).value <= 32 {
      MaskTestIff(Ipv4ToInt(ip).value, Ipv4ToInt(base).value, number(text).value);
    }
  }

  /** Agreement at a prefix is agreement at every shorter one. */
  lemma ShorterPrefixAgrees(x: nat, y: nat, p: nat, q: nat)
    requires q <= p <= 32 && Above(x, 32 - p) == Above(y, 32 - p)
    ensures Above(x, 32 - q) == Above(y, 32 - q)
  {
    AboveTwice(x, 32 - p, p - q);
    AboveTwice(y, 32 - p, p - q);
  }

  lemma BlockEntry(ip: string, entry: string, block: string, number: string -> Option<int>)
    requires NormalizeIp(Some(entry)) == Some(block) && '/' in block
    ensures EntryAllows(ip, entry, number) <==> MatchesCidr(ip, block, number)
  {
  }

  lemma ShorterBlockMatches(ip: string, base: string, text: string, wider: string, number: string -> Option<int>)
    requires '/' !in base && '/' !in text && '/' !in wider
    requires number(text).Some? && number(wider).Some? && 0 <= number(wider).value <= number(text).value
    requires MatchesCidr(ip, base + "/" + text, number)
    ensures MatchesCidr(ip, base + "/" + wider, number)
  {
    hide MatchesCidr, Ipv4ToInt;
    CidrMatchIff(ip, base, text, number);
    CidrMatchIff(ip, base, wider, number);
    ShorterPrefixAgrees(Ipv4ToInt(ip).value, Ipv4ToInt(base).value, number(text).value, number(wider).value);
  }

  /** Replacing an entry by the same block with a shorter prefix takes nobody off the list. */
  lemma WideningKeepsAllowed(remote: Option<string>, list: seq<string>, i: nat, entry: string, base: string,
                             text: string, wider: string, number: string -> Option<int>)
    requires i < |list| && '/' !in base && '/' !in text && '/' !in wider
    requires NormalizeIp(Some(list[i])) == Some(base + "/" + text)
    requires NormalizeIp(Some(entry)) == Some(base + "/" + wider)
    requires number(text).Some? && number(wider).Some? && 0 <= number(wider).value <= number(text).value
    requires IsIpAllowed(remote, list, number)
    ensures IsIpAllowed(remote, list[i := entry], number)
  {
    var ip := NormalizeIp(remote).value;
    var j :| 0 <= j < |list| && EntryAllows(ip, list[j], number);
    if j == i {
      assert (base + "/" + text)[|base|] == '/' && (base + "/" + wider)[|base|] == '/';
      BlockEntry(ip, list[i], base + "/" + text, number);
      BlockEntry(ip, entry, base + "/" + wider, number);
      ShorterBlockMatches(ip, base, text, wider, number);
    }
    assert EntryAllows(ip, list[i := entry][j], number);
  }

  lemma NothingAbove(x: nat)
    requires x < TWO32
    ensures Above(x, 32) == 0
  {
    Pow2Values();
    AboveBounds(x, 0, 32);
  }

  /** A trailing slash makes an entry that matches every IPv4 address, because `Number("")` is 0. */
  lemma EmptyPrefixMatchesAll(ip: string, base: string, number: string -> Option<int>)
    requires '/' !in base && number("") == Some(0)
    ensures MatchesCidr(ip, base + "/", number) <==> Ipv4ToInt(ip).Some? && Ipv4ToInt(base).Some?
  {
    assert base + "/" + "" == base + "/";
    CidrMatchIff(ip, base, "", number);
    if Ipv4ToInt(ip).Some? && Ipv4ToInt(base).Some? {
      NothingAbove(Ipv4ToInt(ip).value);
      NothingAbove(Ipv4ToInt(base).value);
    }
  }

  // ----- The private ranges -------------------------------------------------------------------

  /** 10/8, 172.16/12, 192.168/16 (section 3 of RFC 1918), 127/8, 169.254/16, 0/8 and the broadcast address. */
  predicate InPrivateRange(x: nat) {
    || 0x0A00_0000 <= x <= 0x0AFF_FFFF
    || 0xAC10_0000 <= x <= 0xAC1F_FFFF
    || 0xC0A8_0000 <= x <= 0xC0A8_FFFF
    || 0x7F00_0000 <= x <= 0x7FFF_FFFF
    || 0xA9FE_0000 <= x <= 0xA9FE_FFFF
    || x <= 0x00FF_FFFF
    || x == 0xFFFF_FFFF
  }

  function Dotted(a: string, b: string, c: string, d: string): string {
    a + "." + (b + "." + (c + "." + d))
  }

  lemma QuadValue(a: string, b: string, c: string, d: string)
    requires Octet(a).Some? && Octet(b).Some? && Octet(c).Some? && Octet(d).Some?
    ensures Ipv4ToInt(Dotted(a, b, c, d)) ==
            Some(Base256(Octet(a).value, Octet(b).value, Octet(c).value, Octet(d).value))
  {
    SplitPrefix(d, "", '.');
    SplitPrefix(c, d, '.');
    SplitPrefix(b, c + "." + d, '.');
    SplitPrefix(a, b + "." + (c + "." + d), '.');
    assert [a] + ([b] + ([c] + [d])) == [a, b, c, d];
    PartsValue(Dotted(a, b, c, d), a, b, c, d);
  }

  lemma DottedHasNoSlash(a: string, b: string, c: string, d: string)
    requires Octet(a).Some? && Octet(b).Some? && Octet(c).Some? && Octet(d).Some?
    ensures '/' !in Dotted(a, b, c, d)
  {
  }

  lemma PartsValue(ip: string, a: string, b: string, c: string, d: string)
    requires Split(ip, '.') == [a, b, c, d]
    requires Octet(a).Some? && Octet(b).Some? && Octet(c).Some? && Octet(d).Some?
    ensures Ipv4ToInt(ip) == Some(Base256(Octet(a).value, Octet(b).value, Octet(c).value, Octet(d).value))
  {
    AssembleIsBase256(Octet(a).value, Octet(b).value, Octet(c).value, Octet(d).value);
  }

  lemma DivisionInterval(x: nat, q: nat, w: nat)
    requires w > 0
    ensures x / w == q <==> q * w <= x < q * w + w
  {
    if q * w <= x < q * w + w {
      DivIs(x, w, q, x - q * w);
    }
  }

  lemma SameBlockInterval(x: nat, base: nat, k: nat, q: nat, w: nat)
    requires w == Pow2(k) && base == q * w
    ensures Above(x, k) == Above(base, k) <==> base <= x < base + w
  {
    AboveIsDivision(x, k);
    AboveIsDivision(base, k);
    DivIs(base, w, q, 0);
    DivisionInterval(x, q, w);
  }

  lemma BlockText(host: string, a: string, b: string, text: string, number: string -> Option<int>, p: nat)
    requires Octet(a).Some? && Octet(b).Some? && '/' !in text && number(text) == Some(p) && p <= 32
    requires Ipv4ToInt(host).Some?
    ensures MatchesCidr(host, Dotted(a, b, "0", "0") + "/" + text, number) <==>
            Above(Ipv4ToInt(host).value, 32 - p) == Above(Base256(Octet(a).value, Octet(b).value, 0, 0), 32 - p)
  {
    DigitsOf("0");
    QuadValue(a, b, "0", "0");
    DottedHasNoSlash(a, b, "0", "0");
    CidrMatchIff(host, Dotted(a, b, "0", "0"), text, number);
  }

  /** Block number `q` of width `w`, given as text, is an interval of addresses. */
  lemma BlockIsInterval(host: string, cidr: string, a: string, b: string, text: string,
                        number: string -> Option<int>, p: nat, q: nat, w: nat)
    requires cidr == Dotted(a, b, "0", "0") + "/" + text
    requires Octet(a).Some? && Octet(b).Some? && '/' !in text && number(text) == Some(p) && p <= 32
    requires Ipv4ToInt(host).Some?
    requires w == Pow2(32 - p) && q * w == Base256(Octet(a).value, Octet(b).value, 0, 0)
    ensures MatchesCidr(host, cidr, number) <==> q * w <= Ipv4ToInt(host).value < q * w + w
  {
    BlockText(host, a, b, text, number, p);
    SameBlockInterval(Ipv4ToInt(host).value, q * w, 32 - p, q, w);
  }

  /** An IPv4 host is private or local exactly when its number lies in one of the stated ranges. */
  lemma PrivateIffInRange(lowered: string, number: string -> Option<int>)
    requires number("8") == Some(8) && number("12") == Some(12) && number("16") == Some(16)
    ensures IsPrivateOrLocalAddress(lowered, number) <==>
            var host := NormalizeIp(Some(lowered));
            && host.Some?
            && (|| host.value in ["localhost", "::1"]
                || (Ipv4ToInt(host.value).Some? && InPrivateRange(Ipv4ToInt(host.value).value)))
  {
    var host := NormalizeIp(Some(lowered));
    if host.Some? && Ipv4ToInt(host.value).Some? {
      var h := host.value;
      PrivateBlocks(h, number);
      assert h != "" by {
        assert Split("", '.') == [""];
      }
    }
  }

  lemma TenText()
    ensures Dotted("10", "0", "0", "0") + "/" + "8" == "10.0.0.0/8"
    ensures Octet("10") == Some(10) && Octet("0") == Some(0)
  {
    DigitsOf("10");
    DigitsOf("0");
  }

  lemma TenBlock(h: string, number: string -> Option<int>)
    requires number("8") == Some(8) && Ipv4ToInt(h).Some?
    ensures MatchesCidr(h, "10.0.0.0/8", number) <==> 0x0A00_0000 <= Ipv4ToInt(h).value <= 0x0AFF_FFFF
  {
    Pow2Values();
    TenText();
    BlockIsInterval(h, "10.0.0.0/8", "10", "0", "8", number, 8, 10, 0x100_0000);
  }

  lemma OneSevenTwoText()
    ensures Dotted("172", "16", "0", "0") + "/" + "12" == "172.16.0.0/12"
    ensures Octet("172") == Some(172) && Octet("16") == Some(16)
  {
    DigitsOf("172");
    DigitsOf("16");
  }

  lemma OneSevenTwoBlock(h: string, number: string -> Option<int>)
    requires number("12") == Some(12) && Ipv4ToInt(h).Some?
    ensures MatchesCidr(h, "172.16.0.0/12", number) <==> 0xAC10_0000 <= Ipv4ToInt(h).value <= 0xAC1F_FFFF
  {
    Pow2Values();
    OneSevenTwoText();
    BlockIsInterval(h, "172.16.0.0/12", "172", "16", "12", number, 12, 0xAC1, 0x10_0000);
  }

  lemma OneNineTwoText()
    ensures Dotted("192", "168", "0", "0") + "/" + "16" == "192.168.0.0/16"
    ensures Octet("192") == Some(192) && Octet("168") == Some(168)
  {
    DigitsOf("192");
    DigitsOf("168");
  }

  lemma OneNineTwoBlock(h: string, number: string -> Option<int>)
    requires number("16") == Some(16) && Ipv4ToInt(h).Some?
    ensures MatchesCidr(h, "192.168.0.0/16", number) <==> 0xC0A8_0000 <= Ipv4ToInt(h).value <= 0xC0A8_FFFF
  {
    Pow2Values();
    OneNineTwoText();
    BlockIsInterval(h, "192.168.0.0/16", "192", "168", "16", number, 16, 0xC0A8, 0x1_0000);
  }

  lemma LoopbackText()
    ensures Dotted("127", "0", "0", "0") + "/" + "8" == "127.0.0.0/8"
    ensures Octet("127") == Some(127) && Octet("0") == Some(0)
  {
    DigitsOf("127");
    DigitsOf("0");
  }

  lemma LoopbackBlock(h: string, number: string -> Option<int>)
    requires number("8") == Some(8) && Ipv4ToInt(h).Some?
    ensures MatchesCidr(h, "127.0.0.0/8", number) <==> 0x7F00_0000 <= Ipv4ToInt(h).value <= 0x7FFF_FFFF
  {
    Pow2Values();
    LoopbackText();
    BlockIsInterval(h, "127.0.0.0/8", "127", "0", "8", number, 8, 127, 0x100_0000);
  }

  lemma LinkLocalText()
    ensures Dotted("169", "254", "0", "0") + "/" + "16" == "169.254.0.0/16"
    ensures Octet("169") == Some(169) && Octet("254") == Some(254)
  {
    DigitsOf("169");
    DigitsOf("254");
  }

  lemma LinkLocalBlock(h: string, number: string -> Option<int>)
    requires number("16") == Some(16) && Ipv4ToInt(h).Some?
    ensures MatchesCidr(h, "169.254.0.0/16", number) <==> 0xA9FE_0000 <= Ipv4ToInt(h).value <= 0xA9FE_FFFF
  {
    Pow2Values();
    LinkLocalText();
    BlockIsInterval(h, "169.254.0.0/16", "169", "254", "16", number, 16, 0xA9FE, 0x1_0000);
  }

  lemma ThisNetworkText()
    ensures Dotted("0", "0", "0", "0") + "/" + "8" == "0.0.0.0/8"
    ensures Octet("0") == Some(0) && Octet("0") == Some(0)
  {
    DigitsOf("0");
    DigitsOf("0");
  }

  lemma LowestBlock(h: string, zero: string, number: string -> Option<int>)
    requires Octet(zero) == Some(0)
    requires number("8") == Some(8) && Ipv4ToInt(h).Some?
    ensures MatchesCidr(h, Dotted(zero, zero, "0", "0") + "/" + "8", number) <==> Ipv4ToInt(h).value <= 0x00FF_FFFF
  {
    Pow2Values();
    BlockText(h, zero, zero, "8", number, 8);
    SameBlockInterval(Ipv4ToInt(h).value, 0, 24, 0, 0x100_0000);
  }

  lemma ThisNetworkBlock(h: string, number: string -> Option<int>)
    requires number("8") == Some(8) && Ipv4ToInt(h).Some?
    ensures MatchesCidr(h, "0.0.0.0/8", number) <==> Ipv4ToInt(h).value <= 0x00FF_FFFF
  {
    ThisNetworkText();
    LowestBlock(h, "0", number);
  }

  lemma PrivateBlocks(h: string, number: string -> Option<int>)
    requires number("8") == Some(8) && number("12") == Some(12) && number("16") == Some(16)
    requires Ipv4ToInt(h).Some?
    ensures InPrivateBlock(h, number) <==> InPrivateRange(Ipv4ToInt(h).value)
  {
    TenBlock(h, number);
    OneSevenTwoBlock(h, number);
    OneNineTwoBlock(h, number);
    LoopbackBlock(h, number);
    LinkLocalBlock(h, number);
    ThisNetworkBlock(h, number);
  }
}
