/**
  MAC keys: `mac_from_str` and `mse_positions_cmp` of `rb_mse_api.c`.

  `mac_from_str` runs `sscanf(mac, "%lx:%lx:%lx:%lx:%lx:%lx", ...)` into six
  zero-initialised `uint64_t` fields and folds them big-endian with
  `(acc << 8) + field`, all in wrapping 64-bit arithmetic. The scanner here
  follows glibc's `%lx` conversion: leading white space is skipped, an
  optional sign and an optional `0x` prefix are accepted, the digits are
  converted as `strtoul` does (saturating at `ULONG_MAX`, negating modulo
  2^64), and scanning stops at the first conversion or literal that fails.
 */
module MacAddress {
  import opened Wrappers

  /** 2^64: `uint64_t` (and `unsigned long` on LP64) arithmetic wraps modulo this. */
  const U64: nat := 0x1_0000_0000_0000_0000

  /** `ULONG_MAX`, which `strtoul` returns for a magnitude it cannot represent. */
  const ULongMax: nat := U64 - 1

  /** 2^48: every well-formed six-octet MAC address has a key below this. */
  const MacSpan: nat := 0x1_0000_0000_0000

  /** The `uint64_t` key the position tree is ordered by. */
  type Key = k: nat | k < U64

  // ---------------------------------------------------------------------
  // Characters
  // ---------------------------------------------------------------------

  predicate IsHexDigit(c: char) {
    '0' <= c <= '9' || 'a' <= c <= 'f' || 'A' <= c <= 'F'
  }

  /** The value of a hexadecimal digit (0 for any other character). */
  function DigitValue(c: char): (v: nat)
    ensures v < 16
  {
    if '0' <= c <= '9' then c as nat - '0' as nat
    else if 'a' <= c <= 'f' then c as nat - 'a' as nat + 10
    else if 'A' <= c <= 'F' then c as nat - 'A' as nat + 10
    else 0
  }

  /** `isspace` in the C locale: space and `\t` `\n` `\v` `\f` `\r`. */
  predicate IsSpace(c: char) {
    c == ' ' || '\t' <= c <= '\r'
  }

  // ---------------------------------------------------------------------
  // The `%lx` conversion
  // ---------------------------------------------------------------------

  /** Length of the run of hexadecimal digits that starts `s`. */
  function HexRun(s: string): (n: nat)
    ensures n <= |s|
  {
    if |s| > 0 && IsHexDigit(s[0]) then 1 + HexRun(s[1..]) else 0
  }

  /** The number a run of hexadecimal digits denotes, most significant digit first. */
  function HexValue(d: string): nat {
    if |d| == 0 then 0 else 16 * HexValue(d[..|d| - 1]) + DigitValue(d[|d| - 1])
  }

  /** `strtoul` on a digit string already collected by `scanf`: a magnitude
      beyond `ULONG_MAX` saturates, and a minus sign negates modulo 2^64. */
  function ToUnsignedLong(negative: bool, magnitude: nat): Key {
    if magnitude > ULongMax then ULongMax
    else if negative && magnitude > 0 then U64 - magnitude
    else magnitude
  }

  /** A converted field and the text that follows it. */
  datatype Scanned = Scanned(value: Key, rest: string)

  /** One `%lx` conversion at the start of `s`, or `None` when it fails.
      After `0x`, the `0` already counts as a digit, so `0x` followed by a
      non-digit converts to 0 and leaves the `x` consumed. */
  function ScanHex(s: string): Option<Scanned>
  {
    if |s| > 0 && IsSpace(s[0]) then ScanHex(s[1..]) else ScanSigned(s)
  }

  /** The conversion once leading white space is skipped. */
  function ScanSigned(t: string): Option<Scanned>
  {
    var negative := |t| > 0 && t[0] == '-';
    var u := if |t| > 0 && (t[0] == '-' || t[0] == '+') then t[1..] else t;
    if |u| >= 2 && u[0] == '0' && (u[1] == 'x' || u[1] == 'X') then
      var v := u[2..];
      var n := HexRun(v);
      Some(Scanned(ToUnsignedLong(negative, HexValue(v[..n])), v[n..]))
    else
      var n := HexRun(u);
      if n == 0 then None
      else Some(Scanned(ToUnsignedLong(negative, HexValue(u[..n])), u[n..]))
  }

  function Zeros(n: nat): (z: seq<Key>)
    ensures |z| == n
    ensures forall i :: 0 <= i < n ==> z[i] == 0
  {
    seq(n, i => 0)
  }

  /** How many of `count` colon-separated `%lx` fields `sscanf` converts
      before the first failure. */
  function Converted(s: string, count: nat): (n: nat)
    ensures n <= count
    decreases count
  {
    if count == 0 then 0
    else match ScanHex(s)
      case None => 0
      case Some(sc) =>
        if count > 1 && |sc.rest| > 0 && sc.rest[0] == ':' then 1 + Converted(sc.rest[1..], count - 1)
        else 1
  }

  /** The `count` zero-initialised fields after `sscanf(s, "%lx:%lx:...")`:
      the converted ones hold their values, the others keep their 0. */
  function ScanFields(s: string, count: nat): (fs: seq<Key>)
    ensures |fs| == count
    decreases count
  {
    if count == 0 then []
    else match ScanHex(s)
      case None => Zeros(count)
      case Some(sc) =>
        if count > 1 && |sc.rest| > 0 && sc.rest[0] == ':' then [sc.value] + ScanFields(sc.rest[1..], count - 1)
        else [sc.value] + Zeros(count - 1)
  }

  /** Fields that fail to parse stay 0: every field from the first failed
      conversion on (the `sscanf` return value) keeps its initial value. */
  lemma {:induction false} UnconvertedFieldsStayZero(s: string, count: nat, i: nat)
    requires Converted(s, count) <= i < count
    ensures ScanFields(s, count)[i] == 0
    decreases count
  {
    match ScanHex(s)
    case None =>
    case Some(sc) =>
      if count > 1 && |sc.rest| > 0 && sc.rest[0] == ':' {
        UnconvertedFieldsStayZero(sc.rest[1..], count - 1, i - 1);
      }
  }

  // ---------------------------------------------------------------------
  // Folding the fields into a key
  // ---------------------------------------------------------------------

  /** `(acc << 8) + field` on `uint64_t`: both the shift and the add wrap. */
  function ShiftAdd(acc: Key, field: Key): Key {
    ((acc * 256) % U64 + field) % U64
  }

  /** Left fold of `ShiftAdd`; starting from 0 gives the source's
      `((((one << 8) + two) << 8) + ...) + six`, since `(0 << 8) + one == one`. */
  function CombineFrom(acc: Key, fs: seq<Key>): Key
    decreases |fs|
  {
    if |fs| == 0 then acc else CombineFrom(ShiftAdd(acc, fs[0]), fs[1..])
  }

  /** `mac_from_str`. */
  function MacFromStr(s: string): Key {
    CombineFrom(0, ScanFields(s, 6))
  }

  // ---------------------------------------------------------------------
  // Reference: the big-endian value of a sequence of octets
  // ---------------------------------------------------------------------

  function Pow256(n: nat): (p: nat)
    ensures p >= 1
  {
    if n == 0 then 1 else 256 * Pow256(n - 1)
  }

  predicate AreOctets(o: seq<nat>) {
    forall i :: 0 <= i < |o| ==> o[i] < 256
  }

  /** Sum of `o[i] * 256^(|o| - 1 - i)`. */
  function OctetValue(o: seq<nat>): nat {
    if |o| == 0 then 0 else o[0] * Pow256(|o| - 1) + OctetValue(o[1..])
  }

  /** Lexicographic order on octet sequences of equal length. */
  predicate LexLess(a: seq<nat>, b: seq<nat>)
    requires |a| == |b|
  {
    |a| > 0 && (a[0] < b[0] || (a[0] == b[0] && LexLess(a[1..], b[1..])))
  }

  lemma MulLeRight(x: nat, y: nat, p: nat)
    requires x <= y
    ensures x * p <= y * p
  {
  }

  lemma {:induction false} OctetValueBound(o: seq<nat>)
    requires AreOctets(o)
    ensures OctetValue(o) < Pow256(|o|)
  {
    if |o| > 0 {
      var p := Pow256(|o| - 1);
      assert Pow256(|o|) == 256 * p;
      assert AreOctets(o[1..]);
      OctetValueBound(o[1..]);
      assert OctetValue(o) == o[0] * p + OctetValue(o[1..]);
      assert o[0] * p + p == (o[0] + 1) * p;
      MulLeRight(o[0] + 1, 256, p);
    }
  }

  /** Without overflow, the wrapping fold is the plain big-endian value. */
  lemma {:induction false} CombineFromValue(acc: Key, fs: seq<Key>)
    requires AreOctets(fs)
    requires acc * Pow256(|fs|) + OctetValue(fs) < U64
    ensures CombineFrom(acc, fs) == acc * Pow256(|fs|) + OctetValue(fs)
    decreases |fs|
  {
    if |fs| > 0 {
      ShiftAddStep(acc, fs);
      assert AreOctets(fs[1..]);
      CombineFromValue(ShiftAdd(acc, fs[0]), fs[1..]);
    }
  }

  /** One step of the fold neither wraps nor loses value. */
  lemma ShiftAddStep(acc: Key, fs: seq<Key>)
    requires |fs| > 0 && AreOctets(fs)
    requires acc * Pow256(|fs|) + OctetValue(fs) < U64
    ensures ShiftAdd(acc, fs[0]) * Pow256(|fs| - 1) + OctetValue(fs[1..]) == acc * Pow256(|fs|) + OctetValue(fs)
  {
    ShiftArith(acc, fs[0], Pow256(|fs| - 1), OctetValue(fs[1..]), Pow256(|fs|), OctetValue(fs));
    ShiftAddNoWrap(acc, fs[0]);
  }

  lemma ShiftArith(acc: nat, f: nat, p: nat, r: nat, pp: nat, v: nat)
    requires p >= 1 && pp == 256 * p && v == f * p + r
    requires acc * pp + v < U64
    ensures acc * 256 + f < U64
    ensures (acc * 256 + f) * p + r == acc * pp + v
  {
    MulAssoc(acc, 256, p);
    MulDistrib(acc * 256, f, p);
    MulLeRight(1, p, acc * 256 + f);
  }

  lemma ShiftAddNoWrap(acc: Key, f: Key)
    requires acc * 256 + f < U64
    ensures ShiftAdd(acc, f) == acc * 256 + f
  {
    assert (acc * 256) % U64 == acc * 256;
  }

  lemma MulAssoc(a: nat, b: nat, c: nat)
    ensures a * (b * c) == (a * b) * c
  {
  }

  lemma MulDistrib(a: nat, b: nat, p: nat)
    ensures (a + b) * p == a * p + b * p
  {
  }

  /** Key encoding: when the six scanned fields are octets, the key is
      their big-endian value and fits in 48 bits. */
  lemma MacFromStrOfOctets(s: string)
    requires AreOctets(ScanFields(s, 6))
    ensures var o := ScanFields(s, 6);
      MacFromStr(s) == o[0] * 0x100_0000_0000 + o[1] * 0x1_0000_0000 + o[2] * 0x100_0000
                       + o[3] * 0x1_0000 + o[4] * 0x100 + o[5]
    ensures MacFromStr(s) < MacSpan
  {
    MacFromStrIsOctetValue(s);
    OctetValueOfSix(ScanFields(s, 6));
  }

  lemma OctetValueOfSix(o: seq<nat>)
    requires |o| == 6
    ensures OctetValue(o) == o[0] * 0x100_0000_0000 + o[1] * 0x1_0000_0000 + o[2] * 0x100_0000
                             + o[3] * 0x1_0000 + o[4] * 0x100 + o[5]
  {
    assert Pow256(0) == 1;
    assert Pow256(1) == 0x100;
    assert Pow256(2) == 0x1_0000;
    assert Pow256(3) == 0x100_0000;
    assert Pow256(4) == 0x1_0000_0000;
    assert Pow256(5) == 0x100_0000_0000;
    var o1, o2, o3, o4, o5 := o[1..], o[2..], o[3..], o[4..], o[5..];
    assert o5[1..] == [];
    assert o4[1..] == o5 && o3[1..] == o4 && o2[1..] == o3 && o1[1..] == o2 && o[1..] == o1;
    assert OctetValue(o5) == o[5];
    assert OctetValue(o4) == o[4] * 0x100 + OctetValue(o5);
    assert OctetValue(o3) == o[3] * 0x1_0000 + OctetValue(o4);
    assert OctetValue(o2) == o[2] * 0x100_0000 + OctetValue(o3);
    assert OctetValue(o1) == o[1] * 0x1_0000_0000 + OctetValue(o2);
    assert OctetValue(o) == o[0] * 0x100_0000_0000 + OctetValue(o1);
  }

  /** The key of a string whose fields are octets is their big-endian value. */
  lemma MacFromStrIsOctetValue(s: string)
    requires AreOctets(ScanFields(s, 6))
    ensures MacFromStr(s) == OctetValue(ScanFields(s, 6)) < MacSpan
  {
    var o := ScanFields(s, 6);
    OctetValueBound(o);
    assert Pow256(6) == MacSpan;
    CombineFromValue(0, o);
  }

  /** A smaller leading octet gives a smaller value, whatever follows. */
  lemma OctetValueFirstOrder(a: seq<nat>, b: seq<nat>)
    requires |a| == |b| > 0 && AreOctets(a) && AreOctets(b)
    requires a[0] < b[0]
    ensures OctetValue(a) < OctetValue(b)
  {
    var p := Pow256(|a| - 1);
    assert AreOctets(a[1..]);
    OctetValueBound(a[1..]);
    assert OctetValue(a) == a[0] * p + OctetValue(a[1..]);
    assert OctetValue(b) == b[0] * p + OctetValue(b[1..]);
    assert a[0] * p + p == (a[0] + 1) * p;
    MulLeRight(a[0] + 1, b[0], p);
  }

  lemma {:induction false} OctetValueOrder(a: seq<nat>, b: seq<nat>)
    requires |a| == |b| && AreOctets(a) && AreOctets(b)
    ensures OctetValue(a) < OctetValue(b) <==> LexLess(a, b)
  {
    if |a| > 0 {
      if a[0] < b[0] {
        OctetValueFirstOrder(a, b);
      } else if b[0] < a[0] {
        OctetValueFirstOrder(b, a);
      } else {
        assert AreOctets(a[1..]) && AreOctets(b[1..]);
        OctetValueOrder(a[1..], b[1..]);
      }
    }
  }

  lemma {:induction false} LexTrichotomy(a: seq<nat>, b: seq<nat>)
    requires |a| == |b|
    ensures a == b || LexLess(a, b) || LexLess(b, a)
  {
    if |a| > 0 && a[0] == b[0] {
      LexTrichotomy(a[1..], b[1..]);
      if a[1..] == b[1..] {
        assert a == [a[0]] + a[1..] && b == [b[0]] + b[1..];
      }
    }
  }

  lemma OctetValueInjective(a: seq<nat>, b: seq<nat>)
    requires |a| == |b| && AreOctets(a) && AreOctets(b)
    requires OctetValue(a) == OctetValue(b)
    ensures a == b
  {
    OctetValueOrder(a, b);
    OctetValueOrder(b, a);
    LexTrichotomy(a, b);
  }

  /** Distinct octet tuples give distinct keys. */
  lemma MacKeyInjective(s1: string, s2: string)
    requires AreOctets(ScanFields(s1, 6)) && AreOctets(ScanFields(s2, 6))
    ensures MacFromStr(s1) == MacFromStr(s2) <==> ScanFields(s1, 6) == ScanFields(s2, 6)
  {
    var a, b := ScanFields(s1, 6), ScanFields(s2, 6);
    MacFromStrIsOctetValue(s1);
    MacFromStrIsOctetValue(s2);
    if MacFromStr(s1) == MacFromStr(s2) {
      OctetValueInjective(a, b);
    }
  }

  // ---------------------------------------------------------------------
  // The tree comparator
  // ---------------------------------------------------------------------

  /** `mse_positions_cmp(node1, node2)`: compares the keys without subtracting them. */
  function Compare(a: Key, b: Key): (r: int)
    ensures r == 0 <==> a == b
    ensures r == 1 <==> a < b
    ensures r == -1 <==> b < a
  {
    if b > a then 1 else if b < a then -1 else 0
  }

  /** The comparator is antisymmetric and transitive and only ever answers
      -1, 0 or 1, so the tree sees a strict total order on keys. */
  lemma CompareIsTotalOrder(a: Key, b: Key, c: Key)
    ensures Compare(a, b) in {-1, 0, 1}
    ensures Compare(a, b) == -Compare(b, a)
    ensures Compare(a, b) == 1 && Compare(b, c) == 1 ==> Compare(a, c) == 1
    ensures Compare(a, b) == 0 && Compare(b, c) == 0 ==> Compare(a, c) == 0
  {
  }

  /** For well-formed addresses the tree's order is the lexicographic order
      of the octets, and "compares equal" means "same octets". */
  lemma CompareOrdersOctets(s1: string, s2: string)
    requires AreOctets(ScanFields(s1, 6)) && AreOctets(ScanFields(s2, 6))
    ensures Compare(MacFromStr(s1), MacFromStr(s2)) == 0 <==> ScanFields(s1, 6) == ScanFields(s2, 6)
    ensures Compare(MacFromStr(s1), MacFromStr(s2)) == 1 <==> LexLess(ScanFields(s1, 6), ScanFields(s2, 6))
  {
    var a, b := ScanFields(s1, 6), ScanFields(s2, 6);
    MacKeyInjective(s1, s2);
    MacFromStrIsOctetValue(s1);
    MacFromStrIsOctetValue(s2);
    OctetValueOrder(a, b);
  }

  // ---------------------------------------------------------------------
  // Printing a key as `aa:bb:cc:dd:ee:ff` and reading it back
  // ---------------------------------------------------------------------

  /** The lower-case hexadecimal digit for `d`. */
  function HexDigitChar(d: nat): (c: char)
    requires d < 16
    ensures IsHexDigit(c) && DigitValue(c) == d
  {
    if d < 10 then ('0' as int + d) as char else ('a' as int + d - 10) as char
  }

  /** `%02x` of the low octet of `o`. */
  function Hex2(o: nat): (h: string)
    ensures |h| == 2
  {
    [HexDigitChar(o / 16 % 16), HexDigitChar(o % 16)]
  }

  /** The parts separated by `:`. */
  function Joined(parts: seq<string>): string
    requires |parts| >= 1
  {
    if |parts| == 1 then parts[0] else parts[0] + (":" + Joined(parts[1..]))
  }

  /** `%02x:%02x:...` of the given octets. */
  function FormatOctets(o: seq<nat>): string
    requires |o| >= 1
  {
    Joined(HexParts(o))
  }

  function HexParts(o: seq<nat>): (parts: seq<string>)
    ensures |parts| == |o|
  {
    if |o| == 0 then [] else [Hex2(o[0])] + HexParts(o[1..])
  }

  /** The `n` octets of `k`, most significant first. */
  function OctetsOf(k: nat, n: nat): (o: seq<nat>)
    ensures |o| == n && AreOctets(o)
  {
    if n == 0 then [] else [(k / Pow256(n - 1)) % 256] + OctetsOf(k % Pow256(n - 1), n - 1)
  }

  /** The usual colon-separated lower-case text of a 48-bit key. */
  function FormatMac(k: Key): string
    requires k < MacSpan
  {
    FormatOctets(OctetsOf(k, 6))
  }

  lemma {:induction false} OctetsOfValue(k: nat, n: nat)
    requires k < Pow256(n)
    ensures OctetValue(OctetsOf(k, n)) == k
  {
    if n > 0 {
      var p := Pow256(n - 1);
      DivModArith(k, p, Pow256(n));
      OctetsOfValue(k % p, n - 1);
      assert OctetsOf(k, n)[1..] == OctetsOf(k % p, n - 1);
    }
  }

  /** Splitting `k < 256 * p` into its leading octet and the remainder. */
  lemma DivModArith(k: nat, p: nat, pp: nat)
    requires p >= 1 && pp == 256 * p && k < pp
    ensures k / p < 256 && (k / p) % 256 == k / p
    ensures (k / p) * p + k % p == k && k % p < p
  {
    var q := k / p;
    assert q * p + k % p == k;
    if q >= 256 {
      MulLeRight(256, q, p);
      assert false;
    }
  }

  lemma {:induction false} HexRunTwo(c1: char, c2: char, rest: string)
    requires IsHexDigit(c1) && IsHexDigit(c2)
    requires rest == [] || rest[0] == ':'
    ensures HexRun([c1, c2] + rest) == 2
  {
    var s := [c1, c2] + rest;
    assert HexRun(rest) == 0;
    assert s[1..] == [c2] + rest;
    assert s[1..][1..] == rest;
    assert HexRun(s[1..]) == 1;
  }

  lemma {:induction false} ScanTwoDigits(c1: char, c2: char, rest: string)
    requires IsHexDigit(c1) && IsHexDigit(c2)
    requires rest == [] || rest[0] == ':'
    ensures ScanHex([c1, c2] + rest) == Some(Scanned(16 * DigitValue(c1) + DigitValue(c2), rest))
  {
    var s := [c1, c2] + rest;
    assert s[0] == c1 && s[1] == c2;
    HexRunTwo(c1, c2, rest);
    assert s[..2] == [c1, c2];
    assert [c1, c2][..1] == [c1];
    assert HexValue([c1]) == DigitValue(c1) by {
      assert [c1][..0] == [];
    }
    assert HexValue(s[..2]) == 16 * DigitValue(c1) + DigitValue(c2);
    assert s[2..] == rest;
  }

  /** Two hexadecimal digits, such as `%02x` prints. */
  predicate IsHexPair(part: string) {
    |part| == 2 && IsHexDigit(part[0]) && IsHexDigit(part[1])
  }

  predicate AllHexPairs(parts: seq<string>) {
    |parts| == 0 || (IsHexPair(parts[0]) && AllHexPairs(parts[1..]))
  }

  function PairValue(part: string): nat
    requires IsHexPair(part)
  {
    16 * DigitValue(part[0]) + DigitValue(part[1])
  }

  function PairValues(parts: seq<string>): (vs: seq<nat>)
    requires AllHexPairs(parts)
    ensures |vs| == |parts|
  {
    if |parts| == 0 then [] else [PairValue(parts[0])] + PairValues(parts[1..])
  }

  /** Scanning colon-joined digit pairs yields the value of each pair, in order. */
  lemma {:induction false} ScanJoined(parts: seq<string>)
    requires |parts| >= 1 && AllHexPairs(parts)
    ensures ScanFields(Joined(parts), |parts|) == PairValues(parts)
  {
    if |parts| == 1 {
      ScanPairLast(parts[0], Joined(parts));
    } else {
      ScanJoined(parts[1..]);
      ScanJoinedStep(parts);
    }
  }

  lemma ScanJoinedStep(parts: seq<string>)
    requires |parts| >= 2 && AllHexPairs(parts)
    requires ScanFields(Joined(parts[1..]), |parts| - 1) == PairValues(parts[1..])
    ensures ScanFields(Joined(parts), |parts|) == PairValues(parts)
  {
    JoinedCons(parts);
    ScanPairThenFields(parts[0], Joined(parts[1..]), |parts|, Joined(parts));
  }

  lemma JoinedCons(parts: seq<string>)
    requires |parts| >= 2
    ensures Joined(parts) == parts[0] + (":" + Joined(parts[1..]))
  {
  }

  lemma {:induction false} ScanPairLast(part: string, s: string)
    requires IsHexPair(part) && s == part
    ensures ScanFields(s, 1) == [PairValue(part)]
  {
    assert s == [part[0], part[1]] + [];
    ScanTwoDigits(part[0], part[1], []);
    ScanFieldsLast(s, Scanned(PairValue(part), []));
  }

  lemma {:induction false} ScanPairThenFields(part: string, tail: string, count: nat, s: string)
    requires IsHexPair(part) && count > 1
    requires s == part + (":" + tail)
    ensures ScanFields(s, count) == [PairValue(part)] + ScanFields(tail, count - 1)
  {
    var rest := ":" + tail;
    assert part == [part[0], part[1]];
    ScanTwoDigits(part[0], part[1], rest);
    assert rest[1..] == tail;
    ScanFieldsStep(s, count, Scanned(PairValue(part), rest));
  }

  lemma {:induction false} HexPartsArePairs(o: seq<nat>)
    requires AreOctets(o)
    ensures AllHexPairs(HexParts(o)) && PairValues(HexParts(o)) == o
  {
    if |o| > 0 {
      var x := o[0];
      assert x < 256;
      assert x / 16 < 16;
      assert 16 * (x / 16) + x % 16 == x;
      assert AreOctets(o[1..]);
      HexPartsArePairs(o[1..]);
      assert o == [x] + o[1..];
    }
  }

  lemma ScanFormatOctets(o: seq<nat>)
    requires |o| >= 1 && AreOctets(o)
    ensures ScanFields(FormatOctets(o), |o|) == o
  {
    HexPartsArePairs(o);
    ScanJoined(HexParts(o));
  }

  lemma {:induction false} ScanFieldsLast(s: string, sc: Scanned)
    requires ScanHex(s) == Some(sc)
    ensures ScanFields(s, 1) == [sc.value]
  {
  }

  lemma {:induction false} ScanFieldsStep(s: string, count: nat, sc: Scanned)
    requires count > 1 && ScanHex(s) == Some(sc)
    requires |sc.rest| > 0 && sc.rest[0] == ':'
    ensures ScanFields(s, count) == [sc.value] + ScanFields(sc.rest[1..], count - 1)
  {
  }

  /** Printing a 48-bit key and scanning it back yields the same key. */
  lemma FormatMacRoundTrip(k: Key)
    requires k < MacSpan
    ensures MacFromStr(FormatMac(k)) == k
  {
    var o := OctetsOf(k, 6);
    assert Pow256(6) == MacSpan;
    ScanFormatOctets(o);
    OctetsOfValue(k, 6);
    OctetValueBound(o);
    CombineFromValue(0, o);
  }
}
