/** Mesh addresses: packages/server/src/subnet.ts and the validators and peer routes of api.ts. */
module Subnet {
  import opened Common
  import opened Decimals

  const WORD: nat := 0x1_0000_0000

  /** JavaScript's Number(text), where it gives an integer. All that matters of it: decimal text of an exactly
      representable number is read as that number, and a text with a slash is no number. */
  type Numeral = string -> Option<int>

  ghost predicate Reads(number: Numeral) {
    && (forall n: nat :: n < 0x20_0000_0000_0000 ==> number(Decimal(n)) == Some(n))
    && (forall s: string :: '/' in s ==> number(s) == None)
  }

  /** The least a Numeral can read: plain digits. */
  function PlainNumber(s: string): Option<int> {
    if s != "" && AllDigits(s) then Some(ValueOf(s)) else None
  }

  /** Such functions exist. */
  lemma PlainNumberReads()
    ensures Reads(PlainNumber)
  {
    forall n: nat ensures PlainNumber(Decimal(n)) == Some(n) { ValueOfDecimal(n); }
  }

  // ----- octets -----

  predicate IsOctets(o: seq<int>) {
    |o| == 4 && forall i :: 0 <= i < 4 ==> 0 <= o[i] < 256
  }

  function OctetsToString(o: seq<nat>): string
    requires o != []
  {
    Join(seq(|o|, i requires 0 <= i < |o| => Decimal(o[i])), '.')
  }

  /** For octets the disjunction of the shifted parts is their sum. */
  function OctetsToInt(o: seq<int>): (n: nat)
    requires IsOctets(o)
    ensures n < WORD
  {
    o[0] * 0x100_0000 + o[1] * 0x1_0000 + o[2] * 0x100 + o[3]
  }

  /** The shifts work on the number modulo 2^32. */
  function IntToOctets(n: nat): (o: seq<nat>)
    ensures IsOctets(o)
  {
    [n / 0x100_0000 % 256, n / 0x1_0000 % 256, n / 0x100 % 256, n % 256]
  }

  /** The dotted quad of a number. */
  function Address(n: nat): string {
    OctetsToString(IntToOctets(n))
  }

  lemma {:induction false} OctetsRoundTrip(o: seq<int>)
    requires IsOctets(o)
    ensures IntToOctets(OctetsToInt(o)) == o
  {
    var n := OctetsToInt(o);
    assert n / 0x100 == o[0] * 0x1_0000 + o[1] * 0x100 + o[2];
    assert n / 0x1_0000 == o[0] * 0x100 + o[1];
    assert n / 0x100_0000 == o[0];
  }

  lemma {:induction false} IntRoundTrip(n: nat)
    ensures OctetsToInt(IntToOctets(n)) == n % WORD
  {
    var a, b, c := n / 0x100, n / 0x1_0000, n / 0x100_0000;
    assert n == a * 256 + n % 256;
    assert a == b * 256 + a % 256;
    assert b == c * 256 + b % 256;
    assert n % WORD == (c % 256) * 0x100_0000 + (b % 256) * 0x1_0000 + (a % 256) * 256 + n % 256;
  }

  lemma PartsOf(o: seq<nat>)
    requires o != []
    ensures Split(OctetsToString(o), '.') == seq(|o|, i requires 0 <= i < |o| => Decimal(o[i]))
  {
    SplitJoinBack(seq(|o|, i requires 0 <= i < |o| => Decimal(o[i])), '.');
  }

  /** Printing is injective on addresses: two numbers print alike exactly when they agree modulo 2^32. */
  lemma AddressInjective(m: nat, n: nat)
    ensures Address(m) == Address(n) <==> m % WORD == n % WORD
  {
    var a, b := IntToOctets(m), IntToOctets(n);
    if m % WORD == n % WORD {
      IntRoundTrip(m);
      IntRoundTrip(n);
      OctetsRoundTrip(a);
      OctetsRoundTrip(b);
    }
    if Address(m) == Address(n) {
      PartsOf(a);
      PartsOf(b);
      forall i | 0 <= i < 4 ensures a[i] == b[i] {
        assert Split(Address(m), '.')[i] == Decimal(a[i]) && Split(Address(n), '.')[i] == Decimal(b[i]);
        DecimalInjective(a[i], b[i]);
      }
      assert a == b;
      IntRoundTrip(m);
      IntRoundTrip(n);
    }
  }

  // ----- the validators -----

  predicate IsOctetText(number: Numeral, p: string) {
    number(p).Some? && 0 <= number(p).value <= 255 && p == Decimal(number(p).value)
  }

  predicate IsValidIPv4(number: Numeral, v: string) {
    var parts := Split(v, '.');
    |parts| == 4 && forall i :: 0 <= i < 4 ==> IsOctetText(number, parts[i])
  }

  /** The accepted texts are exactly the printed addresses, whatever else Number may accept. */
  lemma ValidIffPrinted(number: Numeral, v: string)
    requires Reads(number)
    ensures IsValidIPv4(number, v) <==> exists n: nat :: n < WORD && v == Address(n)
  {
    if IsValidIPv4(number, v) {
      var parts := Split(v, '.');
      var o := seq(4, i requires 0 <= i < 4 => number(parts[i]).value);
      assert forall i :: 0 <= i < 4 ==> IsOctetText(number, parts[i]);
      assert IsOctets(o);
      OctetsRoundTrip(o);
      assert seq(|o|, i requires 0 <= i < |o| => Decimal(o[i])) == parts;
      JoinOfSplit(v, '.');
      assert v == Address(OctetsToInt(o));
    }
    if n: nat :| n < WORD && v == Address(n) {
      PartsOf(IntToOctets(n));
      var parts := Split(v, '.');
      forall i | 0 <= i < 4 ensures IsOctetText(number, parts[i]) {
        assert parts[i] == Decimal(IntToOctets(n)[i]);
      }
    }
  }

  /** The text before and after the first slash. */
  function CutAtSlash(v: string): Option<(string, string)>
  {
    if v == "" then None
    else if v[0] == '/' then Some(("", v[1..]))
    else
      var rest := CutAtSlash(v[1..]);
      if rest.Some? then Some(([v[0]] + rest.value.0, rest.value.1)) else None
  }

  predicate IsValidCIDR(number: Numeral, v: string) {
    && CutAtSlash(v).Some?
    && var (ip, rest) := CutAtSlash(v).value;
       && number(rest).Some? && 8 <= number(rest).value <= 30
       && IsValidIPv4(number, ip)
  }

  /** parseCidr, split by split. */
  function ParseCidr(number: Numeral, cidr: string): (seq<Option<int>>, Option<int>) {
    var parts := Split(cidr, '/');
    var octets := Split(parts[0], '.');
    (seq(|octets|, i requires 0 <= i < |octets| => number(octets[i])), if |parts| > 1 then number(parts[1]) else None)
  }

  lemma {:induction false} CutIsSplit(v: string)
    ensures CutAtSlash(v).None? ==> '/' !in v
    ensures CutAtSlash(v).Some? ==>
              var (ip, rest) := CutAtSlash(v).value;
              '/' !in ip && v == ip + "/" + rest
    decreases |v|
  {
    if v != "" && v[0] != '/' {
      CutIsSplit(v[1..]);
      assert v == [v[0]] + v[1..];
    }
  }

  /** A subnet in the form the routes store it: the base address as a number, and the prefix length. */
  datatype Block = Block(base: nat, prefix: nat) {
    predicate Sane() { base < WORD && 8 <= prefix <= 30 }

    /** 1 << (32 - prefix), below 2^31 and so never negative. */
    function Size(): (n: nat)
      requires Sane()
      ensures n >= 4
    {
      assert Pow2(32 - prefix) == 4 * Pow2(30 - prefix);
      Pow2(32 - prefix)
    }

    predicate Host(k: nat)
      requires Sane()
    {
      base < k < base + Size() - 1
    }
  }

  function BlockOf(number: Numeral, cidr: string): (b: Block)
    requires IsValidCIDR(number, cidr)
    ensures b.Sane()
  {
    var (ip, rest) := CutAtSlash(cidr).value;
    var parts := Split(ip, '.');
    var o := seq(4, i requires 0 <= i < 4 => number(parts[i]).value);
    assert forall i :: 0 <= i < 4 ==> IsOctetText(number, parts[i]);
    assert IsOctets(o);
    Block(OctetsToInt(o), number(rest).value)
  }

  /** What the route accepted is what the allocator parses: four octets of the block's base, and its prefix. */
  lemma ValidCidrParses(number: Numeral, cidr: string)
    requires Reads(number) && IsValidCIDR(number, cidr)
    ensures var (octets, prefix) := ParseCidr(number, cidr);
            var b := BlockOf(number, cidr);
            && |octets| == 4 && (forall i :: 0 <= i < 4 ==> octets[i] == Some(IntToOctets(b.base)[i]))
            && prefix == Some(b.prefix)
            && CutAtSlash(cidr).value.0 == Address(b.base)
  {
    var (ip, rest) := CutAtSlash(cidr).value;
    CutIsSplit(cidr);
    SplitPrefix(ip, '/', rest);
    SplitWhole(rest, '/');
    var parts := Split(ip, '.');
    var o := seq(4, i requires 0 <= i < 4 => number(parts[i]).value);
    assert forall i :: 0 <= i < 4 ==> IsOctetText(number, parts[i]);
    OctetsRoundTrip(o);
    assert seq(|o|, i requires 0 <= i < |o| => Decimal(o[i])) == parts;
    JoinOfSplit(ip, '.');
  }

  lemma {:induction false} JoinLacks(parts: seq<string>, sep: char, c: char)
    requires parts != [] && c != sep && forall i :: 0 <= i < |parts| ==> c !in parts[i]
    ensures c !in Join(parts, sep)
    decreases |parts|
  {
    if |parts| > 1 { JoinLacks(parts[1..], sep, c); }
  }

  lemma NoSlash(n: nat)
    ensures '/' !in Address(n)
  {
    var o := IntToOctets(n);
    forall i | 0 <= i < 4 ensures '/' !in Decimal(o[i]) { ValueOfDecimal(o[i]); }
    JoinLacks(seq(|o|, i requires 0 <= i < |o| => Decimal(o[i])), '.', '/');
  }

  lemma {:induction false} CutOfText(ip: string, rest: string)
    requires '/' !in ip
    ensures CutAtSlash(ip + "/" + rest) == Some((ip, rest))
    decreases |ip|
  {
    var v := ip + "/" + rest;
    if ip == "" {
      assert v[1..] == rest;
    } else {
      assert v[1..] == ip[1..] + "/" + rest;
      CutOfText(ip[1..], rest);
      assert ip == [ip[0]] + ip[1..];
    }
  }

  /** The accepted subnets are exactly the texts of a printed address, a slash, and a number from 8 to 30. */
  lemma ValidCidrIff(number: Numeral, v: string)
    requires Reads(number)
    ensures IsValidCIDR(number, v) <==>
            exists n: nat, rest :: n < 0x1_0000_0000 && v == Address(n) + "/" + rest
                                   && number(rest).Some? && 8 <= number(rest).value <= 30
  {
    hide Address, IsValidIPv4;
    if IsValidCIDR(number, v) {
      CutIsSplit(v);
      var (ip, rest) := CutAtSlash(v).value;
      ValidIffPrinted(number, ip);
      var n: nat :| n < WORD && ip == Address(n);
      assert v == Address(n) + "/" + rest;
    }
    if n: nat, rest :| n < 0x1_0000_0000 && v == Address(n) + "/" + rest
                       && number(rest).Some? && 8 <= number(rest).value <= 30 {
      NoSlash(n);
      CutOfText(Address(n), rest);
      ValidIffPrinted(number, Address(n));
    }
  }

  // ----- allocation -----

  /** Pick the least free host, or fail when every host address is in use. */
  method AllocateIp(b: Block, used: set<string>) returns (ip: Option<string>)
    requires b.Sane()
    ensures ip.None? <==>
            forall k: nat :: b.base < k < b.base + Pow2(32 - b.prefix) - 1 ==> Address(k) in used
    ensures ip.Some? ==>
              exists k: nat :: b.base < k < b.base + Pow2(32 - b.prefix) - 1 && ip.value == Address(k)
                               && Address(k) !in used && forall j: nat :: b.base < j < k ==> Address(j) in used
  {
    var firstHost := b.base + 1;
    var lastHost := b.base + b.Size() - 2;
    var next := firstHost;
    while next <= lastHost
      invariant firstHost <= next <= lastHost + 1
      invariant forall j: nat :: b.base < j < next ==> Address(j) in used
    {
      var candidate := Address(next);
      if candidate !in used {
        return Some(candidate);
      }
      next := next + 1;
    }
    return None;
  }

  /** The address k lies in the block of its base, and is neither its network nor its broadcast address. */
  predicate Inside(b: Block, k: nat)
    requires b.Sane()
  {
    var n := b.Size();
    k % WORD / n == b.base / n && k % n != 0 && k % n != n - 1
  }

  lemma BlocksDivideWord(b: Block)
    requires b.Sane()
    ensures WORD % b.Size() == 0 && 2 * b.Size() <= WORD
  {
    var n, q := b.Size(), Pow2(b.prefix);
    PowersMultiply(32 - b.prefix, b.prefix);
    WordIsPower();
    assert q == 2 * Pow2(b.prefix - 1);
    Monotone(n, 2, q);
    DivideBack(n, q, 0);
  }

  lemma {:induction false} PowersMultiply(i: nat, j: nat)
    ensures Pow2(i) * Pow2(j) == Pow2(i + j)
    decreases i
  {
    if i > 0 { PowersMultiply(i - 1, j); }
  }

  lemma WordIsPower()
    ensures Pow2(32) == WORD
  {
    assert Pow2(4) == 16;
    PowersMultiply(4, 4);
    PowersMultiply(8, 8);
    PowersMultiply(16, 16);
  }

  lemma Monotone(n: nat, a: int, b: int)
    ensures a <= b ==> n * a <= n * b
  {
  }

  /** Quotient and remainder are what they look like. */
  lemma DivideBack(n: nat, q: nat, r: nat)
    requires r < n
    ensures (n * q + r) / n == q && (n * q + r) % n == r
  {
    var d, m := (n * q + r) / n, (n * q + r) % n;
    assert n * d + m == n * q + r;
    Monotone(n, d + 1, q);
    Monotone(n, q + 1, d);
  }

  /** Every host the allocator may hand out lies inside the block of the base exactly when the base is aligned,
      which the routes do not check. */
  lemma HostsInsideIffAligned(b: Block)
    requires b.Sane()
    ensures (forall k: nat :: b.Host(k) ==> Inside(b, k)) <==> b.base % b.Size() == 0
  {
    var n := b.Size();
    var q := b.base / n;
    BlocksDivideWord(b);
    assert b.base == n * q + b.base % n;
    if b.base % n == 0 {
      forall k: nat | b.Host(k) ensures Inside(b, k) {
        AlignedBelowWord(b.base, n);
        DivideBack(n, q, k - b.base);
      }
    } else {
      LastHostOutside(b);
    }
  }

  /** An aligned block ends within the address space. */
  lemma AlignedBelowWord(base: nat, n: nat)
    requires n > 0 && base % n == 0 && WORD % n == 0 && base < WORD
    ensures base + n <= WORD
  {
    var q, w := base / n, WORD / n;
    assert base == n * q && WORD == n * w;
    Monotone(n, w, q);
    Monotone(n, q + 1, w);
  }

  lemma LastHostOutside(b: Block)
    requires b.Sane() && b.base % b.Size() != 0
    ensures exists k: nat :: b.Host(k) && !Inside(b, k)
  {
    hide Block.Size;
    var n := b.Size();
    var k := b.base + b.Size() - 2;
    var q, r := b.base / n, b.base % n;
    assert b.Host(k) && b.base == n * q + r;
    BlocksDivideWord(b);
    if r == 1 {
      assert k == n * q + (n - 1);
      DivideBack(n, q, n - 1);
    } else {
      assert k == n * (q + 1) + (r - 2);
      NextBlock(n, q, r - 2, k);
    }
  }

  /** A number of the next block, even if it wraps, is not in the block q. */
  lemma NextBlock(n: nat, q: nat, r: nat, k: nat)
    requires n >= 4 && r < n && k == n * (q + 1) + r && n * q < WORD && WORD % n == 0 && 2 * n <= WORD
    ensures k % WORD / n != q
  {
    var w := WORD / n;
    assert WORD == n * w;
    WithinWord(n, q, w, r);
    NextOrFirst(n, q, w, r, k, WORD);
  }

  /** Block q + 1 either is one of the w blocks of the word, or is the block just behind it. */
  lemma WithinWord(n: nat, q: nat, w: nat, r: nat)
    requires n > 0 && n * q < n * w && r < n && 2 * n <= n * w
    ensures q + 1 <= w && 2 <= w
    ensures q + 1 < w ==> n * (q + 1) + r < n * w
  {
    Monotone(n, w, q);
    Monotone(n, w, 1);
    Monotone(n, q + 2, w);
  }

  lemma NextOrFirst(n: nat, q: nat, w: nat, r: nat, k: nat, word: nat)
    requires r < n && word == n * w && k == n * (q + 1) + r && q + 1 <= w && 2 <= w
    requires q + 1 < w ==> k < word
    ensures k % word / n != q
  {
    if q + 1 == w {
      assert k == word * 1 + r;
      Monotone(n, 1, w);
      DivideBack(word, 1, r);
      DivideBack(n, 0, r);
    } else {
      DivideBack(word, 0, k);
      DivideBack(n, q + 1, r);
    }
  }

  /** In an aligned block, every host shares with the base the octets that the prefix covers. */
  lemma HostsShareOctets(b: Block, k: nat, i: nat)
    requires b.Sane() && b.base % b.Size() == 0 && b.Host(k) && i < b.prefix / 8
    ensures IntToOctets(k)[i] == IntToOctets(b.base)[i]
  {
    hide Block.Size;
    var size, up := b.Size(), 8 * (3 - i);
    SizeIs(b);
    PowersMultiply(32 - b.prefix, up - (32 - b.prefix));
    OctetShifts();
    var m := Pow2(up - (32 - b.prefix));
    SameQuotient(b.base, k, size, m);
  }

  lemma SizeIs(b: Block)
    requires b.Sane()
    ensures b.Size() == Pow2(32 - b.prefix)
  {
  }

  lemma OctetShifts()
    ensures Pow2(0) == 1 && Pow2(8) == 0x100 && Pow2(16) == 0x1_0000 && Pow2(24) == 0x100_0000
  {
    assert Pow2(4) == 16;
    PowersMultiply(4, 4);
    PowersMultiply(8, 8);
    PowersMultiply(8, 16);
  }

  /** Numbers of one aligned block of `size` lie in one block of `size * m`. */
  lemma SameQuotient(base: nat, k: nat, size: nat, m: nat)
    requires size > 0 && m > 0 && base % size == 0 && base <= k < base + size
    ensures size * m > 0 && base / (size * m) == k / (size * m)
  {
    var q := base / size;
    assert base == size * q;
    QuotientOf(size, m, q / m, q % m, 0);
    QuotientOf(size, m, q / m, q % m, k - base);
    assert q == m * (q / m) + q % m;
  }

  lemma QuotientOf(size: nat, m: nat, u: nat, v: nat, d: nat)
    requires d < size && v < m
    ensures size * m > 0 && (size * (m * u + v) + d) / (size * m) == u
  {
    Regroup(size, m, u, v);
    Monotone(size, 1, m);
    Monotone(size, v + 1, m);
    StillWithin(size, m, v, d);
    DivideBack(size * m, u, size * v + d);
  }

  lemma StillWithin(size: nat, m: nat, v: nat, d: nat)
    requires d < size && size * (v + 1) <= size * m
    ensures size * v + d < size * m
  {
  }

  lemma Regroup(size: nat, m: nat, u: nat, v: nat)
    ensures size * (m * u + v) == (size * m) * u + size * v
  {
  }
}
