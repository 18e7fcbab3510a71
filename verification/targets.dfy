/** Expanding allowed IPv4 ranges into the sorted list of probe targets. */
module Targets {
  import opened Ids

  const ADDRESSES := 0x1_0000_0000

  type Address = int

  // A parsed range: any address in it and the number of leading bits that are fixed.
  datatype Prefix = Prefix(address: Address, bits: int)

  function Power(n: nat): (p: nat)
    ensures p >= 1
  {
    if n == 0 then 1 else 2 * Power(n - 1)
  }

  predicate ValidPrefix(p: Prefix) {
    0 <= p.bits <= 32 && 0 <= p.address < ADDRESSES
  }

  function Size(p: Prefix): (s: nat)
    requires ValidPrefix(p)
    ensures s >= 1
  {
    Power(32 - p.bits)
  }

  /** The range's lowest address. */
  function Masked(p: Prefix): (base: Address)
    requires ValidPrefix(p)
    ensures 0 <= base < ADDRESSES
  {
    Nonnegative(p.address, Size(p));
    p.address - p.address % Size(p)
  }

  lemma Nonnegative(a: int, size: int)
    requires 0 <= a < ADDRESSES && size >= 1
    ensures 0 <= a - a % size < ADDRESSES
  {
    assert a % size <= a by {
      assert a == size * (a / size) + a % size;
      assert a / size >= 0;
      assert size * (a / size) >= 0;
    }
  }

  /** Whether the fixed leading bits agree. */
  predicate Contains(p: Prefix, a: Address)
    requires ValidPrefix(p)
  {
    a / Size(p) == p.address / Size(p)
  }

  lemma SameBlock(a: int, b: int, size: int)
    requires b >= 0 && size >= 1
    ensures a / size == b / size <==> b - b % size <= a < b - b % size + size
  {
    var q := b / size;
    assert b - b % size == size * q;
    assert a == size * (a / size) + a % size;
    if size * q <= a < size * q + size {
      var d := a / size - q;
      assert size * d == size * (a / size) - size * q;
      assert d >= 1 ==> size * d >= size;
      assert d <= -1 ==> size * d <= -size;
    }
  }

  /** A range is the block of addresses from its masked base. */
  lemma ContainsIsBlock(p: Prefix, a: Address)
    requires ValidPrefix(p)
    ensures Contains(p, a) <==> Masked(p) <= a < Masked(p) + Size(p)
  {
    SameBlock(a, p.address, Size(p));
  }

  /** The `n` lowest binary digits, the highest first. */
  function Bits(a: nat, n: nat): (digits: seq<bool>)
    ensures |digits| == n
  {
    if n == 0 then [] else Bits(a / 2, n - 1) + [a % 2 == 1]
  }

  lemma HalfThenBlocks(a: nat, size: nat)
    requires size >= 1
    ensures a / 2 / size == a / (2 * size)
  {
    var q, r := a / 2 / size, a / 2 % size;
    assert a / 2 == size * q + r && a == 2 * (a / 2) + a % 2;
    assert a == 2 * size * q + (2 * r + a % 2);
    SameBlock(a, 2 * size * q, 2 * size);
    Multiple(q, 2 * size);
  }

  lemma Multiple(q: int, size: int)
    requires size >= 1
    ensures size * q % size == 0 && size * q / size == q
  {
    var d := size * q / size - q;
    assert size * q == size * (size * q / size) + size * q % size;
    assert size * d == -(size * q % size);
    assert d >= 1 ==> size * d >= size;
    assert d <= -1 ==> size * d <= -size;
  }

  lemma {:induction false} LeadingBits(a: nat, n: nat, m: nat)
    ensures Bits(a, n + m)[..n] == Bits(a / Power(m), n)
  {
    if m > 0 {
      LeadingBits(a / 2, n, m - 1);
      HalfThenBlocks(a, Power(m - 1));
    }
  }

  lemma {:induction false} BitsTell(a: nat, b: nat, n: nat)
    requires a < Power(n) && b < Power(n)
    ensures Bits(a, n) == Bits(b, n) <==> a == b
  {
    if n > 0 && Bits(a, n) == Bits(b, n) {
      assert Bits(a, n)[..n - 1] == Bits(a / 2, n - 1) && Bits(b, n)[..n - 1] == Bits(b / 2, n - 1);
      assert Bits(a, n)[n - 1] == Bits(b, n)[n - 1];
      BitsTell(a / 2, b / 2, n - 1);
    }
  }

  lemma {:induction false} PowerSum(n: nat, m: nat)
    ensures Power(n + m) == Power(n) * Power(m)
  {
    if n > 0 { PowerSum(n - 1, m); }
  }

  lemma QuotientBelow(a: nat, n: nat, m: nat)
    requires a < Power(n + m)
    ensures a / Power(m) < Power(n)
  {
    PowerSum(n, m);
    hide Power;
    ProductBound(a, Power(n), Power(m));
  }

  lemma ProductBound(a: nat, x: nat, size: nat)
    requires size >= 1 && a < x * size
    ensures a / size < x
  {
    var q := a / size;
    assert a == size * q + a % size;
    assert q >= x ==> size * q >= size * x;
  }

  lemma AgreementIs(a: nat, b: nat, n: nat, m: nat)
    requires a < Power(n + m) && b < Power(n + m)
    ensures a / Power(m) == b / Power(m) <==> Bits(a, n + m)[..n] == Bits(b, n + m)[..n]
  {
    hide Bits, Power;
    LeadingBits(a, n, m);
    LeadingBits(b, n, m);
    QuotientBelow(a, n, m);
    QuotientBelow(b, n, m);
    BitsTell(a / Power(m), b / Power(m), n);
  }

  /** An address belongs to a range exactly when its fixed leading bits, out of 32, are the range's. */
  lemma ContainsIsAgreement(p: Prefix, a: Address)
    requires ValidPrefix(p) && 0 <= a < ADDRESSES
    ensures Contains(p, a) <==> Bits(a, 32)[..p.bits] == Bits(p.address, 32)[..p.bits]
  {
    PowerValues();
    hide Bits, Power;
    AgreementIs(a, p.address, p.bits, 32 - p.bits);
  }

  ghost function Range(p: Prefix): set<Address>
    requires ValidPrefix(p)
  {
    set a | 0 <= a < ADDRESSES && Contains(p, a)
  }

  // A range that does not parse is None.
  type Cidr = Option<Prefix>

  predicate Parsed(c: Cidr) {
    c.Some? && ValidPrefix(c.value)
  }

  ghost function Union(cidrs: seq<Cidr>): set<Address> {
    if cidrs == [] then {}
    else
      var c := cidrs[|cidrs| - 1];
      Union(cidrs[..|cidrs| - 1]) + if Parsed(c) then Range(c.value) else {}
  }

  predicate Increasing(s: seq<Address>) {
    forall i, j :: 0 <= i < j < |s| ==> s[i] < s[j]
  }

  function InsertAddress(x: Address, s: seq<Address>): seq<Address> {
    if s == [] then [x] else if s[0] < x then [s[0]] + InsertAddress(x, s[1..]) else [x] + s
  }

  /** A stand-in for the library sort. */
  function SortAddresses(s: seq<Address>): seq<Address> {
    if s == [] then [] else InsertAddress(s[0], SortAddresses(s[1..]))
  }

  lemma {:induction false} InsertAddressProps(x: Address, s: seq<Address>)
    requires Increasing(s) && x !in s
    ensures Increasing(InsertAddress(x, s)) && Elems(InsertAddress(x, s)) == Elems(s) + {x}
  {
    if s != [] && s[0] < x {
      InsertAddressProps(x, s[1..]);
      var r := InsertAddress(x, s[1..]);
      assert s == [s[0]] + s[1..];
      forall j | 0 <= j < |r| ensures s[0] < r[j] {
        assert r[j] in Elems(s[1..]) + {x};
      }
      forall y ensures y in Elems([s[0]] + r) <==> y in Elems(s) + {x} {
        assert y in r <==> y in Elems(r);
      }
    } else {
      forall y ensures y in Elems([x] + s) <==> y in Elems(s) + {x} {
      }
    }
  }

  lemma {:induction false} SortAddressesProps(s: seq<Address>)
    requires NoDup(s)
    ensures Increasing(SortAddresses(s)) && Elems(SortAddresses(s)) == Elems(s)
  {
    if s != [] {
      SortAddressesProps(s[1..]);
      assert s == [s[0]] + s[1..];
      assert s[0] !in Elems(s[1..]);
      assert forall y :: y in SortAddresses(s[1..]) ==> y in Elems(SortAddresses(s[1..]));
      InsertAddressProps(s[0], SortAddresses(s[1..]));
      forall y ensures y in Elems(s) <==> y in Elems(s[1..]) + {s[0]} {
      }
    }
  }

  /** What one range adds while it is being walked, up to but excluding `upTo`. */
  ghost predicate Walked(before: set<Address>, p: Prefix, upTo: int, seen: set<Address>)
    requires ValidPrefix(p)
  {
    forall a: Address :: a in seen <==> a in before || (0 <= a < upTo && Contains(p, a))
  }

  lemma WalkedOne(before: set<Address>, p: Prefix, a: Address, seen: set<Address>)
    requires ValidPrefix(p) && Walked(before, p, a, seen) && 0 <= a && Contains(p, a)
    ensures Walked(before, p, a + 1, seen + {a})
  {
    hide Contains;
  }

  lemma WalkedEnd(before: set<Address>, p: Prefix, upTo: int, seen: set<Address>)
    requires ValidPrefix(p) && Walked(before, p, upTo, seen) && Masked(p) <= upTo <= ADDRESSES
    requires upTo == ADDRESSES || !Contains(p, upTo)
    ensures seen == before + Range(p)
  {
    hide Contains, Masked;
    forall a: Address ensures a in seen <==> a in before + Range(p) {
      ContainsIsBlock(p, a);
      if upTo < ADDRESSES { ContainsIsBlock(p, upTo); }
    }
  }

  lemma WalkedStart(before: set<Address>, p: Prefix)
    requires ValidPrefix(p)
    ensures Walked(before, p, Masked(p), before) && Contains(p, Masked(p))
  {
    hide Contains, Masked;
    forall a: Address | Contains(p, a) ensures a >= Masked(p) {
      ContainsIsBlock(p, a);
    }
    ContainsIsBlock(p, Masked(p));
  }

  lemma {:induction false} UnionGrows(cidrs: seq<Cidr>, i: nat)
    requires i <= |cidrs|
    ensures Union(cidrs[..i]) <= Union(cidrs)
    decreases |cidrs|
  {
    if i < |cidrs| {
      UnionGrows(cidrs[..|cidrs| - 1], i);
      assert cidrs[..|cidrs| - 1][..i] == cidrs[..i];
    } else {
      assert cidrs[..i] == cidrs;
    }
  }

  lemma UnionNext(cidrs: seq<Cidr>, i: nat)
    requires i < |cidrs| && Parsed(cidrs[i])
    ensures Union(cidrs[..i + 1]) == Union(cidrs[..i]) + Range(cidrs[i].value)
  {
    assert cidrs[..i + 1][..i] == cidrs[..i];
  }

  lemma TooMany(seen: set<Address>, a: Address, all: set<Address>, max: int)
    requires a !in seen && seen + {a} <= all && |seen| == max
    ensures |all| > max
  {
    SubsetCard(seen + {a}, all);
  }

  /** One range: every address in turn, stopping after the last address there is. */
  method ExpandOne(p: Prefix, before: seq<Address>, maxTargets: nat, ghost all: set<Address>)
    returns (targets: Option<seq<Address>>)
    requires ValidPrefix(p) && NoDup(before) && |before| <= maxTargets && Elems(before) + Range(p) <= all
    ensures targets.Some? ==> NoDup(targets.value) && |targets.value| <= maxTargets
    ensures targets.Some? ==> Elems(targets.value) == Elems(before) + Range(p)
    ensures targets.None? ==> |all| > maxTargets
  {
    hide Contains, Masked, Size, NoDup;
    var out, seen := before, Elems(before);
    var address: int := Masked(p);
    WalkedStart(Elems(before), p);
    while address < ADDRESSES && Contains(p, address)
      invariant Masked(p) <= address <= ADDRESSES
      invariant NoDup(out) && seen == Elems(out) && |out| <= maxTargets
      invariant Walked(Elems(before), p, address, seen)
      decreases ADDRESSES - address
    {
      if address !in seen {
        if |out| == maxTargets {
          NoDupCard(out);
          TooMany(seen, address, all, maxTargets);
          return None;
        }
        assert address in out ==> address in Elems(out);
        NoDupAppend(out, address);
        ElemsAppend(out, address);
        out := out + [address];
      }
      WalkedOne(Elems(before), p, address, seen);
      seen := seen + {address};
      address := address + 1;
    }
    WalkedEnd(Elems(before), p, address, seen);
    targets := Some(out);
  }

  /** Uncancelled, over ranges that parse: the strictly increasing list of exactly their union, or an error
      exactly when the union has more than `maxTargets` addresses. */
  method ExpandAllowedTargets(cidrs: seq<Cidr>, maxTargets: nat) returns (targets: Option<seq<Address>>)
    ensures targets.Some? <==> AllParsed(cidrs, |cidrs|) && |Union(cidrs)| <= maxTargets
    ensures targets.Some? ==> Increasing(targets.value) && Elems(targets.value) == Union(cidrs)
  {
    hide NoDup, Contains, Range, Union, Increasing, SortAddresses, ValidPrefix;
    var out: seq<Address> := [];
    NoneYet(cidrs);
    var i := 0;
    while i < |cidrs|
      invariant 0 <= i <= |cidrs| && AllParsed(cidrs, i)
      invariant NoDup(out) && |out| <= maxTargets && Elems(out) == Union(cidrs[..i])
    {
      if !Parsed(cidrs[i]) { return None; }
      UnionNext(cidrs, i);
      UnionGrows(cidrs, i + 1);
      ParsedIsValid(cidrs[i]);
      var next := ExpandOne(cidrs[i].value, out, maxTargets, Union(cidrs));
      if next.None? { return None; }
      out := next.value;
      i := i + 1;
    }
    assert cidrs[..i] == cidrs;
    NoDupCard(out);
    SortAddressesProps(out);
    targets := Some(SortAddresses(out));
  }

  lemma ParsedIsValid(c: Cidr)
    requires Parsed(c)
    ensures ValidPrefix(c.value)
  {
  }

  predicate AllParsed(cidrs: seq<Cidr>, n: nat)
    requires n <= |cidrs|
  {
    forall i :: 0 <= i < n ==> Parsed(cidrs[i])
  }

  lemma NoneYet(cidrs: seq<Cidr>)
    ensures NoDup<Address>([]) && Elems<Address>([]) == Union(cidrs[..0])
  {
  }

  /** The last address there is: its own range holds nothing else, it belongs to the range of any address
      without fixed bits, and expanding a list of ranges that holds it ends with it. */
  lemma LastAddress(a: Address, cidrs: seq<Cidr>, targets: seq<Address>)
    requires 0 <= a < ADDRESSES
    requires Increasing(targets) && Elems(targets) == Union(cidrs) && ADDRESSES - 1 in Union(cidrs)
    ensures Range(Prefix(ADDRESSES - 1, 32)) == {ADDRESSES - 1}
    ensures ADDRESSES - 1 in Range(Prefix(a, 0)) && 0 in Range(Prefix(a, 0))
    ensures targets != [] && targets[|targets| - 1] == ADDRESSES - 1
  {
    WholeSpace(a);
    var last := Range(Prefix(ADDRESSES - 1, 32));
    forall b ensures b in last <==> b == ADDRESSES - 1 {
      if 0 <= b < ADDRESSES { WholeSpace(b); }
    }
    UnionBounded(cidrs);
    assert ADDRESSES - 1 in Elems(targets);
    var i :| 0 <= i < |targets| && targets[i] == ADDRESSES - 1;
    assert targets[|targets| - 1] in Elems(targets);
  }

  lemma {:induction false} UnionBounded(cidrs: seq<Cidr>)
    ensures forall a :: a in Union(cidrs) ==> 0 <= a < ADDRESSES
  {
    if cidrs != [] { UnionBounded(cidrs[..|cidrs| - 1]); }
  }

  lemma WholeSpace(a: Address)
    requires 0 <= a < ADDRESSES
    ensures Contains(Prefix(a, 0), 0) && Contains(Prefix(a, 0), ADDRESSES - 1)
    ensures Contains(Prefix(ADDRESSES - 1, 32), a) <==> a == ADDRESSES - 1
  {
    PowerValues();
    SameBlock(a, 0, ADDRESSES);
    SameBlock(ADDRESSES - 1, a, ADDRESSES);
    SameBlock(0, a, ADDRESSES);
  }

  lemma PowerValues()
    ensures Power(32) == ADDRESSES && Power(0) == 1
  {
    assert Power(8) == 256;
    assert Power(16) == 65536;
    assert Power(24) == 0x100_0000;
  }
}
