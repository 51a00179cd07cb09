/** The VM record of the `api` layer and what the client derives from it:
    whether it runs, a guess at its distribution and its IPv4 addresses. */
module VmTypes {

  import opened Wrappers
  import opened Decimal
  import opened Types
  import opened Strings

  datatype PowerState = Running | Halted | Suspended | Paused

  /** `Vm<O>`: `addresses` and `os_version` are string-to-string `BTreeMap`s,
      `other` is whatever the caller chose to decode it into. */
  datatype Vm<O> = Vm(
    id: VmId,
    nameLabel: string,
    nameDescription: string,
    powerState: PowerState,
    pool: string,
    tags: seq<string>,
    addresses: StringMap,
    osVersion: StringMap,
    other: O)

  /** `#[serde(default)]` on `addresses`: a record without the field has an
      empty map. `None` stands for the absent field. */
  function DecodeAddresses(field: Option<StringMap>): (m: StringMap)
    ensures field.None? ==> m == []
    ensures field.Some? ==> m == field.value
  {
    if field.Some? then field.value else []
  }

  /** `map_from_optional_map` with `#[serde(default)]` on `os_version`: an
      absent field (the outer `None`) and a `null` (the inner `None`) both give
      the empty map; a map is kept as it is. */
  function DecodeOsVersion(field: Option<Option<StringMap>>): (m: StringMap)
    ensures field.None? || field.value.None? ==> m == []
    ensures field.Some? && field.value.Some? ==> m == field.value.value
  {
    match field
    case Some(Some(os)) => os
    case _ => []
  }

  /** A VM whose record lacks `addresses` has no IPv4 address, and one whose
      `os_version` is absent or `null` has no distribution. */
  lemma MissingFieldsDecodeEmpty(field: Option<Option<StringMap>>)
    requires field.None? || field.value.None?
    ensures Ipv4AddressesOf(DecodeAddresses(None)) == []
    ensures DistroOf(DecodeOsVersion(field)) == None
  {
  }

  function IsRunning<O>(vm: Vm<O>): (b: bool)
    ensures b <==> vm.powerState == Running
  {
    vm.powerState.Running?
  }

  /** Whether a `BTreeMap` has an entry for `key`. */
  predicate HasKey(entries: seq<(string, string)>, key: string) {
    exists i :: 0 <= i < |entries| && entries[i].0 == key
  }

  /** The distribution guess on an `os_version` map: its `"distro"` value,
      else `"windows"` when there is an `"spmajor"` entry, else nothing. */
  function DistroOf(os: StringMap): (r: Option<string>)
    ensures HasKey(os, "distro") ==> r == Get(os, "distro") && r.Some?
    ensures !HasKey(os, "distro") && HasKey(os, "spmajor") ==> r == Some("windows")
    ensures !HasKey(os, "distro") && !HasKey(os, "spmajor") ==> r == None
  {
    match Get(os, "distro")
    case Some(d) => Some(d)
    case None => if Get(os, "spmajor").Some? then Some("windows") else None
  }

  /** `Vm::distro`. */
  function Distro<O>(vm: Vm<O>): (r: Option<string>)
    ensures r == DistroOf(vm.osVersion)
  {
    DistroOf(vm.osVersion)
  }

  /** The distribution guess in terms of the map's entries: the value of the
      `"distro"` entry wins over an `"spmajor"` entry wherever either sits. */
  lemma {:induction false} DistroFromEntries(os: StringMap, i: nat, j: nat)
    requires i < |os| && j < |os|
    ensures os[i].0 == "distro" ==> DistroOf(os) == Some(os[i].1)
    ensures os[j].0 == "spmajor" && !HasKey(os, "distro") ==> DistroOf(os) == Some("windows")
  {
    if os[i].0 == "distro" {
      GetUnique(os, i);
    }
  }

  // IPv4 addresses

  type Octet = n: nat | n < 256

  datatype Ipv4Addr = Ipv4Addr(a: Octet, b: Octet, c: Octet, d: Octet)

  /** One octet of a dotted quad: one to three digits, no leading zero
      unless the octet is `0`, and a value of at most 255. */
  function ParseOctet(s: string): (r: Option<Octet>)
    ensures r.Some? <==> Canonical(s) && |s| <= 3 && DigitsValue(s) <= 255
    ensures r.Some? ==> r.value == DigitsValue(s)
  {
    if Canonical(s) && |s| <= 3 && DigitsValue(s) <= 255 then Some(DigitsValue(s)) else None
  }

  /** `s.parse::<Ipv4Addr>()`: exactly four `.`-separated octets. */
  function ParseIpv4(s: string): Option<Ipv4Addr> {
    var parts := Split(s, '.');
    if |parts| != 4 then None
    else match (ParseOctet(parts[0]), ParseOctet(parts[1]), ParseOctet(parts[2]), ParseOctet(parts[3]))
      case (Some(a), Some(b), Some(c), Some(d)) => Some(Ipv4Addr(a, b, c, d))
      case _ => None
  }

  /** `Display` for `Ipv4Addr`: the four octets in decimal, joined by `.`. */
  function FormatIpv4(ip: Ipv4Addr): string {
    Join([NatToDecimal(ip.a), NatToDecimal(ip.b), NatToDecimal(ip.c), NatToDecimal(ip.d)], '.')
  }

  /** The text of an address holds only digits and dots, so no space. */
  lemma FormatIpv4Chars(ip: Ipv4Addr)
    ensures forall k :: 0 <= k < |FormatIpv4(ip)| ==> IsDigit(FormatIpv4(ip)[k]) || FormatIpv4(ip)[k] == '.'
  {
    JoinedDigits([NatToDecimal(ip.a), NatToDecimal(ip.b), NatToDecimal(ip.c), NatToDecimal(ip.d)]);
  }

  lemma {:induction false} JoinedDigits(parts: seq<string>)
    requires |parts| >= 1
    requires forall k :: 0 <= k < |parts| ==> AllDigits(parts[k])
    ensures forall k :: 0 <= k < |Join(parts, '.')| ==> IsDigit(Join(parts, '.')[k]) || Join(parts, '.')[k] == '.'
    decreases |parts|
  {
    if |parts| > 1 {
      JoinedDigits(parts[1..]);
    }
  }

  lemma ShortDecimal(n: nat)
    requires n < 1000
    ensures |NatToDecimal(n)| <= 3
  {
    if n >= 10 {
      assert NatToDecimal(n) == NatToDecimal(n / 10) + [DigitChar(n % 10)];
      if n / 10 >= 10 {
        assert NatToDecimal(n / 10) == NatToDecimal(n / 100) + [DigitChar(n / 10 % 10)];
      }
    }
  }

  lemma OctetRoundTrip(n: Octet)
    ensures ParseOctet(NatToDecimal(n)) == Some(n)
  {
    ShortDecimal(n);
    DigitsOfDecimal(n);
  }

  /** Formatting then parsing gives the address back. */
  lemma Ipv4RoundTrip(ip: Ipv4Addr)
    ensures ParseIpv4(FormatIpv4(ip)) == Some(ip)
  {
    var parts := [NatToDecimal(ip.a), NatToDecimal(ip.b), NatToDecimal(ip.c), NatToDecimal(ip.d)];
    assert forall k :: 0 <= k < |parts| ==> '.' !in parts[k] by {
      forall k | 0 <= k < |parts| ensures '.' !in parts[k] {
        assert AllDigits(parts[k]);
      }
    }
    SplitJoin(parts, '.');
    OctetRoundTrip(ip.a);
    OctetRoundTrip(ip.b);
    OctetRoundTrip(ip.c);
    OctetRoundTrip(ip.d);
  }

  /** Parsing accepts only the canonical text of the address it returns. */
  lemma Ipv4Canonical(s: string)
    ensures ParseIpv4(s).Some? ==> FormatIpv4(ParseIpv4(s).value) == s
  {
    var parts := Split(s, '.');
    if ParseIpv4(s).Some? {
      var ip := ParseIpv4(s).value;
      DecimalOfDigits(parts[0]);
      DecimalOfDigits(parts[1]);
      DecimalOfDigits(parts[2]);
      DecimalOfDigits(parts[3]);
      assert parts == [NatToDecimal(ip.a), NatToDecimal(ip.b), NatToDecimal(ip.c), NatToDecimal(ip.d)];
      JoinSplit(s, '.');
    }
  }

  /** The address pieces of `ipv4_addresses` before parsing: the values of the
      entries whose key contains `"ipv4"`, split on single spaces, in entry order. */
  function Pieces(entries: seq<(string, string)>): seq<string>
    decreases |entries|
  {
    if entries == [] then []
    else (if Contains(entries[0].0, "ipv4") then Split(entries[0].1, ' ') else []) + Pieces(entries[1..])
  }

  /** The `filter_map`: each piece that parses as an address, in order. */
  function ParseAll(pieces: seq<string>): seq<Ipv4Addr>
    decreases |pieces|
  {
    if pieces == [] then []
    else (match ParseIpv4(pieces[0]) case Some(ip) => [ip] case None => []) + ParseAll(pieces[1..])
  }

  /** The addresses of an `addresses` map. */
  function Ipv4AddressesOf(entries: seq<(string, string)>): seq<Ipv4Addr> {
    ParseAll(Pieces(entries))
  }

  /** `Vm::ipv4_addresses`, collected. */
  function Ipv4Addresses<O>(vm: Vm<O>): (r: seq<Ipv4Addr>)
    ensures r == Ipv4AddressesOf(vm.addresses)
  {
    Ipv4AddressesOf(vm.addresses)
  }

  lemma {:induction false} PiecesAppend(a: seq<(string, string)>, b: seq<(string, string)>)
    ensures Pieces(a + b) == Pieces(a) + Pieces(b)
    decreases |a|
  {
    if a == [] {
      assert a + b == b;
    } else {
      assert (a + b)[0] == a[0] && (a + b)[1..] == a[1..] + b;
      PiecesAppend(a[1..], b);
    }
  }

  lemma {:induction false} ParseAllAppend(p: seq<string>, q: seq<string>)
    ensures ParseAll(p + q) == ParseAll(p) + ParseAll(q)
    decreases |p|
  {
    if p == [] {
      assert p + q == q;
    } else {
      assert (p + q)[0] == p[0] && (p + q)[1..] == p[1..] + q;
      ParseAllAppend(p[1..], q);
    }
  }

  /** The output follows the entries: the addresses of an earlier stretch of
      entries all come before those of a later one. */
  lemma Ipv4AddressesAppend(a: seq<(string, string)>, b: seq<(string, string)>)
    ensures Ipv4AddressesOf(a + b) == Ipv4AddressesOf(a) + Ipv4AddressesOf(b)
  {
    PiecesAppend(a, b);
    ParseAllAppend(Pieces(a), Pieces(b));
  }

  /** One entry contributes the parsed pieces of its value, in their order, when
      its key mentions `ipv4`, and nothing otherwise. */
  lemma Ipv4AddressesOfEntry(key: string, value: string)
    ensures Contains(key, "ipv4") ==> Ipv4AddressesOf([(key, value)]) == ParseAll(Split(value, ' '))
    ensures !Contains(key, "ipv4") ==> Ipv4AddressesOf([(key, value)]) == []
  {
    assert [(key, value)][1..] == [];
    assert Pieces([(key, value)]) ==
           (if Contains(key, "ipv4") then Split(value, ' ') else []) + Pieces([]);
    assert Split(value, ' ') + [] == Split(value, ' ');
  }

  /** An entry whose key does not mention `ipv4` (an `ipv6` entry, say) can be
      removed without changing the result. */
  lemma Ipv4IgnoresOtherKeys(a: seq<(string, string)>, e: (string, string), b: seq<(string, string)>)
    requires !Contains(e.0, "ipv4")
    ensures Ipv4AddressesOf(a + [e] + b) == Ipv4AddressesOf(a + b)
  {
    Ipv4AddressesAppend(a + [e], b);
    Ipv4AddressesAppend(a, [e]);
    Ipv4AddressesAppend(a, b);
    Ipv4AddressesOfEntry(e.0, e.1);
  }

  /** A piece that does not parse is dropped, so there are at most as many
      addresses as pieces; an address is in the output exactly when some piece
      parses to it. */
  lemma {:induction false} ParseAllBounds(p: seq<string>, ip: Ipv4Addr)
    ensures |ParseAll(p)| <= |p|
    ensures ip in ParseAll(p) <==> exists k :: 0 <= k < |p| && ParseIpv4(p[k]) == Some(ip)
    decreases |p|
  {
    if p != [] {
      ParseAllBounds(p[1..], ip);
      if ip in ParseAll(p[1..]) {
        var k :| 0 <= k < |p[1..]| && ParseIpv4(p[1..][k]) == Some(ip);
        assert ParseIpv4(p[k + 1]) == Some(ip);
      }
      if exists k :: 0 <= k < |p| && ParseIpv4(p[k]) == Some(ip) {
        var k :| 0 <= k < |p| && ParseIpv4(p[k]) == Some(ip);
        if k > 0 {
          assert ParseIpv4(p[1..][k - 1]) == Some(ip);
        }
      }
    }
  }

  /** The addresses of a list of formatted addresses are those addresses,
      duplicates and order kept. */
  lemma {:induction false} ParseAllFormatted(ips: seq<Ipv4Addr>, pieces: seq<string>)
    requires |pieces| == |ips|
    requires forall k :: 0 <= k < |ips| ==> pieces[k] == FormatIpv4(ips[k])
    ensures ParseAll(pieces) == ips
    decreases |ips|
  {
    if ips != [] {
      Ipv4RoundTrip(ips[0]);
      ParseAllFormatted(ips[1..], pieces[1..]);
    }
  }

  /** The text of each address of a list. */
  function FormatAll(ips: seq<Ipv4Addr>): (texts: seq<string>)
    ensures |texts| == |ips|
    ensures forall k :: 0 <= k < |ips| ==> texts[k] == FormatIpv4(ips[k])
  {
    seq(|ips|, k requires 0 <= k < |ips| => FormatIpv4(ips[k]))
  }

  /** An `ipv4` entry whose value lists formatted addresses separated by single
      spaces contributes exactly those addresses, duplicates and order kept. */
  lemma EntryOfAddresses(key: string, ips: seq<Ipv4Addr>)
    requires Contains(key, "ipv4") && |ips| >= 1
    ensures Ipv4AddressesOf([(key, Join(FormatAll(ips), ' '))]) == ips
  {
    var texts := FormatAll(ips);
    forall k | 0 <= k < |texts| ensures ' ' !in texts[k] {
      FormatIpv4Chars(ips[k]);
    }
    SplitJoin(texts, ' ');
    Ipv4AddressesOfEntry(key, Join(texts, ' '));
    ParseAllFormatted(ips, texts);
  }

  /** The key `k/ipv4/i` mentions `ipv4`, the key `k/ipv6/i` does not. */
  lemma AddressKeys(prefix: char, suffix: char)
    ensures Contains([prefix, '/', 'i', 'p', 'v', '4', '/', suffix], "ipv4")
    ensures prefix != '4' && suffix != '4' ==> !Contains([prefix, '/', 'i', 'p', 'v', '6', '/', suffix], "ipv4")
  {
    var k4 := [prefix, '/', 'i', 'p', 'v', '4', '/', suffix];
    assert OccursAt(k4, "ipv4", 2);
    ContainsMeansOccurs(k4, "ipv4");
    var k6 := [prefix, '/', 'i', 'p', 'v', '6', '/', suffix];
    if prefix != '4' && suffix != '4' && Contains(k6, "ipv4") {
      ContainsChar(k6, "ipv4", '4');
    }
  }

  /** The text `a.b.c.d` from the texts of the four octets. */
  function Dots(ta: string, tb: string, tc: string, td: string): string {
    ta + "." + (tb + "." + (tc + "." + td))
  }

  lemma Dotted(a: Octet, b: Octet, c: Octet, d: Octet, ta: string, tb: string, tc: string, td: string)
    requires NatToDecimal(a) == ta && NatToDecimal(b) == tb
    requires NatToDecimal(c) == tc && NatToDecimal(d) == td
    ensures FormatIpv4(Ipv4Addr(a, b, c, d)) == Dots(ta, tb, tc, td)
  {
    var parts := [ta, tb, tc, td];
    assert parts[1..] == [tb, tc, td] && parts[1..][1..] == [tc, td] && parts[1..][1..][1..] == [td];
    assert Join([td], '.') == td;
    assert Join([tc, td], '.') == tc + "." + td;
    assert Join([tb, tc, td], '.') == tb + "." + (tc + "." + td);
  }

  /** A value holding the text of one address yields that address. */
  lemma ValueOfOne(a: Octet, b: Octet, c: Octet, d: Octet, ta: string, tb: string, tc: string, td: string)
    requires NatToDecimal(a) == ta && NatToDecimal(b) == tb
    requires NatToDecimal(c) == tc && NatToDecimal(d) == td
    ensures ParseAll(Split(Dots(ta, tb, tc, td), ' ')) == [Ipv4Addr(a, b, c, d)]
  {
    var ip := Ipv4Addr(a, b, c, d);
    var text := Dots(ta, tb, tc, td);
    Dotted(a, b, c, d, ta, tb, tc, td);
    FormatIpv4Chars(ip);
    assert ' ' !in text;
    SplitWithoutSeparator(text, ' ');
    Ipv4RoundTrip(ip);
    assert [text][1..] == [];
  }

  lemma ConsAddresses(e: (string, string), rest: seq<(string, string)>)
    ensures Ipv4AddressesOf([e] + rest) == Ipv4AddressesOf([e]) + Ipv4AddressesOf(rest)
  {
    Ipv4AddressesAppend([e], rest);
  }

  lemma DebianTexts()
    ensures NatToDecimal(10) == "10" && NatToDecimal(0) == "0"
    ensures NatToDecimal(1) == "1" && NatToDecimal(52) == "52"
    ensures "10.0.1.52" == Dots("10", "0", "1", "52")
  {
  }

  /** The addresses of the Debian 10 VM: one IPv4 entry, and one IPv6 entry
      (`fe80::dead:beaf:dead:beaf` on that VM) that contributes nothing
      whatever it holds. */
  lemma DebianAddresses(v6: string)
    ensures Ipv4AddressesOf([("0/ipv4/0", "10.0.1.52"), ("0/ipv6/0", v6)]) == [Ipv4Addr(10, 0, 1, 52)]
  {
    var e := [("0/ipv4/0", "10.0.1.52"), ("0/ipv6/0", v6)];
    AddressKeys('0', '0');
    DebianTexts();
    assert e == [e[0]] + ([e[1]] + []);
    ConsAddresses(e[0], [e[1]] + []);
    ConsAddresses(e[1], []);
    Ipv4AddressesOfEntry(e[0].0, e[0].1);
    Ipv4AddressesOfEntry(e[1].0, e[1].1);
    ValueOfOne(10, 0, 1, 52, "10", "0", "1", "52");
  }

  /** All the address lists, one after the other. */
  function Flatten(lists: seq<seq<Ipv4Addr>>): seq<Ipv4Addr>
    decreases |lists|
  {
    if lists == [] then [] else lists[0] + Flatten(lists[1..])
  }

  /** The entries `(keys[i], addresses of lists[i] joined by spaces)`. */
  function ListedEntries(keys: seq<string>, lists: seq<seq<Ipv4Addr>>): (entries: seq<(string, string)>)
    requires |keys| == |lists|
    ensures |entries| == |keys|
    ensures forall i :: 0 <= i < |keys| && |lists[i]| >= 1 ==>
              entries[i] == (keys[i], Join(FormatAll(lists[i]), ' '))
    decreases |keys|
  {
    if keys == [] then []
    else [(keys[0], if |lists[0]| >= 1 then Join(FormatAll(lists[0]), ' ') else "")]
         + ListedEntries(keys[1..], lists[1..])
  }

  /** `ipv4` entries that each list some addresses, as the pfSense VM's do
      (`"10.0.0.13 10.0.0.12 10.0.0.16 10.0.0.7"`, then `"10.0.0.12"`, ...),
      yield all of them: entry by entry, in-string order inside an entry,
      with every duplicate kept. */
  lemma {:induction false} ListedAddresses(keys: seq<string>, lists: seq<seq<Ipv4Addr>>)
    requires |keys| == |lists|
    requires forall i :: 0 <= i < |keys| ==> Contains(keys[i], "ipv4") && |lists[i]| >= 1
    ensures Ipv4AddressesOf(ListedEntries(keys, lists)) == Flatten(lists)
    decreases |keys|
  {
    if keys != [] {
      var e := (keys[0], Join(FormatAll(lists[0]), ' '));
      var rest := ListedEntries(keys[1..], lists[1..]);
      assert ListedEntries(keys, lists) == [e] + rest;
      ConsAddresses(e, rest);
      EntryOfAddresses(keys[0], lists[0]);
      ListedAddresses(keys[1..], lists[1..]);
    }
  }
}
