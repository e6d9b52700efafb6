/** Address classes and allowlists of src/aegis_agent/utils.py. The standard library's parsers are passed in;
    an address is its version and its value, a network is a value and a prefix length (RFC 4632, section 3.1). */
module Addresses {
  import opened Common

  const TWO_TO_32: int := 0x1_0000_0000
  const TWO_TO_128: int := 0x1_00000000_00000000_00000000_00000000

  type U32 = n: int | 0 <= n < TWO_TO_32
  type U128 = n: int | 0 <= n < TWO_TO_128

  datatype Version = Four | Six

  datatype Address = V4(bits4: U32) | V6(bits6: U128) {
    function Version(): Version {
      if V4? then Four else Six
    }
  }

  function Pow2(n: nat): (r: nat)
    ensures r > 0
  {
    if n == 0 then 1 else 2 * Pow2(n - 1)
  }

  datatype Network = Net4(base4: U32, length4: nat) | Net6(base6: U128, length6: nat)

  /** Host bits of the base are ignored, and versions never mix. */
  predicate InNetwork(a: Address, n: Network) {
    match (a, n)
    case (V4(v), Net4(b, len)) => len <= 32 && v / Pow2(32 - len) == b / Pow2(32 - len)
    case (V6(v), Net6(b, len)) => len <= 128 && v / Pow2(128 - len) == b / Pow2(128 - len)
    case _ => false
  }

  predicate IsUnspecified(a: Address) {
    if a.V4? then a.bits4 == 0 else a.bits6 == 0
  }

  predicate IsLoopback(a: Address) {
    if a.V4? then 0x7F00_0000 <= a.bits4 < 0x8000_0000 else a.bits6 == 1
  }

  predicate IsMulticast(a: Address) {
    if a.V4? then 0xE000_0000 <= a.bits4 < 0xF000_0000 else a.bits6 >= 0xFF00_0000_0000_0000_0000_0000_0000_0000
  }

  predicate IsLinkLocal(a: Address) {
    if a.V4? then 0xA9FE_0000 <= a.bits4 < 0xA9FF_0000
    else 0xFE80_0000_0000_0000_0000_0000_0000_0000 <= a.bits6 < 0xFEC0_0000_0000_0000_0000_0000_0000_0000
  }

  predicate IsBroadcast(a: Address) {
    a.V4? && a.bits4 == 0xFFFF_FFFF
  }

  predicate Enforceable(a: Address) {
    !IsUnspecified(a) && !IsLoopback(a) && !IsMulticast(a) && !IsLinkLocal(a) && !IsBroadcast(a)
  }

  /** ipaddress.ip_address and ipaddress.ip_network(…, strict=False); None where they raise ValueError. */
  datatype Parsers = Parsers(address: string -> Option<Address>, network: string -> Option<Network>)

  /** The address parser takes no surrounding white space, except inside the zone of a scoped address, which is
      free text behind a percent sign. */
  ghost predicate TakesNoPadding(p: Parsers) {
    forall t :: '%' !in t && p.address(t).Some? ==> Strip(t) == t
  }

  datatype Verdict = Valid(version: Version) | MissingTarget | InvalidIp | UnsafeIp

  /** validate_enforcement_ip: the text is stripped before it is parsed. */
  function Validate(p: Parsers, target: string): Verdict {
    if target == "" then MissingTarget
    else
      match p.address(Strip(target))
      case None => InvalidIp
      case Some(a) =>
        if IsUnspecified(a) then UnsafeIp
        else if IsLoopback(a) then UnsafeIp
        else if IsMulticast(a) then UnsafeIp
        else if IsLinkLocal(a) then UnsafeIp
        else if a.V4? && a.bits4 == 0xFFFF_FFFF then UnsafeIp
        else Valid(a.Version())
  }

  /** ip_in_allowlist: the text is parsed as it stands; `ips` are compared as text, `cidrs` by value. */
  predicate InAllowlist(p: Parsers, target: string, ips: seq<string>, cidrs: seq<string>) {
    && p.address(target).Some?
    && (target in ips || exists c :: c in cidrs && p.network(c).Some? && InNetwork(p.address(target).value, p.network(c).value))
  }

  /** The address a firewall command reads from a target text. */
  function AddressOf(p: Parsers, target: string): Option<Address> {
    p.address(Strip(target))
  }

  /** a lies in a valid network of the list. */
  ghost predicate InSomeNetwork(p: Parsers, a: Address, cidrs: seq<string>) {
    exists c :: c in cidrs && p.network(c).Some? && InNetwork(a, p.network(c).value)
  }

  /** Valid targets are exactly those whose stripped text is an enforceable address of the reported version. */
  lemma ValidMeansEnforceable(p: Parsers, target: string, v: Version)
    ensures Validate(p, target) == Valid(v) <==>
            target != "" && AddressOf(p, target).Some? && Enforceable(AddressOf(p, target).value) && AddressOf(p, target).value.Version() == v
  {
  }

  /** The allowlist recognises a valid target exactly when its text carries no padding and is listed, or its
      address lies in a listed network. */
  lemma AllowlistSeesUnpaddedOnly(p: Parsers, target: string, ips: seq<string>, cidrs: seq<string>)
    requires TakesNoPadding(p) && '%' !in target && Validate(p, target).Valid?
    ensures InAllowlist(p, target, ips, cidrs) <==>
            Strip(target) == target && (target in ips || InSomeNetwork(p, AddressOf(p, target).value, cidrs))
  {
    if p.address(target).Some? {
      assert Strip(target) == target;
    }
  }

  /** What the lists mean by value: a is the address of a listed text or lies in a listed network. */
  ghost predicate Protected(p: Parsers, a: Address, ips: seq<string>, cidrs: seq<string>) {
    (exists t :: t in ips && p.address(t) == Some(a)) || InSomeNetwork(p, a, cidrs)
  }

  /** A protected address escapes the allowlist exactly under a padded text, or under another spelling of a
      listed one outside every listed network. */
  lemma AllowlistMissesExactly(p: Parsers, target: string, ips: seq<string>, cidrs: seq<string>)
    requires TakesNoPadding(p) && '%' !in target && Validate(p, target).Valid?
    requires Protected(p, AddressOf(p, target).value, ips, cidrs)
    ensures !InAllowlist(p, target, ips, cidrs) <==>
            || Strip(target) != target
            || (target !in ips && !InSomeNetwork(p, AddressOf(p, target).value, cidrs))
  {
    AllowlistSeesUnpaddedOnly(p, target, ips, cidrs);
  }

  const LISTED := "2001:db8::1"
  const RESPELLED := "2001:DB8::1"

  /** A parser that knows two spellings of one address. */
  const SPELLINGS: Parsers := Parsers(
    (t: string) => if t == LISTED || t == RESPELLED then Some(V6(0x2001_0DB8_0000_0000_0000_0000_0000_0001)) else None,
    (_: string) => None)

  /** The second spelling of a listed address is a valid target and is not found in the list. */
  lemma OtherSpellingIsMissed()
    ensures Validate(SPELLINGS, RESPELLED) == Valid(Six)
    ensures Protected(SPELLINGS, AddressOf(SPELLINGS, RESPELLED).value, [LISTED], [])
    ensures !InAllowlist(SPELLINGS, RESPELLED, [LISTED], [])
  {
    assert RESPELLED[0] == '2' && RESPELLED[|RESPELLED| - 1] == '1';
    assert Strip(RESPELLED) == RESPELLED;
    assert LISTED[5] != RESPELLED[5];
    assert LISTED in [LISTED];
    var p := SPELLINGS;
    assert p.address(LISTED) == p.address(RESPELLED);
  }

  // ---- The definitions in literals ----

  lemma Doubling(x: nat, y: nat)
    ensures 2 * (x * y) == (2 * x) * y
  {
  }

  lemma {:induction false} Pow2Adds(a: nat, b: nat)
    ensures Pow2(a + b) == Pow2(a) * Pow2(b)
  {
    if a > 0 {
      Pow2Adds(a - 1, b);
      assert Pow2(a + b) == 2 * Pow2(a - 1 + b);
      Doubling(Pow2(a - 1), Pow2(b));
    }
  }

  lemma Powers()
    ensures Pow2(8) == 256 && Pow2(16) == 65536 && Pow2(24) == 0x100_0000 && Pow2(0) == 1 && Pow2(20) == 0x10_0000 && Pow2(28) == 0x1000_0000
  {
    assert Pow2(4) == 16;
    Pow2Adds(4, 4);
    Pow2Adds(8, 8);
    Pow2Adds(16, 8);
    Pow2Adds(16, 4);
    Pow2Adds(24, 4);
  }

  lemma Products(a: nat, b: nat, size: nat)
    requires a <= b
    ensures a * size <= b * size && (a - 1 + 1) * size == a * size
  {
  }

  lemma SameBlock(v: nat, b: nat, size: nat)
    requires size > 0
    ensures v / size == b / size <==> b - b % size <= v < b - b % size + size
  {
    assert b - b % size == (b / size) * size;
    assert v == (v / size) * size + v % size;
    var q, r := v / size, b / size;
    if q < r {
      Products(q + 1, r, size);
    } else if q > r {
      Products(r + 1, q, size);
    }
  }

  /** A network holds exactly the addresses of its version from its base with the host bits cleared up to the end
      of the block, and a prefix longer than the address holds none. */
  lemma NetworkIsRange(a: Address, n: Network)
    ensures a.V4? && n.Net4? && n.length4 <= 32 ==>
              var size := Pow2(32 - n.length4);
              InNetwork(a, n) <==> n.base4 - n.base4 % size <= a.bits4 < n.base4 - n.base4 % size + size
    ensures a.V6? && n.Net6? && n.length6 <= 128 ==>
              var size := Pow2(128 - n.length6);
              InNetwork(a, n) <==> n.base6 - n.base6 % size <= a.bits6 < n.base6 - n.base6 % size + size
    ensures InNetwork(a, n) ==> (a.V4? <==> n.Net4?) && (n.Net4? ==> n.length4 <= 32) && (n.Net6? ==> n.length6 <= 128)
  {
    if a.V4? && n.Net4? && n.length4 <= 32 {
      SameBlock(a.bits4, n.base4, Pow2(32 - n.length4));
    }
    if a.V6? && n.Net6? && n.length6 <= 128 {
      SameBlock(a.bits6, n.base6, Pow2(128 - n.length6));
    }
  }

  /** 10.0.0.0/8, 192.168.1.0/24 and a single address, as ranges. */
  lemma SomeNetworks(v: U32, host: U32)
    ensures InNetwork(V4(v), Net4(0x0A00_0000, 8)) <==> 0x0A00_0000 <= v <= 0x0AFF_FFFF
    ensures InNetwork(V4(v), Net4(0xC0A8_0100, 24)) <==> 0xC0A8_0100 <= v <= 0xC0A8_01FF
    ensures InNetwork(V4(v), Net4(host, 32)) <==> v == host
  {
    Powers();
    NetworkIsRange(V4(v), Net4(0x0A00_0000, 8));
    NetworkIsRange(V4(v), Net4(0xC0A8_0100, 24));
    NetworkIsRange(V4(v), Net4(host, 32));
  }

  /** The unsafe IPv4 classes as networks: 0.0.0.0, 127/8, 224/4, 169.254/16 and 255.255.255.255. */
  lemma UnsafeClasses4(v: U32)
    ensures Enforceable(V4(v)) <==>
            && v != 0 && v != 0xFFFF_FFFF
            && !InNetwork(V4(v), Net4(0x7F00_0000, 8))
            && !InNetwork(V4(v), Net4(0xE000_0000, 4))
            && !InNetwork(V4(v), Net4(0xA9FE_0000, 16))
  {
    Powers();
    NetworkIsRange(V4(v), Net4(0x7F00_0000, 8));
    NetworkIsRange(V4(v), Net4(0xE000_0000, 4));
    NetworkIsRange(V4(v), Net4(0xA9FE_0000, 16));
  }

  lemma SixtyFour()
    ensures Pow2(6) == 64
  {
    assert Pow2(4) == 16;
  }

  lemma LargePowers()
    ensures Pow2(118) == 0x40_0000_0000_0000_0000_0000_0000_0000 && Pow2(120) == 0x100_0000_0000_0000_0000_0000_0000_0000
  {
    hide Pow2;
    Powers();
    SixtyFour();
    Pow2Adds(28, 28);
    Pow2Adds(56, 56);
    Pow2Adds(112, 6);
    Pow2Adds(112, 8);
  }

  /** The unsafe IPv6 classes as networks: ::, ::1, ff00::/8 and fe80::/10. */
  lemma UnsafeClasses6(v: U128)
    ensures Enforceable(V6(v)) <==>
            && v != 0 && v != 1
            && !InNetwork(V6(v), Net6(0xFF00_0000_0000_0000_0000_0000_0000_0000, 8))
            && !InNetwork(V6(v), Net6(0xFE80_0000_0000_0000_0000_0000_0000_0000, 10))
  {
    LargePowers();
    NetworkIsRange(V6(v), Net6(0xFF00_0000_0000_0000_0000_0000_0000_0000, 8));
    NetworkIsRange(V6(v), Net6(0xFE80_0000_0000_0000_0000_0000_0000_0000, 10));
  }

  /** The characters that surround a text without counting. */
  lemma SpacesInFull(c: char)
    ensures IsSpace(c) <==>
            c in " \t\n\r\U{000B}\U{000C}\U{001C}\U{001D}\U{001E}\U{001F}\U{0085}\U{00A0}\U{1680}\U{2028}\U{2029}\U{202F}\U{205F}\U{3000}"
            || c in "\U{2000}\U{2001}\U{2002}\U{2003}\U{2004}\U{2005}\U{2006}\U{2007}\U{2008}\U{2009}\U{200A}"
  {
  }

  predicate Blank(s: string) {
    forall c :: c in s ==> IsSpace(c)
  }

  lemma {:induction false} LeftInFull(s: string)
    ensures |StripLeft(s)| <= |s|
    ensures var n := |s| - |StripLeft(s)|; StripLeft(s) == s[n..] && Blank(s[..n])
    ensures StripLeft(s) != "" ==> !IsSpace(StripLeft(s)[0])
  {
    if s != [] && IsSpace(s[0]) {
      LeftInFull(s[1..]);
      var n := |s| - |StripLeft(s)|;
      assert s[..n] == [s[0]] + s[1..][..n - 1];
    }
  }

  lemma {:induction false} RightInFull(s: string)
    ensures |StripRight(s)| <= |s|
    ensures var n := |StripRight(s)|; StripRight(s) == s[..n] && Blank(s[n..])
    ensures StripRight(s) != "" ==> !IsSpace(StripRight(s)[|StripRight(s)| - 1])
  {
    if s != [] && IsSpace(s[|s| - 1]) {
      var init := s[..|s| - 1];
      RightInFull(init);
      var n := |StripRight(s)|;
      assert s[n..] == init[n..] + [s[|s| - 1]];
    }
  }

  /** Stripping takes away white space on both sides, all of it there and nothing else. */
  lemma StripInFull(s: string)
    ensures exists i, j :: 0 <= i <= j <= |s| && Strip(s) == s[i..j] && Blank(s[..i]) && Blank(s[j..])
    ensures Strip(s) != "" ==> !IsSpace(Strip(s)[0]) && !IsSpace(Strip(s)[|Strip(s)| - 1])
  {
    hide IsSpace, StripLeft, StripRight, Blank;
    var t := StripLeft(s);
    LeftInFull(s);
    RightInFull(t);
    var i := |s| - |t|;
    var j := i + |Strip(s)|;
    assert t[..j - i] == s[i..j] && t[j - i..] == s[j..];
    assert Strip(s) == s[i..j] && Blank(s[..i]) && Blank(s[j..]);
  }

  /** Why an enforcement target is refused. */
  lemma VerdictInFull(p: Parsers, target: string)
    ensures Validate(p, target) == MissingTarget <==> target == ""
    ensures Validate(p, target) == InvalidIp <==> target != "" && p.address(Strip(target)).None?
    ensures Validate(p, target) == UnsafeIp <==>
            target != "" && p.address(Strip(target)).Some? && !Enforceable(p.address(Strip(target)).value)
  {
  }
}
