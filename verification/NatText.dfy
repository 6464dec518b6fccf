/** Rules of the host's NAT list as text, and a reader of such text. */
module NatText {
  import opened Wrappers
  import opened Addresses
  import opened NatRules

  // ---- Host addresses as text ----------------------------------------------------------------------

  function Digit(d: nat): char
    requires d < 10
  {
    ('0' as int + d) as char
  }

  function Decimal(n: Octet): string {
    if n < 10 then [Digit(n)]
    else if n < 100 then [Digit(n / 10), Digit(n % 10)]
    else [Digit(n / 100), Digit(n / 10 % 10), Digit(n % 10)]
  }

  function HostText(u: Addr): string {
    var ip := FromUint32(u);
    Decimal(ip.a) + "." + (Decimal(ip.b) + "." + (Decimal(ip.c) + "." + Decimal(ip.d)))
  }

  // ---- Rules as text --------------------------------------------------------------------------------------

  function RuleComment(b: Binding): string {
    "caspercloud-fip-" + HostText(b.pub) + "-" + HostText(b.priv)
  }

  function DnatWords(b: Binding): seq<string> {
    ["PREROUTING", "-d", HostText(b.pub) + "/32",
     "-m", "comment", "--comment", RuleComment(b), "-j", "DNAT", "--to-destination", HostText(b.priv)]
  }

  function SnatWords(b: Binding, exclude: string): seq<string> {
    ["POSTROUTING", "-s", HostText(b.priv) + "/32", "!", "-d", exclude,
     "-m", "comment", "--comment", RuleComment(b), "-j", "SNAT", "--to-source", HostText(b.pub)]
  }

  const TABLE := ["-t", "nat"]

  function Printed(r: Rule, exclude: string): seq<string> {
    match r
    case Dnat(pub, priv) => TABLE + DnatWords(Binding(pub, priv))
    case Snat(pub, priv) => TABLE + SnatWords(Binding(pub, priv), exclude)
    case Other(args) => args
  }

  function Print(rules: seq<Rule>, exclude: string): seq<seq<string>> {
    seq(|rules|, i requires 0 <= i < |rules| => Printed(rules[i], exclude))
  }

  // ---- Reading addresses ------------------------------------------------------------------------------------

  predicate AllDigits(s: string) {
    forall k :: 0 <= k < |s| ==> '0' <= s[k] <= '9'
  }

  function Value(s: string): nat
    requires AllDigits(s)
  {
    if s == [] then 0 else 10 * Value(s[..|s| - 1]) + (s[|s| - 1] as int - '0' as int)
  }

  function ReadOctet(s: string): Option<nat> {
    if 1 <= |s| <= 3 && AllDigits(s) && Value(s) < 256 then Some(Value(s)) else None
  }

  /** The parts of a text between its dots. */
  function Fields(s: string): (r: seq<string>)
    ensures r != []
  {
    if s == [] then [[]]
    else
      var rest := Fields(s[1..]);
      if s[0] == '.' then [[]] + rest else [[s[0]] + rest[0]] + rest[1..]
  }

  /** Four octets, most significant first. */
  function ReadHost(s: string): Option<nat> {
    var f := Fields(s);
    if |f| != 4 then None
    else
      var a, b, c, d := ReadOctet(f[0]), ReadOctet(f[1]), ReadOctet(f[2]), ReadOctet(f[3]);
      if a.Some? && b.Some? && c.Some? && d.Some? then
        Some(a.value * 0x100_0000 + b.value * 0x1_0000 + c.value * 0x100 + d.value)
      else None
  }

  /** A network of one address. */
  function ReadSingle(s: string): Option<nat> {
    if |s| > 3 && s[|s| - 3..] == "/32" then ReadHost(s[..|s| - 3]) else None
  }

  lemma {:induction false} FieldsAtDot(a: string, rest: string)
    requires '.' !in a
    ensures Fields(a + ("." + rest)) == [a] + Fields(rest)
  {
    var s := a + ("." + rest);
    if a == [] {
      assert s[0] == '.' && s[1..] == rest;
    } else {
      assert s[0] == a[0] && s[1..] == a[1..] + ("." + rest);
      FieldsAtDot(a[1..], rest);
      var f := Fields(s[1..]);
      assert f[0] == a[1..] && f[1..] == Fields(rest) && [a[0]] + a[1..] == a;
    }
  }

  lemma {:induction false} OneField(a: string)
    requires '.' !in a
    ensures Fields(a) == [a]
  {
    if a != [] {
      OneField(a[1..]);
      assert [a[0]] + a[1..] == a;
    }
  }

  lemma ValueOfLast(s: string)
    requires s != [] && AllDigits(s)
    ensures Value(s) == 10 * Value(s[..|s| - 1]) + (s[|s| - 1] as int - '0' as int)
  {
  }

  lemma OctetReads(n: Octet)
    ensures '.' !in Decimal(n) && ReadOctet(Decimal(n)) == Some(n)
  {
    var s := Decimal(n);
    assert AllDigits(s);
    ValueOfLast(s);
    if |s| == 1 {
      assert s[..0] == [];
    } else {
      var t := s[..|s| - 1];
      ValueOfLast(t);
      if |s| == 2 {
        assert t[..0] == [];
      } else {
        ValueOfLast(t[..1]);
        assert t[..1][..0] == [] && t[..1][0] == s[0] && t[1] == s[1];
        assert n / 10 / 10 == n / 100;
      }
    }
  }

  lemma FourFields(a: string, b: string, c: string, d: string)
    requires '.' !in a && '.' !in b && '.' !in c && '.' !in d
    ensures Fields(a + "." + (b + "." + (c + "." + d))) == [a, b, c, d]
  {
    hide Fields;
    var cd := c + "." + d;
    var bcd := b + "." + cd;
    OneField(d);
    Dotted(c, d);
    FieldsAtDot(c, d);
    Dotted(b, cd);
    FieldsAtDot(b, cd);
    Dotted(a, bcd);
    FieldsAtDot(a, bcd);
  }

  lemma Dotted(a: string, rest: string)
    ensures a + "." + rest == a + ("." + rest)
  {
  }

  lemma Weights(ip: IPv4)
    ensures ToUint32(ip) == ip.a * 0x100_0000 + ip.b * 0x1_0000 + ip.c * 0x100 + ip.d
  {
  }

  /** Every address is read back. */
  lemma HostReads(u: Addr)
    ensures ReadHost(HostText(u)) == Some(u)
  {
    var ip := FromUint32(u);
    OctetReads(ip.a);
    OctetReads(ip.b);
    OctetReads(ip.c);
    OctetReads(ip.d);
    Uint32RoundTrip(u);
    Weights(ip);
    FourFields(Decimal(ip.a), Decimal(ip.b), Decimal(ip.c), Decimal(ip.d));
    hide Decimal, ReadOctet, Fields, ToUint32, FromUint32;
  }

  lemma SingleReads(u: Addr)
    ensures ReadSingle(HostText(u) + "/32") == Some(u)
  {
    var s := HostText(u) + "/32";
    assert s[..|s| - 3] == HostText(u) && s[|s| - 3..] == "/32";
    HostReads(u);
    OctetReads(FromUint32(u).a);
  }

  // ---- Reading rules ------------------------------------------------------------------------------------------

  /** What a rule says: its chain, which packets it matches, and which address it puts where. */
  datatype Reading = Reading(
    chain: string, source: Option<nat>, destination: Option<nat>, except: Option<string>,
    comment: string, target: string, toSource: Option<nat>, toDestination: Option<nat>)

  /** Options in any order. */
  function ReadOptions(words: seq<string>, r: Reading): Option<Reading>
    decreases |words|
  {
    if words == [] then Some(r)
    else if words[0] == "!" then
      if |words| >= 3 && words[1] == "-d" then ReadOptions(words[3..], r.(except := Some(words[2]))) else None
    else if |words| < 2 then None
    else if words[0] == "-s" then ReadOptions(words[2..], r.(source := ReadSingle(words[1])))
    else if words[0] == "-d" then ReadOptions(words[2..], r.(destination := ReadSingle(words[1])))
    else if words[0] == "-j" then ReadOptions(words[2..], r.(target := words[1]))
    else if words[0] == "--to-source" then ReadOptions(words[2..], r.(toSource := ReadHost(words[1])))
    else if words[0] == "--to-destination" then ReadOptions(words[2..], r.(toDestination := ReadHost(words[1])))
    else if words[0] == "--comment" then ReadOptions(words[2..], r.(comment := words[1]))
    else if words[0] == "-m" && words[1] == "comment" then ReadOptions(words[2..], r)
    else None
  }

  /** A rule of the NAT table. */
  function ReadRule(text: seq<string>): Option<Reading> {
    if |text| >= 3 && text[..2] == ["-t", "nat"] then
      ReadOptions(text[3..], Reading(text[2], None, None, None, "", "", None, None))
    else None
  }

  /** Both rules of a pair name it, the public address first. */
  function Comment(pub: Addr, priv: Addr): string {
    "caspercloud-fip-" + HostText(pub) + "-" + HostText(priv)
  }

  /** The first rule of a pair sends what is addressed to the public address to the private one. */
  function Inbound(pub: Addr, priv: Addr): Reading {
    Reading("PREROUTING", None, Some(pub), None, Comment(pub, priv), "DNAT", None, Some(priv))
  }

  /** The second gives what the private address sends outside the excluded network the public address as its source. */
  function Outbound(pub: Addr, priv: Addr, exclude: string): Reading {
    Reading("POSTROUTING", Some(priv), None, Some(exclude), Comment(pub, priv), "SNAT", Some(pub), None)
  }

  /** An option and its value are read before the rest. */
  lemma OptionFirst(flag: string, value: string, rest: seq<string>, r: Reading)
    requires flag in {"-s", "-d", "-j", "--to-source", "--to-destination", "--comment"} || (flag == "-m" && value == "comment")
    ensures ReadOptions([flag, value] + rest, r) == ReadOptions(rest,
      if flag == "-s" then r.(source := ReadSingle(value))
      else if flag == "-d" then r.(destination := ReadSingle(value))
      else if flag == "-j" then r.(target := value)
      else if flag == "--to-source" then r.(toSource := ReadHost(value))
      else if flag == "--to-destination" then r.(toDestination := ReadHost(value))
      else if flag == "--comment" then r.(comment := value)
      else r)
  {
    hide ReadHost, ReadSingle;
    var words := [flag, value] + rest;
    assert words[0] == flag && words[1] == value && words[2..] == rest;
    assert flag != "!" by {
      assert flag[0] == '-';
    }
  }

  /** What both rules end with. */
  lemma EndReads(comment: string, target: string, flag: string, host: string, r: Reading)
    requires flag in {"--to-source", "--to-destination"}
    ensures ReadOptions(["-m", "comment", "--comment", comment, "-j", target, flag, host], r)
         == Some(if flag == "--to-source" then r.(comment := comment, target := target, toSource := ReadHost(host))
                 else r.(comment := comment, target := target, toDestination := ReadHost(host)))
  {
    hide ReadHost, ReadSingle;
    var words := ["-m", "comment", "--comment", comment, "-j", target, flag, host];
    assert words == ["-m", "comment"] + words[2..];
    OptionFirst("-m", "comment", words[2..], r);
    assert words[2..] == ["--comment", comment] + words[4..];
    OptionFirst("--comment", comment, words[4..], r);
    assert words[4..] == ["-j", target] + words[6..];
    OptionFirst("-j", target, words[6..], r.(comment := comment));
    assert words[6..] == [flag, host] + [];
    OptionFirst(flag, host, [], r.(comment := comment, target := target));
  }

  lemma TableFirst(words: seq<string>)
    requires words != []
    ensures var text := TABLE + words; text[..2] == ["-t", "nat"] && text[2] == words[0] && text[3..] == words[1..]
  {
  }

  lemma DnatTail(host: string, comment: string, to: string)
    ensures ["PREROUTING", "-d", host, "-m", "comment", "--comment", comment, "-j", "DNAT", "--to-destination", to][1..]
         == ["-d", host] + ["-m", "comment", "--comment", comment, "-j", "DNAT", "--to-destination", to]
  {
  }

  lemma SnatTail(host: string, exclude: string, comment: string, to: string)
    ensures ["POSTROUTING", "-s", host, "!", "-d", exclude, "-m", "comment", "--comment", comment, "-j", "SNAT", "--to-source", to][1..]
         == ["-s", host] + (["!", "-d", exclude] + ["-m", "comment", "--comment", comment, "-j", "SNAT", "--to-source", to])
  {
  }

  lemma DnatReads(pub: Addr, priv: Addr, exclude: string)
    ensures ReadRule(Printed(Dnat(pub, priv), exclude)) == Some(Inbound(pub, priv))
  {
    var comment := Comment(pub, priv);
    var host, to := HostText(pub) + "/32", HostText(priv);
    var end := ["-m", "comment", "--comment", comment, "-j", "DNAT", "--to-destination", to];
    SingleReads(pub);
    HostReads(priv);
    TableFirst(DnatWords(Binding(pub, priv)));
    DnatTail(host, comment, to);
    assert DnatWords(Binding(pub, priv))[0] == "PREROUTING" && DnatWords(Binding(pub, priv))[1..] == ["-d", host] + end;
    hide HostText, ReadHost, ReadSingle, Comment, DnatWords, ReadOptions;
    var start := Reading("PREROUTING", None, None, None, "", "", None, None);
    OptionFirst("-d", host, end, start);
    EndReads(comment, "DNAT", "--to-destination", to, start.(destination := Some(pub)));
  }

  lemma ExceptionFirst(network: string, rest: seq<string>, r: Reading)
    ensures ReadOptions(["!", "-d", network] + rest, r) == ReadOptions(rest, r.(except := Some(network)))
  {
    hide ReadHost, ReadSingle;
    var words := ["!", "-d", network] + rest;
    assert words[0] == "!" && words[1] == "-d" && words[2] == network && words[3..] == rest;
  }

  lemma SnatReads(pub: Addr, priv: Addr, exclude: string)
    ensures ReadRule(Printed(Snat(pub, priv), exclude)) == Some(Outbound(pub, priv, exclude))
  {
    var comment := Comment(pub, priv);
    var host, to := HostText(priv) + "/32", HostText(pub);
    var end := ["-m", "comment", "--comment", comment, "-j", "SNAT", "--to-source", to];
    var words := SnatWords(Binding(pub, priv), exclude);
    SingleReads(priv);
    HostReads(pub);
    TableFirst(words);
    SnatTail(host, exclude, comment, to);
    assert words[0] == "POSTROUTING" && words[1..] == ["-s", host] + (["!", "-d", exclude] + end);
    hide HostText, ReadHost, ReadSingle, Comment, SnatWords, ReadOptions;
    var start := Reading("POSTROUTING", None, None, None, "", "", None, None);
    var bound := start.(source := Some(priv));
    OptionFirst("-s", host, ["!", "-d", exclude] + end, start);
    ExceptionFirst(exclude, end, bound);
    EndReads(comment, "SNAT", "--to-source", to, bound.(except := Some(exclude)));
  }

  /** Different rules of ours never print alike. */
  lemma PrintedInjective(r: Rule, q: Rule, exclude: string)
    requires !r.Other? && !q.Other? && Printed(r, exclude) == Printed(q, exclude)
    ensures r == q
  {
    hide Printed, ReadRule;
    if r.Dnat? {
      DnatReads(r.pub, r.priv, exclude);
    } else {
      SnatReads(r.pub, r.priv, exclude);
    }
    if q.Dnat? {
      DnatReads(q.pub, q.priv, exclude);
    } else {
      SnatReads(q.pub, q.priv, exclude);
    }
  }

  /** Some text of the table says it. */
  ghost predicate Says(table: seq<seq<string>>, r: Reading) {
    exists k :: 0 <= k < |table| && ReadRule(table[k]) == Some(r)
  }

  /** Only rules of others say it. */
  ghost predicate OnlyForeignSays(rules: seq<Rule>, exclude: string, r: Reading) {
    forall k :: 0 <= k < |rules| && ReadRule(Printed(rules[k], exclude)) == Some(r) ==> rules[k].Other?
  }

  lemma RuleReads(r: Rule, exclude: string)
    requires !r.Other?
    ensures ReadRule(Printed(r, exclude))
         == Some(if r.Dnat? then Inbound(r.pub, r.priv) else Outbound(r.pub, r.priv, exclude))
  {
    if r.Dnat? {
      DnatReads(r.pub, r.priv, exclude);
    } else {
      SnatReads(r.pub, r.priv, exclude);
    }
  }

  /** The table says of a pair what its two rules say, as long as they are there. */
  lemma TableSays(rules: seq<Rule>, exclude: string, b: Binding)
    ensures Dnat(b.pub, b.priv) in rules ==> Says(Print(rules, exclude), Inbound(b.pub, b.priv))
    ensures Snat(b.pub, b.priv) in rules ==> Says(Print(rules, exclude), Outbound(b.pub, b.priv, exclude))
    ensures Dnat(b.pub, b.priv) !in rules ==> OnlyForeignSays(rules, exclude, Inbound(b.pub, b.priv))
    ensures Snat(b.pub, b.priv) !in rules ==> OnlyForeignSays(rules, exclude, Outbound(b.pub, b.priv, exclude))
  {
    forall k | 0 <= k < |rules| && !rules[k].Other?
      ensures ReadRule(Print(rules, exclude)[k])
           == Some(if rules[k].Dnat? then Inbound(rules[k].pub, rules[k].priv) else Outbound(rules[k].pub, rules[k].priv, exclude))
    {
      RuleReads(rules[k], exclude);
    }
    hide ReadRule, Printed;
    if Dnat(b.pub, b.priv) in rules {
      var k :| 0 <= k < |rules| && rules[k] == Dnat(b.pub, b.priv);
      assert ReadRule(Print(rules, exclude)[k]) == Some(Inbound(b.pub, b.priv));
    }
    if Snat(b.pub, b.priv) in rules {
      var k :| 0 <= k < |rules| && rules[k] == Snat(b.pub, b.priv);
      assert ReadRule(Print(rules, exclude)[k]) == Some(Outbound(b.pub, b.priv, exclude));
    }
  }
}
