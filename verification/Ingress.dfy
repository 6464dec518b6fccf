/** The iptables commands of ingress, run against the text of the host's NAT list. */
module Ingress {
  import opened NatRules
  import opened NatText

  // ---- Rules as iptables arguments --------------------------------------------------------------------

  function Operation(add: bool): string {
    if add then "-A" else "-D"
  }

  function PreroutingDnatArgs(b: Binding, add: bool): seq<string> {
    TABLE + [Operation(add)] + DnatWords(b)
  }

  function PostroutingSnatArgs(b: Binding, exclude: string, add: bool): seq<string> {
    TABLE + [Operation(add)] + SnatWords(b, exclude)
  }

  /** What a rule says, without the operation word. */
  function RuleText(args: seq<string>): seq<string>
    requires |args| > 2
  {
    args[..2] + args[3..]
  }

  lemma TextWithoutOperation(op: string, words: seq<string>)
    ensures RuleText(TABLE + [op] + words) == TABLE + words
    ensures (TABLE + [op] + words)[2] == op
  {
  }

  function AllOthers(texts: seq<seq<string>>): (rules: seq<Rule>)
    ensures |rules| == |texts| && forall i :: 0 <= i < |texts| ==> rules[i] == Other(texts[i])
  {
    if texts == [] then [] else [Other(texts[0])] + AllOthers(texts[1..])
  }

  /** Rules of others never read like one of ours. */
  ghost predicate Foreign(rules: seq<Rule>, exclude: string) {
    forall r, q: Rule :: r in rules && r.Other? && !q.Other? ==> Printed(q, exclude) != r.args
  }

  /** The same arguments with the first append or delete word turned into a check. */
  method ArgsWithCheckOp(args: seq<string>) returns (out: seq<string>)
    ensures |out| == |args|
    ensures forall i :: 0 <= i < |args| && (exists j :: 0 <= j < i && args[j] in {"-A", "-D"}) ==> out[i] == args[i]
    ensures forall i :: 0 <= i < |args| && (forall j :: 0 <= j < i ==> args[j] !in {"-A", "-D"}) ==>
      out[i] == if args[i] in {"-A", "-D"} then "-C" else args[i]
  {
    out := args;
    for i := 0 to |out|
      invariant out == args && forall j :: 0 <= j < i ==> args[j] !in {"-A", "-D"}
    {
      if out[i] == "-A" || out[i] == "-D" {
        out := out[i := "-C"];
        return;
      }
    }
  }

  // ---- The command and the operations built from it ----------------------------------------------------

  datatype Exit = Done | NotThere | Broken

  class Host {
    const privateExcludeCidr: string
    /** The NAT list as iptables keeps it. */
    var table: seq<seq<string>>
    ghost var rules: seq<Rule>

    ghost predicate Valid()
      reads this
    {
      table == Print(rules, privateExcludeCidr) && Foreign(rules, privateExcludeCidr)
    }

    constructor (exclude: string, foreign: seq<seq<string>>)
      requires Foreign(AllOthers(foreign), exclude)
      ensures Valid() && privateExcludeCidr == exclude && table == foreign && rules == AllOthers(foreign)
    {
      privateExcludeCidr := exclude;
      table := foreign;
      rules := AllOthers(foreign);
    }

    /** Position of a rule's text is position of the rule. */
    lemma TextFindsRule(r: Rule)
      requires Valid() && !r.Other?
      ensures Printed(r, privateExcludeCidr) in table <==> r in rules
      ensures forall i :: 0 <= i < |rules| ==> (table[i] == Printed(r, privateExcludeCidr) <==> rules[i] == r)
    {
      forall i | 0 <= i < |rules| ensures table[i] == Printed(r, privateExcludeCidr) <==> rules[i] == r {
        if table[i] == Printed(r, privateExcludeCidr) {
          assert rules[i] in rules;
          if !rules[i].Other? {
            PrintedInjective(rules[i], r, privateExcludeCidr);
          }
        }
      }
    }

    /** Exit of `iptables -C`. */
    method Check(args: seq<string>, ghost r: Rule, broken: bool) returns (exit: Exit)
      requires Valid() && !r.Other?
      requires |args| > 2 && args[2] == "-C" && RuleText(args) == Printed(r, privateExcludeCidr)
      ensures exit == if broken then Broken else if r in rules then Done else NotThere
    {
      TextFindsRule(r);
      if broken {
        return Broken;
      }
      return if RuleText(args) in table then Done else NotThere;
    }

    /** Exit of `iptables -A`, which appends without looking. */
    method Append(args: seq<string>, ghost r: Rule, broken: bool) returns (exit: Exit)
      requires Valid() && !r.Other?
      requires |args| > 2 && args[2] == "-A" && RuleText(args) == Printed(r, privateExcludeCidr)
      modifies this
      ensures Valid() && rules == if broken then old(rules) else old(rules) + [r]
      ensures exit == if broken then Broken else Done
    {
      if broken {
        return Broken;
      }
      table := table + [RuleText(args)];
      rules := rules + [r];
      return Done;
    }

    /** Exit of `iptables -D`, which removes the first match. */
    method Remove(args: seq<string>, ghost r: Rule, broken: bool) returns (exit: Exit)
      requires Valid() && !r.Other?
      requires |args| > 2 && args[2] == "-D" && RuleText(args) == Printed(r, privateExcludeCidr)
      modifies this
      ensures Valid() && rules == if broken then old(rules) else RemoveFirst(old(rules), r)
      ensures exit == if broken then Broken else if r in old(rules) then Done else NotThere
    {
      if broken {
        return Broken;
      }
      TextFindsRule(r);
      var text := RuleText(args);
      var i := 0;
      while i < |table| && table[i] != text
        invariant 0 <= i <= |table| && table == old(table)
        invariant forall j :: 0 <= j < i ==> table[j] != text
      {
        i := i + 1;
      }
      if i == |table| {
        RemoveFirstLength(rules, r);
        return NotThere;
      }
      RemoveFirstAt(rules, r, i);
      PrintWithout(rules, i, privateExcludeCidr);
      table := table[..i] + table[i + 1..];
      rules := rules[..i] + rules[i + 1..];
      return Done;
    }

    method AssociateIP(b: Binding, f: Faults) returns (ok: bool)
      requires Valid()
      modifies this
      ensures Valid() && (rules, ok) == Associate(old(rules), b, f)
      ensures ok ==> Says(table, Inbound(b.pub, b.priv)) && Says(table, Outbound(b.pub, b.priv, privateExcludeCidr))
    {
      hide DnatWords, SnatWords, RuleText;
      ghost var d, s := Dnat(b.pub, b.priv), Snat(b.pub, b.priv);
      TextWithoutOperation("-A", DnatWords(b));
      TextWithoutOperation("-A", SnatWords(b, privateExcludeCidr));
      var prCheck := ArgsWithCheckOp(PreroutingDnatArgs(b, true));
      CheckText(DnatWords(b), prCheck);
      var pr := Check(prCheck, d, Dnat(b.pub, b.priv) in f.check);
      if pr == Broken {
        return false;
      }
      var poCheck := ArgsWithCheckOp(PostroutingSnatArgs(b, privateExcludeCidr, true));
      CheckText(SnatWords(b, privateExcludeCidr), poCheck);
      var po := Check(poCheck, s, Snat(b.pub, b.priv) in f.check);
      if po == Broken {
        return false;
      }
      if pr == NotThere {
        var exit := Append(PreroutingDnatArgs(b, true), d, Dnat(b.pub, b.priv) in f.add);
        if exit == Broken {
          return false;
        }
      }
      if po == NotThere {
        var exit := Append(PostroutingSnatArgs(b, privateExcludeCidr, true), s, Snat(b.pub, b.priv) in f.add);
        if exit == Broken {
          return false;
        }
      }
      AssociateAddsOwnRules(old(rules), b, f);
      TableSays(rules, privateExcludeCidr, b);
      return true;
    }

    /** Failures of the two deletes are dropped. */
    method DisassociateIP(b: Binding, f: Faults)
      requires Valid()
      modifies this
      ensures Valid() && rules == Disassociate(old(rules), b, f)
      ensures AtMostOnce(old(rules)) && Dnat(b.pub, b.priv) !in f.del ==>
        OnlyForeignSays(rules, privateExcludeCidr, Inbound(b.pub, b.priv))
      ensures AtMostOnce(old(rules)) && Snat(b.pub, b.priv) !in f.del ==>
        OnlyForeignSays(rules, privateExcludeCidr, Outbound(b.pub, b.priv, privateExcludeCidr))
    {
      hide DnatWords, SnatWords, RuleText;
      TextWithoutOperation("-D", DnatWords(b));
      TextWithoutOperation("-D", SnatWords(b, privateExcludeCidr));
      var _ := Remove(PreroutingDnatArgs(b, false), Dnat(b.pub, b.priv), Dnat(b.pub, b.priv) in f.del);
      var _ := Remove(PostroutingSnatArgs(b, privateExcludeCidr, false), Snat(b.pub, b.priv), Snat(b.pub, b.priv) in f.del);
      if AtMostOnce(old(rules)) {
        DisassociateLeaves(old(rules), b, f);
      }
      TableSays(rules, privateExcludeCidr, b);
    }

    /** Broken when a check could not run; otherwise whether both rules are there. */
    method FloatingNatRulesPresent(b: Binding, f: Faults) returns (exit: Exit)
      requires Valid()
      ensures exit == Broken <==> Dnat(b.pub, b.priv) in f.check || Snat(b.pub, b.priv) in f.check
      ensures exit == Done ==> Dnat(b.pub, b.priv) in rules && Snat(b.pub, b.priv) in rules
      ensures exit == Done ==> Says(table, Inbound(b.pub, b.priv)) && Says(table, Outbound(b.pub, b.priv, privateExcludeCidr))
      ensures exit == NotThere ==> Dnat(b.pub, b.priv) !in rules || Snat(b.pub, b.priv) !in rules
    {
      hide DnatWords, SnatWords, RuleText;
      var prCheck := ArgsWithCheckOp(PreroutingDnatArgs(b, true));
      CheckText(DnatWords(b), prCheck);
      var pr := Check(prCheck, Dnat(b.pub, b.priv), Dnat(b.pub, b.priv) in f.check);
      if pr == Broken {
        return Broken;
      }
      var poCheck := ArgsWithCheckOp(PostroutingSnatArgs(b, privateExcludeCidr, true));
      CheckText(SnatWords(b, privateExcludeCidr), poCheck);
      var po := Check(poCheck, Snat(b.pub, b.priv), Snat(b.pub, b.priv) in f.check);
      if po == Broken {
        return Broken;
      }
      TableSays(rules, privateExcludeCidr, b);
      return if pr == Done && po == Done then Done else NotThere;
    }
  }

  lemma PrintWithout(rules: seq<Rule>, i: nat, exclude: string)
    requires i < |rules|
    ensures Print(rules[..i] + rules[i + 1..], exclude) == Print(rules, exclude)[..i] + Print(rules, exclude)[i + 1..]
    ensures Foreign(rules, exclude) ==> Foreign(rules[..i] + rules[i + 1..], exclude)
  {
  }

  lemma {:induction false} RemoveFirstAt(rules: seq<Rule>, r: Rule, i: nat)
    requires i < |rules| && rules[i] == r && forall j :: 0 <= j < i ==> rules[j] != r
    ensures RemoveFirst(rules, r) == rules[..i] + rules[i + 1..]
  {
    if i == 0 {
      assert rules[..0] + rules[1..] == rules[1..];
    } else {
      RemoveFirstAt(rules[1..], r, i - 1);
      assert rules[..i] == [rules[0]] + rules[1..][..i - 1];
      assert rules[i + 1..] == rules[1..][i..];
    }
  }

  /** The check command for a rule says what the append command says. */
  lemma CheckText(words: seq<string>, check: seq<string>)
    requires var args := TABLE + ["-A"] + words;
      && |check| == |args|
      && (forall i :: 0 <= i < |args| && (exists j :: 0 <= j < i && args[j] in {"-A", "-D"}) ==> check[i] == args[i])
      && (forall i :: 0 <= i < |args| && (forall j :: 0 <= j < i ==> args[j] !in {"-A", "-D"}) ==>
          check[i] == if args[i] in {"-A", "-D"} then "-C" else args[i])
    ensures |check| > 2 && check[2] == "-C" && RuleText(check) == TABLE + words
  {
  }
}
