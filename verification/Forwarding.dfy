/** Where the host sends a packet for a public address once the queue is drained. */
module Forwarding {
  import opened Wrappers
  import opened Addresses
  import opened NatRules
  import opened NatText
  import opened Model
  import opened Control
  import opened System
  import FipRows
  import History
  import Associations
  import opened NatJustified
  import Invariants
  import Requests

  /** The text is of a rule that takes packets for the address as they come in. */
  predicate Takes(text: seq<string>, dst: nat) {
    var r := ReadRule(text);
    r.Some? && r.value.chain == "PREROUTING" && r.value.source.None? && r.value.destination == Some(dst)
  }

  /** The first rule that takes a packet decides where it goes. */
  function Forwarded(table: seq<seq<string>>, dst: nat): Option<nat> {
    if table == [] then None
    else if Takes(table[0], dst) then ReadRule(table[0]).value.toDestination
    else Forwarded(table[1..], dst)
  }

  /** No rule of others takes packets for the address. */
  ghost predicate LeftAlone(rules: seq<Rule>, dst: nat) {
    forall r :: r in rules && r.Other? ==> !Takes(r.args, dst)
  }

  lemma TakesOwn(r: Rule, exclude: string, dst: nat)
    requires !r.Other?
    ensures Takes(Printed(r, exclude), dst) <==> r.Dnat? && r.pub == dst
    ensures r.Dnat? ==> ReadRule(Printed(r, exclude)).Some? && ReadRule(Printed(r, exclude)).value.toDestination == Some(r.priv)
  {
    RuleReads(r, exclude);
    hide ReadRule, Printed;
    assert "PREROUTING"[1] != "POSTROUTING"[1];
  }

  lemma {:induction false} FirstTaker(rules: seq<Rule>, exclude: string, dst: nat, to: Option<Addr>)
    requires LeftAlone(rules, dst)
    requires forall r :: r in rules && r.Dnat? && r.pub == dst ==> Some(r.priv) == to
    requires to.Some? ==> exists r :: r in rules && r.Dnat? && r.pub == dst
    ensures Forwarded(Print(rules, exclude), dst) == if to.Some? then Some(to.value) else None
  {
    if rules != [] {
      var table := Print(rules, exclude);
      assert table[0] == Printed(rules[0], exclude) && table[1..] == Print(rules[1..], exclude);
      if !rules[0].Other? {
        TakesOwn(rules[0], exclude, dst);
      }
      hide ReadRule, Printed, Takes;
      if !(rules[0].Dnat? && rules[0].pub == dst) {
        assert rules[0] in rules;
        FirstTaker(rules[1..], exclude, dst, to);
      }
    }
  }

  /**
   * After a run whose rule commands and disassociation publishes work, with the queue drained: a packet for a public
   * address of the pool goes to the private address of the instance bound to it, and nowhere if none is.
   */
  lemma TrafficFollowsBindings(w: World, steps: seq<Step>, f: Id, exclude: string)
    requires Init(w) && Runs(w, steps) && f in After(w, steps).fips
    requires forall k :: 0 <= k < |steps| ==> NatReliable(steps[k]) && Associations.AssociationsWork(steps[k])
    requires After(w, steps).mq.queue == [] && After(w, steps).mq.inflight.None?
    requires LeftAlone(After(w, steps).rules, After(w, steps).fips[f].pub)
    ensures var w' := After(w, steps); var row := w'.fips[f]; var to := Forwarded(Print(w'.rules, exclude), row.pub);
      if row.status.Active? then
        row.instance.Some? && row.instance.value in w'.instances && w'.instances[row.instance.value].ipv4.Some?
        && to == Some(w'.instances[row.instance.value].ipv4.value)
      else to == None
  {
    var w' := After(w, steps);
    var row := w'.fips[f];
    var to := if row.status.Active? then row.priv else None;
    History.PoolInEveryRun(w, steps, f);
    forall r: Rule | !r.Other? ensures r in w'.rules <==> FipRows.ActivePair(w'.fips, PairOf(r)) {
      Associations.DrainedHostIsExact(w, steps, r);
    }
    PublicsStayDistinct(w, steps);
    hide Runs, After, NatReliable, Associations.AssociationsWork;
    BoundPairs(w'.rules, w'.fips, f);
    FirstTaker(w'.rules, exclude, row.pub, to);
  }

  lemma PublicsStayDistinct(w: World, steps: seq<Step>)
    requires Init(w) && Runs(w, steps)
    ensures FipRows.PublicsDistinct(After(w, steps).fips)
  {
    Invariants.InitIsCore(w);
    Requests.RunKeepsCore(w, steps);
    hide Runs, After;
  }

  /** The incoming rules of a row's public address are those of its binding. */
  lemma BoundPairs(rules: seq<Rule>, fips: map<Id, FloatingIp>, f: Id)
    requires f in fips && FipRows.PublicsDistinct(fips) && (fips[f].status.Active? ==> fips[f].priv.Some?)
    requires forall r: Rule :: !r.Other? ==> (r in rules <==> FipRows.ActivePair(fips, PairOf(r)))
    ensures var to := if fips[f].status.Active? then fips[f].priv else None;
      && (forall r :: r in rules && r.Dnat? && r.pub == fips[f].pub ==> Some(r.priv) == to)
      && (to.Some? ==> exists r :: r in rules && r.Dnat? && r.pub == fips[f].pub)
  {
    if fips[f].status.Active? {
      var r := Dnat(fips[f].pub, fips[f].priv.value);
      assert FipRows.ActivePair(fips, PairOf(r));
      assert r in rules;
    }
  }
}
