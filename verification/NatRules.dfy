/** The host's NAT list: rules of floating IPs among rules of others, and how ingress changes it. */
module NatRules {
  import opened Addresses

  /** A floating IP owns one rule of each of the first two kinds; all other rules belong to someone else. */
  datatype Rule =
    | Dnat(pub: Addr, priv: Addr)
    | Snat(pub: Addr, priv: Addr)
    | Other(args: seq<string>)

  /** A public address with the private address it stands for. */
  datatype Binding = Binding(pub: Addr, priv: Addr)

  function RulesOf(b: Binding): set<Rule> {
    {Dnat(b.pub, b.priv), Snat(b.pub, b.priv)}
  }

  function RulesOfAll(bs: set<Binding>): set<Rule> {
    (set b | b in bs :: Dnat(b.pub, b.priv)) + (set b | b in bs :: Snat(b.pub, b.priv))
  }

  /** Rules on which a check, an append or a delete command fails. */
  datatype Faults = Faults(check: set<Rule>, add: set<Rule>, del: set<Rule>)

  const NO_FAULTS := Faults({}, {}, {})

  function AppendMissing(rules: seq<Rule>, r: Rule): seq<Rule> {
    if r in rules then rules else rules + [r]
  }

  /** The list after the pair is added, and whether every command worked. */
  function Associate(rules: seq<Rule>, b: Binding, f: Faults): (seq<Rule>, bool) {
    var d, s := Dnat(b.pub, b.priv), Snat(b.pub, b.priv);
    if d in f.check || s in f.check then (rules, false)
    else if d !in rules && d in f.add then (rules, false)
    else
      var added := AppendMissing(rules, d);
      if s !in rules && s in f.add then (added, false)
      else (AppendMissing(added, s), true)
  }

  /** Deletes the first copy of a rule, as one delete command does. */
  function RemoveFirst(rules: seq<Rule>, r: Rule): seq<Rule> {
    if rules == [] then []
    else if rules[0] == r then rules[1..]
    else [rules[0]] + RemoveFirst(rules[1..], r)
  }

  function Delete(rules: seq<Rule>, r: Rule, f: Faults): seq<Rule> {
    if r in f.del then rules else RemoveFirst(rules, r)
  }

  /** Delete failures are ignored, so this never fails as a whole. */
  function Disassociate(rules: seq<Rule>, b: Binding, f: Faults): seq<Rule> {
    Delete(Delete(rules, Dnat(b.pub, b.priv), f), Snat(b.pub, b.priv), f)
  }

  /** Deletes the first copy of each rule of a set, in whatever order the commands come. */
  function RemoveEach(rules: seq<Rule>, gone: set<Rule>): seq<Rule> {
    if rules == [] then []
    else if rules[0] in gone then RemoveEach(rules[1..], gone - {rules[0]})
    else [rules[0]] + RemoveEach(rules[1..], gone)
  }

  function Reconcile(rules: seq<Rule>, rows: seq<Binding>, f: Faults): seq<Rule>
    decreases |rows|
  {
    if rows == [] then rules
    else Reconcile(Associate(rules, rows[0], f).0, rows[1..], f)
  }

  // ---- Counting copies -------------------------------------------------------------------------

  function Count(rules: seq<Rule>, r: Rule): nat {
    if rules == [] then 0 else (if rules[0] == r then 1 else 0) + Count(rules[1..], r)
  }

  ghost predicate AtMostOnce(rules: seq<Rule>) {
    forall r: Rule :: !r.Other? ==> Count(rules, r) <= 1
  }

  lemma {:induction false} CountConcat(a: seq<Rule>, b: seq<Rule>, r: Rule)
    ensures Count(a + b, r) == Count(a, r) + Count(b, r)
  {
    if a == [] {
      assert a + b == b;
    } else {
      assert (a + b)[1..] == a[1..] + b;
      CountConcat(a[1..], b, r);
    }
  }

  lemma {:induction false} CountPositive(rules: seq<Rule>, r: Rule)
    ensures r in rules <==> Count(rules, r) > 0
  {
    if rules != [] {
      CountPositive(rules[1..], r);
    }
  }

  lemma CountAppendMissing(rules: seq<Rule>, r: Rule, q: Rule)
    ensures Count(AppendMissing(rules, r), q) == if q == r && r !in rules then 1 else Count(rules, q)
  {
    CountConcat(rules, [r], q);
    CountPositive(rules, r);
    assert [r][1..] == [];
    assert Count([r], q) == if q == r then 1 else 0;
  }

  lemma {:induction false} CountRemoveFirst(rules: seq<Rule>, r: Rule, q: Rule)
    ensures Count(RemoveFirst(rules, r), q) == if q == r && r in rules then Count(rules, q) - 1 else Count(rules, q)
  {
    if rules != [] && rules[0] != r {
      CountRemoveFirst(rules[1..], r, q);
      var t := RemoveFirst(rules[1..], r);
      assert ([rules[0]] + t)[1..] == t;
    }
    CountPositive(rules, r);
  }

  lemma {:induction false} CountRemoveEach(rules: seq<Rule>, gone: set<Rule>, q: Rule)
    ensures Count(RemoveEach(rules, gone), q) == if q in gone && q in rules then Count(rules, q) - 1 else Count(rules, q)
  {
    if rules != [] {
      if rules[0] in gone {
        CountRemoveEach(rules[1..], gone - {rules[0]}, q);
      } else {
        CountRemoveEach(rules[1..], gone, q);
        var t := RemoveEach(rules[1..], gone);
        assert ([rules[0]] + t)[1..] == t;
      }
    }
    CountPositive(rules, q);
  }

  // ---- What the operations keep ------------------------------------------------------------------

  /** Association adds no rule but the pair's own and keeps single copies single. */
  lemma AssociateAddsOwnRules(rules: seq<Rule>, b: Binding, f: Faults)
    ensures var (after, ok) := Associate(rules, b, f);
      && (forall r :: r in after ==> r in rules || r in RulesOf(b))
      && (ok ==> forall r :: r in RulesOf(b) ==> r in after)
      && (AtMostOnce(rules) ==> AtMostOnce(after))
  {
    var d, s := Dnat(b.pub, b.priv), Snat(b.pub, b.priv);
    var after := Associate(rules, b, f).0;
    if AtMostOnce(rules) {
      forall r: Rule | !r.Other? ensures Count(after, r) <= 1 {
        CountAppendMissing(rules, d, r);
        CountAppendMissing(AppendMissing(rules, d), s, r);
      }
    }
  }

  /** Disassociation adds nothing; where deletes work and copies are single, the pair's rules are gone. */
  lemma DisassociateRemovesOwnRules(rules: seq<Rule>, b: Binding, f: Faults)
    ensures var after := Disassociate(rules, b, f);
      && (forall r :: r in after ==> r in rules)
      && (forall r :: r in rules && r !in RulesOf(b) ==> r in after)
      && (AtMostOnce(rules) ==> AtMostOnce(after))
      && (AtMostOnce(rules) && f.del == {} ==> forall r :: r in RulesOf(b) ==> r !in after)
  {
    var d, s := Dnat(b.pub, b.priv), Snat(b.pub, b.priv);
    var mid := Delete(rules, d, f);
    var after := Disassociate(rules, b, f);
    forall r
      ensures Count(after, r) <= Count(rules, r)
      ensures r !in RulesOf(b) ==> Count(after, r) == Count(rules, r)
      ensures f.del == {} && r in RulesOf(b) && Count(rules, r) <= 1 ==> Count(after, r) == 0
    {
      CountRemoveFirst(rules, d, r);
      CountRemoveFirst(mid, s, r);
      CountPositive(rules, r);
      CountPositive(mid, r);
    }
    forall r ensures (r in after <==> Count(after, r) > 0) && (r in rules <==> Count(rules, r) > 0) {
      CountPositive(after, r);
      CountPositive(rules, r);
    }
  }

  /** Of the pair's rules exactly those remain whose delete failed. */
  lemma DisassociateLeaves(rules: seq<Rule>, b: Binding, f: Faults)
    requires AtMostOnce(rules)
    ensures var after := Disassociate(rules, b, f);
      && AtMostOnce(after)
      && (forall r :: r in after <==> r in rules && !(r in RulesOf(b) && r !in f.del))
      && (forall r :: r !in RulesOf(b) ==> Count(after, r) == Count(rules, r))
  {
    var d, s := Dnat(b.pub, b.priv), Snat(b.pub, b.priv);
    var mid := Delete(rules, d, f);
    var after := Disassociate(rules, b, f);
    forall r
      ensures Count(after, r) == if r in RulesOf(b) && r in rules && r !in f.del then Count(rules, r) - 1 else Count(rules, r)
      ensures (r in after <==> Count(after, r) > 0) && (r in rules <==> Count(rules, r) > 0)
    {
      CountRemoveFirst(rules, d, r);
      CountRemoveFirst(mid, s, r);
      CountPositive(rules, r);
      CountPositive(mid, r);
      CountPositive(after, r);
    }
  }

  lemma RemoveEachRemoves(rules: seq<Rule>, gone: set<Rule>)
    ensures var after := RemoveEach(rules, gone);
      && (forall r :: r in after ==> r in rules)
      && (forall r :: r in rules && r !in gone ==> r in after)
      && (AtMostOnce(rules) ==> AtMostOnce(after))
      && (AtMostOnce(rules) ==> forall r: Rule :: r in gone && !r.Other? ==> r !in after)
  {
    var after := RemoveEach(rules, gone);
    forall r
      ensures Count(after, r) == if r in gone && r in rules then Count(rules, r) - 1 else Count(rules, r)
      ensures (r in after <==> Count(after, r) > 0) && (r in rules <==> Count(rules, r) > 0)
    {
      CountRemoveEach(rules, gone, r);
      CountPositive(after, r);
      CountPositive(rules, r);
    }
  }

  /** One more delete command extends the set of rules removed. */
  lemma {:induction false} RemoveFirstAfterRemoveEach(rules: seq<Rule>, gone: set<Rule>, r: Rule)
    requires r !in gone
    ensures RemoveFirst(RemoveEach(rules, gone), r) == RemoveEach(rules, gone + {r})
  {
    if rules != [] {
      var h, t := rules[0], rules[1..];
      if h == r {
        assert RemoveEach(rules, gone) == [h] + RemoveEach(t, gone);
        assert gone + {r} - {h} == gone;
        assert ([h] + RemoveEach(t, gone))[1..] == RemoveEach(t, gone);
      } else if h in gone {
        RemoveFirstAfterRemoveEach(t, gone - {h}, r);
        assert gone + {r} - {h} == (gone - {h}) + {r};
      } else {
        RemoveFirstAfterRemoveEach(t, gone, r);
        assert ([h] + RemoveEach(t, gone))[1..] == RemoveEach(t, gone);
      }
    }
  }

  lemma {:induction false} RemoveEachOfNone(rules: seq<Rule>)
    ensures RemoveEach(rules, {}) == rules
  {
    if rules != [] {
      RemoveEachOfNone(rules[1..]);
    }
  }

  // ---- Association undone and repeated ------------------------------------------------------------

  /** Once the pair is there, associating it again changes nothing. */
  lemma AssociateIsIdempotent(rules: seq<Rule>, b: Binding, f: Faults)
    requires Associate(rules, b, f).1
    ensures Associate(Associate(rules, b, f).0, b, f) == (Associate(rules, b, f).0, true)
  {
  }

  lemma {:induction false} RemoveFirstLength(rules: seq<Rule>, r: Rule)
    ensures |RemoveFirst(rules, r)| == if r in rules then |rules| - 1 else |rules|
    ensures r !in rules ==> RemoveFirst(rules, r) == rules
  {
    if rules != [] {
      assert rules == [rules[0]] + rules[1..];
      if rules[0] != r {
        RemoveFirstLength(rules[1..], r);
      }
    }
  }

  lemma {:induction false} RemoveAppended(rules: seq<Rule>, r: Rule, tail: seq<Rule>)
    requires r !in rules
    ensures RemoveFirst(rules + [r] + tail, r) == rules + tail
  {
    var all := rules + [r] + tail;
    if rules == [] {
      assert all[1..] == tail;
    } else {
      assert all[0] == rules[0] && all[1..] == rules[1..] + [r] + tail;
      RemoveAppended(rules[1..], r, tail);
    }
  }

  /** Disassociation undoes association exactly on the lists that held neither rule of the pair. */
  lemma DisassociateUndoesAssociate(rules: seq<Rule>, b: Binding)
    ensures Disassociate(Associate(rules, b, NO_FAULTS).0, b, NO_FAULTS) == rules
            <==> Dnat(b.pub, b.priv) !in rules && Snat(b.pub, b.priv) !in rules
  {
    var d, s := Dnat(b.pub, b.priv), Snat(b.pub, b.priv);
    var added := Associate(rules, b, NO_FAULTS).0;
    AssociateAddsOwnRules(rules, b, NO_FAULTS);
    if d !in rules && s !in rules {
      assert added == rules + [d] + [s];
      RemoveAppended(rules, d, [s]);
      RemoveAppended(rules, s, []);
      assert rules + [s] + [] == rules + [s];
    } else {
      assert |added| <= |rules| + 1;
      RemoveFirstLength(added, d);
      RemoveFirstKeepsOther(added, d, s);
      RemoveFirstLength(RemoveFirst(added, d), s);
    }
  }

  lemma RemoveFirstKeepsOther(rules: seq<Rule>, r: Rule, q: Rule)
    requires q in rules && q != r
    ensures q in RemoveFirst(rules, r)
  {
  }

  // ---- Reconciliation --------------------------------------------------------------------------------

  /** Reconciling never touches what is there: it appends rules of the listed rows, each once. */
  lemma {:induction false} ReconcileOnlyAppends(rules: seq<Rule>, rows: seq<Binding>, f: Faults)
    ensures var after := Reconcile(rules, rows, f);
      && rules <= after
      && (forall i :: |rules| <= i < |after| ==> exists k :: 0 <= k < |rows| && after[i] in RulesOf(rows[k]))
      && (AtMostOnce(rules) ==> AtMostOnce(after))
    decreases |rows|
  {
    if rows != [] {
      var mid := Associate(rules, rows[0], f).0;
      var after := Reconcile(rules, rows, f);
      AssociateAddsOwnRules(rules, rows[0], f);
      assert rules <= mid && forall i :: |rules| <= i < |mid| ==> mid[i] in RulesOf(rows[0]);
      ReconcileOnlyAppends(mid, rows[1..], f);
      forall i | |rules| <= i < |after| ensures exists k :: 0 <= k < |rows| && after[i] in RulesOf(rows[k]) {
        if i < |mid| {
          assert after[i] == mid[i];
        } else {
          var k :| 0 <= k < |rows[1..]| && after[i] in RulesOf(rows[1..][k]);
          assert rows[1..][k] == rows[k + 1];
        }
      }
    }
  }

  /** A rule that was there before is not appended again. */
  lemma {:induction false} ReconcileCounts(rules: seq<Rule>, rows: seq<Binding>, f: Faults, r: Rule)
    ensures Count(rules, r) > 0 ==> Count(Reconcile(rules, rows, f), r) == Count(rules, r)
    ensures Count(Reconcile(rules, rows, f), r) >= Count(rules, r)
    decreases |rows|
  {
    if rows != [] {
      var d, s := Dnat(rows[0].pub, rows[0].priv), Snat(rows[0].pub, rows[0].priv);
      CountAppendMissing(rules, d, r);
      CountAppendMissing(AppendMissing(rules, d), s, r);
      CountPositive(rules, r);
      CountPositive(AppendMissing(rules, d), r);
      ReconcileCounts(Associate(rules, rows[0], f).0, rows[1..], f, r);
    }
  }

  /** A row whose own commands work gets its rules, whatever fails for the rows before and after it. */
  lemma {:induction false} ReconcileGoesOn(rules: seq<Rule>, rows: seq<Binding>, k: nat, f: Faults, r: Rule)
    requires k < |rows| && r in RulesOf(rows[k]) && RulesOf(rows[k]) !! f.check && RulesOf(rows[k]) !! f.add
    ensures r in Reconcile(rules, rows, f)
    decreases |rows|
  {
    var mid := Associate(rules, rows[0], f).0;
    if k == 0 {
      AssociateAddsOwnRules(rules, rows[0], f);
      ReconcileOnlyAppends(mid, rows[1..], f);
    } else {
      ReconcileGoesOn(mid, rows[1..], k - 1, f, r);
    }
  }

  /** When every command works, afterwards each listed row has both its rules exactly once. */
  lemma {:induction false} ReconcileRestores(rules: seq<Rule>, rows: seq<Binding>, k: nat, r: Rule)
    requires AtMostOnce(rules) && k < |rows| && r in RulesOf(rows[k])
    ensures Count(Reconcile(rules, rows, NO_FAULTS), r) == 1
    decreases |rows|
  {
    var mid := Associate(rules, rows[0], NO_FAULTS).0;
    AssociateAddsOwnRules(rules, rows[0], NO_FAULTS);
    if k == 0 {
      CountPositive(mid, r);
      ReconcileCounts(mid, rows[1..], NO_FAULTS, r);
    } else {
      ReconcileRestores(mid, rows[1..], k - 1, r);
    }
  }
}
