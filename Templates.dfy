/**
 * The static capability configuration (src/safe_boundary/templates.py) and
 * the per-goal memo of the solver, `t_max`.
 */
module Templates {
  import opened Models
  import opened TemplateSearch

  /** The full capability set `C_ALL`, in its declared order. */
  const CAll: seq<Capability> := [
    "exec:test", "read:repo", "write:src", "exec:lint", "exec:format",
    "exec:build", "network:egress", "exec:deploy", "write:secrets", "exec:arbitrary"
  ]

  /** `HARD_BAN`: never part of any template. */
  const HardBan: set<Capability> := {"exec:deploy", "write:secrets", "exec:arbitrary"}

  const FixFailingTest: string := "fix_failing_test"

  const RiskBudgetByGoal: map<string, int> := map[FixFailingTest := 7]

  /** The `(risk, utility)` table of `fix_failing_test`. */
  const FixAttrs: map<Capability, CapAttr> := map[
    "exec:test" := CapAttr(1, 10),
    "read:repo" := CapAttr(1, 8),
    "write:src" := CapAttr(2, 8),
    "exec:lint" := CapAttr(1, 4),
    "exec:format" := CapAttr(1, 3),
    "exec:build" := CapAttr(2, 5),
    "network:egress" := CapAttr(3, 2)
  ]

  const AttrsByGoal: map<string, map<Capability, CapAttr>> := map[FixFailingTest := FixAttrs]

  lemma NoDupsCAll()
    ensures NoDups(CAll)
  {
  }

  /** The static tables satisfy what the solver needs, for every goal. */
  lemma ConfigValid(goal: string)
    ensures ValidConfig(goal, CAll, AttrsByGoal, RiskBudgetByGoal, HardBan)
  {
  }

  /** `t_max(goal)` as a value: the solver over the static tables. */
  function TMaxSpec(goal: string): seq<Capability> {
    ConfigValid(goal);
    SolveTmax(goal, CAll, AttrsByGoal, RiskBudgetByGoal, HardBan)
  }

  /** `t_max` never returns `exec:deploy`, `write:secrets` or `exec:arbitrary`, and never repeats a capability. */
  lemma TMaxNoHardBan(goal: string)
    ensures "exec:deploy" !in TMaxSpec(goal)
    ensures "write:secrets" !in TMaxSpec(goal)
    ensures "exec:arbitrary" !in TMaxSpec(goal)
    ensures forall x :: x in TMaxSpec(goal) ==> x in CAll
    ensures NoDups(TMaxSpec(goal))
  {
    ConfigValid(goal);
    NoDupsCAll();
    SolveTmaxNoHardBan(goal, CAll, AttrsByGoal, RiskBudgetByGoal, HardBan);
  }

  /** `t_max(goal)` fits the goal's budget and no ban-free selection from `C_ALL` within it beats it. */
  lemma TMaxOptimal(goal: string)
    ensures RiskOf(AttrsFor(goal, AttrsByGoal), TMaxSpec(goal)) <= BudgetFor(goal, RiskBudgetByGoal)
    ensures forall s :: (IsSubseq(s, CAll) && (forall x :: x in s ==> x !in HardBan) &&
                         RiskOf(AttrsFor(goal, AttrsByGoal), s) <= BudgetFor(goal, RiskBudgetByGoal)) ==>
      !Better(Stats(AttrsFor(goal, AttrsByGoal), s), Stats(AttrsFor(goal, AttrsByGoal), TMaxSpec(goal)))
  {
    ConfigValid(goal);
    NoDupsCAll();
    SolveTmaxOptimal(goal, CAll, AttrsByGoal, RiskBudgetByGoal, HardBan);
  }

  // ---------------------------------------------------------------------
  // The answer for `fix_failing_test`, one DP table per item.
  // ---------------------------------------------------------------------

  const FixItems: seq<Item> := [
    Item("exec:test", 1, 10), Item("read:repo", 1, 8), Item("write:src", 2, 8), Item("exec:lint", 1, 4),
    Item("exec:format", 1, 3), Item("exec:build", 2, 5), Item("network:egress", 3, 2)
  ]

  /** The first loop over a prefix of unbanned capabilities keeps every one of them. */
  lemma {:induction false} ItemsUpTo(c: seq<Capability>, k: nat, attrs: map<Capability, CapAttr>, ban: set<Capability>,
                                     items: seq<Item>)
    requires k <= |items| <= |c|
    requires forall i :: 0 <= i < |items| ==>
      c[i] !in ban && items[i] == Item(c[i], AttrOf(attrs, c[i]).risk, AttrOf(attrs, c[i]).utility)
    ensures ItemsOf(c[..k], attrs, ban) == items[..k]
    decreases k
  {
    if k == 0 {
      assert c[..0] == [];
    } else {
      ItemsUpTo(c, k - 1, attrs, ban, items);
      ItemsOfPrefix(c, k - 1, attrs, ban);
      assert items[..k] == items[..k - 1] + [items[k - 1]];
    }
  }

  /** Banned capabilities at the end of `C` add no items. */
  lemma {:induction false} ItemsBannedTail(c: seq<Capability>, k: nat, attrs: map<Capability, CapAttr>, ban: set<Capability>)
    requires k <= |c|
    requires forall i :: k <= i < |c| ==> c[i] in ban
    ensures ItemsOf(c, attrs, ban) == ItemsOf(c[..k], attrs, ban)
    decreases |c|
  {
    if |c| == k {
      assert c[..k] == c;
    } else {
      var init := c[..|c| - 1];
      ItemsBannedTail(init, k, attrs, ban);
      assert init[..k] == c[..k];
    }
  }

  /** The first loop over `C_ALL`: the seven unbanned capabilities, each with its attributes. */
  lemma ItemsOfCAll(attrs: map<Capability, CapAttr>, items: seq<Item>)
    requires |items| == 7
    requires forall i :: 0 <= i < 7 ==> items[i] == Item(CAll[i], AttrOf(attrs, CAll[i]).risk, AttrOf(attrs, CAll[i]).utility)
    ensures ItemsOf(CAll, attrs, HardBan) == items
  {
    ItemsUpTo(CAll, 7, attrs, HardBan, items);
    assert items[..7] == items;
    ItemsBannedTail(CAll, 7, attrs, HardBan);
  }

  /** The first loop keeps the seven unbanned capabilities with their table attributes. */
  lemma FixItemsAreItems()
    ensures ItemsOf(CAll, FixAttrs, HardBan) == FixItems
  {
    ItemsOfCAll(FixAttrs, FixItems);
  }

  const Z: Entry := Entry(0, 0, [])
  const T1: Entry := Entry(1, 10, ["exec:test"])
  const TR: Entry := Entry(2, 18, ["exec:test", "read:repo"])
  const TRW: Entry := Entry(3, 26, ["exec:test", "read:repo", "write:src"])
  const TRL: Entry := Entry(3, 22, ["exec:test", "read:repo", "exec:lint"])
  const TRWL: Entry := Entry(4, 30, ["exec:test", "read:repo", "write:src", "exec:lint"])
  const TRLF: Entry := Entry(4, 25, ["exec:test", "read:repo", "exec:lint", "exec:format"])
  const TRWLF: Entry := Entry(5, 33, ["exec:test", "read:repo", "write:src", "exec:lint", "exec:format"])
  const TRWLB: Entry := Entry(5, 35, ["exec:test", "read:repo", "write:src", "exec:lint", "exec:build"])

  const Fix0: seq<Entry> := [Z, Z, Z, Z, Z, Z, Z, Z]
  const Fix1: seq<Entry> := [Z, T1, T1, T1, T1, T1, T1, T1]
  const Fix2: seq<Entry> := [Z, T1, TR, TR, TR, TR, TR, TR]
  const Fix3: seq<Entry> := [Z, T1, TR, TR, TRW, TRW, TRW, TRW]
  const Fix4: seq<Entry> := [Z, T1, TR, TRL, TRW, TRWL, TRWL, TRWL]
  const Fix5: seq<Entry> := [Z, T1, TR, TRL, TRLF, TRWL, TRWLF, TRWLF]
  const Fix6: seq<Entry> := [Z, T1, TR, TRL, TRLF, TRWL, TRWLF, TRWLB]

  lemma FixStep0()
    ensures Step(InitDp(7), FixItems[0]) == Fix1
  {
    forall b | 0 <= b < 8
      ensures Relax(InitDp(7), FixItems[0], b) == Fix1[b]
    {
      if b == 0 { }
      else if b == 1 { }
      else if b == 2 { }
      else if b == 3 { }
      else if b == 4 { }
      else if b == 5 { }
      else if b == 6 { }
      else { }
    }
    StepPointwise(InitDp(7), FixItems[0], Fix1);
  }

  lemma FixStep1()
    ensures Step(Fix1, FixItems[1]) == Fix2
  {
    forall b | 0 <= b < 8
      ensures Relax(Fix1, FixItems[1], b) == Fix2[b]
    {
      if b == 0 { }
      else if b == 1 { }
      else if b == 2 { }
      else if b == 3 { }
      else if b == 4 { }
      else if b == 5 { }
      else if b == 6 { }
      else { }
    }
    StepPointwise(Fix1, FixItems[1], Fix2);
  }

  lemma FixStep2()
    ensures Step(Fix2, FixItems[2]) == Fix3
  {
    forall b | 0 <= b < 8
      ensures Relax(Fix2, FixItems[2], b) == Fix3[b]
    {
      if b == 0 { }
      else if b == 1 { }
      else if b == 2 { }
      else if b == 3 { }
      else if b == 4 { }
      else if b == 5 { }
      else if b == 6 { }
      else { }
    }
    StepPointwise(Fix2, FixItems[2], Fix3);
  }

  lemma FixStep3()
    ensures Step(Fix3, FixItems[3]) == Fix4
  {
    forall b | 0 <= b < 8
      ensures Relax(Fix3, FixItems[3], b) == Fix4[b]
    {
      if b == 0 { }
      else if b == 1 { }
      else if b == 2 { }
      else if b == 3 { }
      else if b == 4 { }
      else if b == 5 { }
      else if b == 6 { }
      else { }
    }
    StepPointwise(Fix3, FixItems[3], Fix4);
  }

  lemma FixStep4()
    ensures Step(Fix4, FixItems[4]) == Fix5
  {
    forall b | 0 <= b < 8
      ensures Relax(Fix4, FixItems[4], b) == Fix5[b]
    {
      if b == 0 { }
      else if b == 1 { }
      else if b == 2 { }
      else if b == 3 { }
      else if b == 4 { }
      else if b == 5 { }
      else if b == 6 { }
      else { }
    }
    StepPointwise(Fix4, FixItems[4], Fix5);
  }

  lemma FixStep5()
    ensures Step(Fix5, FixItems[5]) == Fix6
  {
    forall b | 0 <= b < 8
      ensures Relax(Fix5, FixItems[5], b) == Fix6[b]
    {
      if b == 0 { }
      else if b == 1 { }
      else if b == 2 { }
      else if b == 3 { }
      else if b == 4 { }
      else if b == 5 { }
      else if b == 6 { }
      else { }
    }
    StepPointwise(Fix5, FixItems[5], Fix6);
  }

  lemma FixStep6()
    ensures Step(Fix6, FixItems[6]) == Fix6
  {
    forall b | 0 <= b < 8
      ensures Relax(Fix6, FixItems[6], b) == Fix6[b]
    {
      if b == 0 { }
      else if b == 1 { }
      else if b == 2 { }
      else if b == 3 { }
      else if b == 4 { }
      else if b == 5 { }
      else if b == 6 { }
      else { }
    }
    StepPointwise(Fix6, FixItems[6], Fix6);
  }

  /** The table after each item; the last item (`network:egress`) changes nothing. */
  lemma FixTables()
    ensures DpAfter(FixItems, 7) == Fix6
  {
    assert FixItems[..0] == [];
    DpAfterPrefix(FixItems, 0, 7);
    FixStep0();
    DpAfterPrefix(FixItems, 1, 7);
    FixStep1();
    DpAfterPrefix(FixItems, 2, 7);
    FixStep2();
    DpAfterPrefix(FixItems, 3, 7);
    FixStep3();
    DpAfterPrefix(FixItems, 4, 7);
    FixStep4();
    DpAfterPrefix(FixItems, 5, 7);
    FixStep5();
    DpAfterPrefix(FixItems, 6, 7);
    FixStep6();
    assert FixItems[..7] == FixItems;
  }

  /** `t_max("fix_failing_test")` is test, repo, src, lint and build: count 5, utility 35, within the budget 7. */
  lemma TMaxFixFailingTest()
    ensures TMaxSpec(FixFailingTest) == ["exec:test", "read:repo", "write:src", "exec:lint", "exec:build"]
    ensures |TMaxSpec(FixFailingTest)| == 5
    ensures UtilOf(FixAttrs, TMaxSpec(FixFailingTest)) == 35
    ensures RiskOf(FixAttrs, TMaxSpec(FixFailingTest)) <= 7
  {
    assert TMaxSpec(FixFailingTest) == Choose(CAll, ItemsOf(CAll, FixAttrs, HardBan), 7);
    FixItemsAreItems();
    FixTables();
    FixBest();
    FixInOrder();
    FixSums();
  }

  /** The best cell is sound (the DP invariant), so its list has utility 35 and risk within 7. */
  lemma FixSums()
    ensures UtilOf(FixAttrs, TRWLB.chosen) == 35 && RiskOf(FixAttrs, TRWLB.chosen) <= 7
  {
    assert ItemsAgree(FixItems, FixAttrs);
    DpCorrect(FixAttrs, FixItems, 7);
    FixTables();
    assert Fix6[7] == TRWLB;
  }


  lemma FixBest()
    ensures BestIndex(Fix6, 8) == 7
  {
    var k := BestIndex(Fix6, 8);
    assert forall j :: 0 <= j < 7 ==> Better(Fix6[7], Fix6[j]);
  }

  lemma FixInOrder()
    ensures InOrder(CAll, Elements(TRWLB.chosen)) == TRWLB.chosen
  {
    NoDupsCAll();
    FixSubseq(CAll, TRWLB.chosen);
    InOrderOfSubseq(CAll, TRWLB.chosen);
  }

  /** A list of five taken from positions 0 to 3 and 5 of a list of ten is a subsequence of it. */
  lemma FixSubseq(c: seq<Capability>, w: seq<Capability>)
    requires |c| == 10 && |w| == 5
    requires w[0] == c[0] && w[1] == c[1] && w[2] == c[2] && w[3] == c[3] && w[4] == c[5]
    ensures IsSubseq(w, c)
  {
    assert w[..0] == [] && IsSubseq(w[..0], c[..0]);
    SubseqTake(w, c, 0, 0);
    SubseqTake(w, c, 1, 1);
    SubseqTake(w, c, 2, 2);
    SubseqTake(w, c, 3, 3);
    SubseqSkip(w, c, 4, 4);
    SubseqTake(w, c, 4, 5);
    SubseqSkip(w, c, 5, 6);
    SubseqSkip(w, c, 5, 7);
    SubseqSkip(w, c, 5, 8);
    SubseqSkip(w, c, 5, 9);
    assert w[..5] == w && c[..10] == c;
  }

  // ---------------------------------------------------------------------
  // A goal missing from the tables: budget 3, every capability risk 2.
  // ---------------------------------------------------------------------

  const UnconfiguredItems: seq<Item> := [Item("exec:test", 2, 0), Item("read:repo", 2, 0), Item("write:src", 2, 0), Item("exec:lint", 2, 0), Item("exec:format", 2, 0), Item("exec:build", 2, 0), Item("network:egress", 2, 0)]

  const TestOnly: Entry := Entry(1, 0, ["exec:test"])
  const Unconfigured1: seq<Entry> := [Z, Z, TestOnly, TestOnly]

  lemma UnconfiguredItemsAreItems()
    ensures ItemsOf(CAll, map[], HardBan) == UnconfiguredItems
  {
    ItemsOfCAll(map[], UnconfiguredItems);
  }

  lemma UnconfiguredStep0()
    ensures Step(InitDp(3), Item("exec:test", 2, 0)) == Unconfigured1
  {
    forall b | 0 <= b < 4
      ensures Relax(InitDp(3), Item("exec:test", 2, 0), b) == Unconfigured1[b]
    {
      if b == 0 { } else if b == 1 { } else if b == 2 { } else { }
    }
    StepPointwise(InitDp(3), Item("exec:test", 2, 0), Unconfigured1);
  }

  /** Once `exec:test` holds levels 2 and 3, another risk-2 utility-0 item ties and changes nothing. */
  lemma UnconfiguredStepStable(cap: Capability)
    ensures Step(Unconfigured1, Item(cap, 2, 0)) == Unconfigured1
  {
    forall b | 0 <= b < 4
      ensures Relax(Unconfigured1, Item(cap, 2, 0), b) == Unconfigured1[b]
    {
      if b == 0 { } else if b == 1 { } else if b == 2 { } else { }
    }
    StepPointwise(Unconfigured1, Item(cap, 2, 0), Unconfigured1);
  }

  /** For any goal other than `fix_failing_test`, `t_max` is the single first capability `exec:test`. */
  lemma TMaxUnconfigured(goal: string)
    requires goal != FixFailingTest
    ensures TMaxSpec(goal) == ["exec:test"]
    ensures |TMaxSpec(goal)| <= 1
  {
    UnconfiguredConfig(goal);
    var items := ItemsOf(CAll, map[], HardBan);
    UnconfiguredItemsAreItems();
    UnconfiguredTables();
    UnconfiguredBest();
    assert BestEntry(items, 3) == TestOnly;
    UnconfiguredInOrder();
  }

  /** A goal missing from the tables gets no attributes and the default budget 3. */
  lemma UnconfiguredConfig(goal: string)
    requires goal != FixFailingTest
    ensures TMaxSpec(goal) == Choose(CAll, ItemsOf(CAll, map[], HardBan), 3)
  {
    assert goal !in AttrsByGoal && goal !in RiskBudgetByGoal;
  }

  lemma UnconfiguredInOrder()
    ensures InOrder(CAll, Elements(TestOnly.chosen)) == TestOnly.chosen
  {
    UnconfiguredInOrderUpTo(CAll, 10);
    assert CAll[..10] == CAll;
    assert Elements(TestOnly.chosen) == {"exec:test"};
  }

  function UnconfiguredInOrderPrefix(k: nat): seq<Capability> {
    if k == 0 then [] else TestOnly.chosen
  }


  lemma {:induction false} UnconfiguredInOrderUpTo(c: seq<Capability>, k: nat)
    requires c == CAll && k <= 10
    ensures InOrder(c[..k], {"exec:test"}) == UnconfiguredInOrderPrefix(k)
    decreases k
  {
    if k > 0 {
      UnconfiguredInOrderUpTo(c, k - 1);
      InOrderPrefix(c, k - 1, {"exec:test"});
    }
  }



  /** `exec:test` first, then only risk-2 utility-0 items: every prefix leaves the same table. */
  lemma {:induction false} UnconfiguredTablesUpTo(items: seq<Item>, k: nat)
    requires 1 <= k <= |items|
    requires items[0] == Item("exec:test", 2, 0)
    requires forall i :: 1 <= i < |items| ==> items[i].risk == 2 && items[i].utility == 0
    ensures DpAfter(items[..k], 3) == Unconfigured1
    decreases k
  {
    if k == 1 {
      assert items[..0] == [];
      DpAfterPrefix(items, 0, 3);
      UnconfiguredStep0();
    } else {
      UnconfiguredTablesUpTo(items, k - 1);
      DpAfterPrefix(items, k - 1, 3);
      assert items[k - 1] == Item(items[k - 1].cap, 2, 0);
      UnconfiguredStepStable(items[k - 1].cap);
    }
  }

  lemma UnconfiguredTables()
    ensures DpAfter(UnconfiguredItems, 3) == Unconfigured1
  {
    UnconfiguredTablesUpTo(UnconfiguredItems, 7);
    assert UnconfiguredItems[..7] == UnconfiguredItems;
  }

  lemma UnconfiguredBest()
    ensures BestIndex(Unconfigured1, 4) == 2
  {
    var k := BestIndex(Unconfigured1, 4);
    assert Better(Unconfigured1[2], Unconfigured1[0]) && Better(Unconfigured1[2], Unconfigured1[1]);
    assert !Better(Unconfigured1[3], Unconfigured1[2]);
  }

  /**
   * The cache `_TMAX_CACHE`: every stored list is the solver's answer for its
   * goal. Python lists are copied in and out; here lists are values, so a
   * caller can never alter a stored entry.
   */
  class TemplateCache {
    var cache: map<string, seq<Capability>>

    ghost predicate Valid()
      reads this
    {
      forall g :: g in cache ==> cache[g] == TMaxSpec(g)
    }

    constructor()
      ensures Valid() && cache == map[]
    {
      cache := map[];
    }

    /** `t_max(goal)`: the stored answer when present, else solve and store. */
    method TMax(goal: string) returns (r: seq<Capability>)
      requires Valid()
      modifies this
      ensures Valid()
      ensures r == TMaxSpec(goal)
      ensures cache == old(cache)[goal := r]
    {
      if goal in cache {
        r := cache[goal];
      } else {
        ConfigValid(goal);
        r := SolveTmaxKnapsack(goal, CAll, AttrsByGoal, RiskBudgetByGoal, HardBan);
        cache := cache[goal := r];
      }
    }
  }
}
