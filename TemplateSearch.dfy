/**
 * The capability-template solver (src/safe_boundary/template_search.py):
 * a 0/1 knapsack over capabilities that maximises, lexicographically, the
 * number of capabilities and then their utility sum, subject to the goal's
 * risk budget, after hard-banned capabilities are filtered out.
 *
 * `SolveTmaxKnapsack` is the in-place DP over an array, proved equal to the
 * functional DP `DpAfter`; feasibility, optimality and the tie-break are
 * proved about the functional DP.
 */
module TemplateSearch {
  import opened Models

  datatype CapAttr = CapAttr(risk: int, utility: int)

  /** A DP cell `(count, utility_sum, chosen_caps)`. */
  datatype Entry = Entry(count: int, utility: int, chosen: seq<Capability>)

  /** A search item `(cap, risk, utility)`. */
  datatype Item = Item(cap: Capability, risk: int, utility: int)

  /** The attributes of a capability missing from the goal's table. */
  const DefaultAttr: CapAttr := CapAttr(2, 0)

  /** `_better(a, b)`: strictly more capabilities, or as many with strictly more utility. */
  predicate Better(a: Entry, b: Entry) {
    a.count > b.count || (a.count == b.count && a.utility > b.utility)
  }

  /** `_better` is a strict order whose incomparable pairs are exactly the equal (count, utility) keys. */
  lemma BetterIsStrictLexOrder(a: Entry, b: Entry, c: Entry)
    ensures !Better(a, a)
    ensures Better(a, b) ==> !Better(b, a)
    ensures Better(a, b) && Better(b, c) ==> Better(a, c)
    ensures !Better(a, b) && !Better(b, a) <==> a.count == b.count && a.utility == b.utility
  {
  }

  function BudgetFor(goal: string, riskBudgetByGoal: map<string, int>): int {
    if goal in riskBudgetByGoal then riskBudgetByGoal[goal] else 3
  }

  function AttrsFor(goal: string, attrsByGoal: map<string, map<Capability, CapAttr>>): map<Capability, CapAttr> {
    if goal in attrsByGoal then attrsByGoal[goal] else map[]
  }

  function AttrOf(attrs: map<Capability, CapAttr>, cap: Capability): (a: CapAttr)
    ensures cap !in attrs ==> a == CapAttr(2, 0)
  {
    if cap in attrs then attrs[cap] else DefaultAttr
  }

  /** The items the first loop builds: every capability of `c` outside `ban`, in order. */
  function ItemsOf(c: seq<Capability>, attrs: map<Capability, CapAttr>, ban: set<Capability>): (items: seq<Item>)
    ensures |items| <= |c|
    ensures forall i :: 0 <= i < |items| ==>
      items[i].cap in c && items[i].cap !in ban &&
      items[i].risk == AttrOf(attrs, items[i].cap).risk && items[i].utility == AttrOf(attrs, items[i].cap).utility
  {
    if |c| == 0 then []
    else
      var cap := c[|c| - 1];
      ItemsOf(c[..|c| - 1], attrs, ban) +
        (if cap in ban then [] else [Item(cap, AttrOf(attrs, cap).risk, AttrOf(attrs, cap).utility)])
  }

  function Caps(items: seq<Item>): (r: seq<Capability>)
    ensures |r| == |items| && forall i :: 0 <= i < |items| ==> r[i] == items[i].cap
  {
    seq(|items|, i requires 0 <= i < |items| => items[i].cap)
  }

  /**
   * The configuration demands the solver survives: a negative budget leaves `dp`
   * empty (and `max` fails), a negative risk indexes past the end of `dp`.
   */
  predicate ValidConfig(goal: string, c: seq<Capability>, attrsByGoal: map<string, map<Capability, CapAttr>>,
                        riskBudgetByGoal: map<string, int>, ban: set<Capability>)
  {
    BudgetFor(goal, riskBudgetByGoal) >= 0 &&
    forall i :: 0 <= i < |c| && c[i] !in ban ==> AttrOf(AttrsFor(goal, attrsByGoal), c[i]).risk >= 0
  }

  // ---------------------------------------------------------------------
  // The DP as functions: one item relaxes every budget level.
  // ---------------------------------------------------------------------

  function InitDp(budget: nat): (dp: seq<Entry>)
    ensures |dp| == budget + 1 && forall b :: 0 <= b <= budget ==> dp[b] == Entry(0, 0, [])
  {
    seq(budget + 1, _ => Entry(0, 0, []))
  }

  /** Budget level `b` after item `it`: take `dp[b - risk] + it` when that is strictly better. */
  function Relax(dp: seq<Entry>, it: Item, b: int): Entry
    requires 0 <= b < |dp|
  {
    var nb := b - it.risk;
    if nb < 0 || nb >= |dp| then dp[b]
    else
      var cand := Entry(dp[nb].count + 1, dp[nb].utility + it.utility, dp[nb].chosen + [it.cap]);
      if Better(cand, dp[b]) then cand else dp[b]
  }

  function Step(dp: seq<Entry>, it: Item): (r: seq<Entry>)
    ensures |r| == |dp| && forall b :: 0 <= b < |dp| ==> r[b] == Relax(dp, it, b)
  {
    seq(|dp|, b requires 0 <= b < |dp| => Relax(dp, it, b))
  }

  /** The DP table after all of `items` has been processed. */
  function DpAfter(items: seq<Item>, budget: nat): (dp: seq<Entry>)
    ensures |dp| == budget + 1
    decreases |items|
  {
    if |items| == 0 then InitDp(budget)
    else Step(DpAfter(items[..|items| - 1], budget), items[|items| - 1])
  }

  /** One more capability of `C` is at most one more item. */
  lemma ItemsOfPrefix(c: seq<Capability>, k: nat, attrs: map<Capability, CapAttr>, ban: set<Capability>)
    requires k < |c|
    ensures ItemsOf(c[..k + 1], attrs, ban) ==
      ItemsOf(c[..k], attrs, ban) + (if c[k] in ban then [] else [Item(c[k], AttrOf(attrs, c[k]).risk, AttrOf(attrs, c[k]).utility)])
  {
    assert c[..k + 1][..k] == c[..k];
  }

  /** Two tables agree once every level agrees. */
  lemma StepPointwise(dp: seq<Entry>, it: Item, want: seq<Entry>)
    requires |want| == |dp|
    requires forall b :: 0 <= b < |dp| ==> Relax(dp, it, b) == want[b]
    ensures Step(dp, it) == want
  {
  }

  lemma InOrderPrefix(c: seq<Capability>, k: nat, chosen: set<Capability>)
    requires k < |c|
    ensures InOrder(c[..k + 1], chosen) == InOrder(c[..k], chosen) + (if c[k] in chosen then [c[k]] else [])
  {
    assert c[..k + 1][..k] == c[..k];
  }

  lemma SumsSnoc(attrs: map<Capability, CapAttr>, s: seq<Capability>, x: Capability)
    ensures RiskOf(attrs, s + [x]) == RiskOf(attrs, s) + AttrOf(attrs, x).risk
    ensures UtilOf(attrs, s + [x]) == UtilOf(attrs, s) + AttrOf(attrs, x).utility
  {
    assert (s + [x])[..|s|] == s;
  }

  /** One more item is one more `Step` of the table. */
  lemma DpAfterPrefix(items: seq<Item>, k: nat, budget: nat)
    requires k < |items|
    ensures DpAfter(items[..k + 1], budget) == Step(DpAfter(items[..k], budget), items[k])
  {
    assert items[..k + 1][..k] == items[..k];
  }

  /** `max(dp, key=(count, utility))`: the first maximal entry. */
  function BestIndex(dp: seq<Entry>, n: nat): (k: nat)
    requires 0 < n <= |dp|
    ensures k < n
    ensures forall j :: 0 <= j < n ==> !Better(dp[j], dp[k])
    ensures forall j :: 0 <= j < k ==> Better(dp[k], dp[j])
  {
    if n == 1 then 0
    else
      var k := BestIndex(dp, n - 1);
      if Better(dp[n - 1], dp[k]) then n - 1 else k
  }

  /** `[cap for cap in C if cap in chosen_set]`. */
  function InOrder(c: seq<Capability>, chosen: set<Capability>): seq<Capability> {
    if |c| == 0 then []
    else InOrder(c[..|c| - 1], chosen) + (if c[|c| - 1] in chosen then [c[|c| - 1]] else [])
  }

  function Elements(s: seq<Capability>): set<Capability> {
    set x | x in s
  }

  /** The best DP cell once every admissible item is processed under `budget`. */
  function BestEntry(items: seq<Item>, budget: nat): Entry {
    var dp := DpAfter(items, budget);
    dp[BestIndex(dp, |dp|)]
  }

  /** What `solve_tmax_knapsack` returns for a given item list and budget. */
  function Choose(c: seq<Capability>, items: seq<Item>, budget: nat): seq<Capability> {
    InOrder(c, Elements(BestEntry(items, budget).chosen))
  }

  function SolveTmax(goal: string, c: seq<Capability>, attrsByGoal: map<string, map<Capability, CapAttr>>,
                     riskBudgetByGoal: map<string, int>, ban: set<Capability>): seq<Capability>
    requires ValidConfig(goal, c, attrsByGoal, riskBudgetByGoal, ban)
  {
    Choose(c, ItemsOf(c, AttrsFor(goal, attrsByGoal), ban), BudgetFor(goal, riskBudgetByGoal))
  }

  // ---------------------------------------------------------------------
  // What the DP computes: sums, subsequences and optimality.
  // ---------------------------------------------------------------------

  /** Total risk of a capability list under `attrs` (unlisted capabilities risk 2). */
  function RiskOf(attrs: map<Capability, CapAttr>, s: seq<Capability>): int {
    if |s| == 0 then 0 else RiskOf(attrs, s[..|s| - 1]) + AttrOf(attrs, s[|s| - 1]).risk
  }

  /** Total utility of a capability list under `attrs` (unlisted capabilities are worth 0). */
  function UtilOf(attrs: map<Capability, CapAttr>, s: seq<Capability>): int {
    if |s| == 0 then 0 else UtilOf(attrs, s[..|s| - 1]) + AttrOf(attrs, s[|s| - 1]).utility
  }

  /** The DP cell a list of capabilities would occupy: `(len, utility_sum, list)`. */
  function Stats(attrs: map<Capability, CapAttr>, s: seq<Capability>): Entry {
    Entry(|s|, UtilOf(attrs, s), s)
  }

  /** `s` is a subsequence of `t` (matched greedily from the end). */
  predicate IsSubseq(s: seq<Capability>, t: seq<Capability>)
    decreases |t|
  {
    if |s| == 0 then true
    else if |t| == 0 then false
    else if s[|s| - 1] == t[|t| - 1] then IsSubseq(s[..|s| - 1], t[..|t| - 1])
    else IsSubseq(s, t[..|t| - 1])
  }

  predicate NoDups(s: seq<Capability>) {
    forall i, j :: 0 <= i < j < |s| ==> s[i] != s[j]
  }

  /** The capabilities of `c` that survive the hard ban, in order. */
  function Kept(c: seq<Capability>, ban: set<Capability>): seq<Capability> {
    if |c| == 0 then []
    else Kept(c[..|c| - 1], ban) + (if c[|c| - 1] in ban then [] else [c[|c| - 1]])
  }

  /** A DP cell is sound for items `t` and budget `b`: its count and utility describe its list, which is drawn from `t` within `b`. */
  predicate Sound(attrs: map<Capability, CapAttr>, e: Entry, t: seq<Capability>, b: int) {
    e.count == |e.chosen| && e.utility == UtilOf(attrs, e.chosen) &&
    IsSubseq(e.chosen, t) && RiskOf(attrs, e.chosen) <= b
  }

  /** No list drawn from `t` within `b` is strictly better than cell `e`. */
  ghost predicate Optimal(attrs: map<Capability, CapAttr>, e: Entry, t: seq<Capability>, b: int) {
    forall s :: IsSubseq(s, t) && RiskOf(attrs, s) <= b ==> !Better(Stats(attrs, s), e)
  }

  /** The items carry the attributes `attrs` gives their capabilities, with non-negative risks. */
  predicate ItemsAgree(items: seq<Item>, attrs: map<Capability, CapAttr>) {
    forall i :: 0 <= i < |items| ==>
      items[i].risk == AttrOf(attrs, items[i].cap).risk && items[i].utility == AttrOf(attrs, items[i].cap).utility &&
      items[i].risk >= 0
  }

  lemma {:induction false} SubseqElements(s: seq<Capability>, t: seq<Capability>)
    requires IsSubseq(s, t)
    ensures forall x :: x in s ==> x in t
    decreases |t|
  {
    if |s| > 0 {
      var t' := t[..|t| - 1];
      if s[|s| - 1] == t[|t| - 1] {
        SubseqElements(s[..|s| - 1], t');
        assert s == s[..|s| - 1] + [s[|s| - 1]];
      } else {
        SubseqElements(s, t');
      }
    }
  }

  lemma {:induction false} SubseqDropLast(s: seq<Capability>, t: seq<Capability>)
    requires |s| > 0 && IsSubseq(s, t)
    ensures IsSubseq(s[..|s| - 1], t)
    decreases |t|, 0
  {
    var t' := t[..|t| - 1];
    if s[|s| - 1] == t[|t| - 1] {
      SubseqExtend(s[..|s| - 1], t', t[|t| - 1]);
    } else {
      SubseqDropLast(s, t');
      SubseqExtend(s[..|s| - 1], t', t[|t| - 1]);
    }
    assert t' + [t[|t| - 1]] == t;
  }

  /** A subsequence of `t` is a subsequence of `t + [x]`. */
  lemma {:induction false} SubseqExtend(s: seq<Capability>, t: seq<Capability>, x: Capability)
    requires IsSubseq(s, t)
    ensures IsSubseq(s, t + [x])
    decreases |t|, 1
  {
    assert (t + [x])[..|t|] == t;
    if |s| > 0 && s[|s| - 1] == x {
      SubseqDropLast(s, t);
    }
  }

  /** Walking `c` left to right: take `c[k]` as the next element of `w`. */
  lemma SubseqTake(w: seq<Capability>, c: seq<Capability>, i: nat, k: nat)
    requires i < |w| && k < |c| && w[i] == c[k]
    requires IsSubseq(w[..i], c[..k])
    ensures IsSubseq(w[..i + 1], c[..k + 1])
  {
    assert w[..i + 1][..i] == w[..i];
    assert c[..k + 1][..k] == c[..k];
  }

  /** Walking `c` left to right: skip `c[k]`. */
  lemma SubseqSkip(w: seq<Capability>, c: seq<Capability>, i: nat, k: nat)
    requires i <= |w| && k < |c|
    requires IsSubseq(w[..i], c[..k])
    ensures IsSubseq(w[..i], c[..k + 1])
  {
    SubseqExtend(w[..i], c[..k], c[k]);
    assert c[..k] + [c[k]] == c[..k + 1];
  }

  lemma {:induction false} RiskNonNegative(attrs: map<Capability, CapAttr>, s: seq<Capability>)
    requires forall x :: x in s ==> AttrOf(attrs, x).risk >= 0
    ensures RiskOf(attrs, s) >= 0
    decreases |s|
  {
    if |s| > 0 {
      assert forall x :: x in s[..|s| - 1] ==> x in s;
      RiskNonNegative(attrs, s[..|s| - 1]);
    }
  }

  /** Budget level `b` stays sound and optimal when one more item is offered. */
  lemma RelaxCorrect(attrs: map<Capability, CapAttr>, dp: seq<Entry>, it: Item, t: seq<Capability>, b: int)
    requires 0 <= b < |dp|
    requires it.risk == AttrOf(attrs, it.cap).risk && it.utility == AttrOf(attrs, it.cap).utility && it.risk >= 0
    requires forall x :: x in t ==> AttrOf(attrs, x).risk >= 0
    requires forall j :: 0 <= j < |dp| ==> Sound(attrs, dp[j], t, j) && Optimal(attrs, dp[j], t, j)
    ensures Sound(attrs, Relax(dp, it, b), t + [it.cap], b)
    ensures Optimal(attrs, Relax(dp, it, b), t + [it.cap], b)
  {
    var t' := t + [it.cap];
    assert t'[..|t'| - 1] == t;
    var nw := Relax(dp, it, b);
    var nb := b - it.risk;
    // soundness
    if nw == dp[b] {
      SubseqExtend(dp[b].chosen, t, it.cap);
    } else {
      var ch := dp[nb].chosen + [it.cap];
      assert nw.chosen == ch;
      assert ch[..|ch| - 1] == dp[nb].chosen;
    }
    // optimality
    forall s | IsSubseq(s, t') && RiskOf(attrs, s) <= b
      ensures !Better(Stats(attrs, s), nw)
    {
      if |s| > 0 && s[|s| - 1] == it.cap {
        var s' := s[..|s| - 1];
        assert IsSubseq(s', t);
        SubseqElements(s', t);
        RiskNonNegative(attrs, s');
        assert 0 <= nb <= b;
        assert !Better(Stats(attrs, s'), dp[nb]);
      } else {
        assert IsSubseq(s, t);
        assert !Better(Stats(attrs, s), dp[b]);
      }
    }
  }

  /** The DP invariant: after any prefix of the items, every `dp[b]` is sound and optimal for budget `b`. */
  lemma {:induction false} DpCorrect(attrs: map<Capability, CapAttr>, items: seq<Item>, budget: nat)
    requires ItemsAgree(items, attrs)
    ensures forall b :: 0 <= b <= budget ==>
      Sound(attrs, DpAfter(items, budget)[b], Caps(items), b) && Optimal(attrs, DpAfter(items, budget)[b], Caps(items), b)
    decreases |items|
  {
    var dp := DpAfter(items, budget);
    if |items| == 0 {
      forall b | 0 <= b <= budget
        ensures Optimal(attrs, dp[b], Caps(items), b)
      {
        forall s | IsSubseq(s, Caps(items)) && RiskOf(attrs, s) <= b
          ensures !Better(Stats(attrs, s), dp[b])
        {
          assert |s| == 0;
        }
      }
    } else {
      var pre := items[..|items| - 1];
      var it := items[|items| - 1];
      DpCorrect(attrs, pre, budget);
      assert Caps(items) == Caps(pre) + [it.cap];
      forall x | x in Caps(pre) ensures AttrOf(attrs, x).risk >= 0 {
        var i :| 0 <= i < |Caps(pre)| && Caps(pre)[i] == x;
        assert pre[i] == items[i];
      }
      forall b | 0 <= b <= budget
        ensures Sound(attrs, dp[b], Caps(items), b) && Optimal(attrs, dp[b], Caps(items), b)
      {
        RelaxCorrect(attrs, DpAfter(pre, budget), it, Caps(pre), b);
      }
    }
  }

  // ---------------------------------------------------------------------
  // From the best cell to the returned list.
  // ---------------------------------------------------------------------

  /** The item list keeps exactly the capabilities outside the hard ban, in the order of `c`. */
  lemma {:induction false} ItemsKept(c: seq<Capability>, attrs: map<Capability, CapAttr>, ban: set<Capability>)
    ensures Caps(ItemsOf(c, attrs, ban)) == Kept(c, ban)
    decreases |c|
  {
    if |c| > 0 {
      ItemsKept(c[..|c| - 1], attrs, ban);
      var pre := ItemsOf(c[..|c| - 1], attrs, ban);
      var tail := if c[|c| - 1] in ban then [] else [Item(c[|c| - 1], AttrOf(attrs, c[|c| - 1]).risk, AttrOf(attrs, c[|c| - 1]).utility)];
      assert Caps(pre + tail) == Caps(pre) + Caps(tail);
    }
  }

  /** Lists drawn from the kept capabilities are exactly the ban-free lists drawn from `c`. */
  lemma {:induction false} SubseqKept(s: seq<Capability>, c: seq<Capability>, ban: set<Capability>)
    ensures IsSubseq(s, Kept(c, ban)) <==> IsSubseq(s, c) && forall x :: x in s ==> x !in ban
    decreases |c|
  {
    if |c| > 0 {
      var c' := c[..|c| - 1];
      var y := c[|c| - 1];
      var k' := Kept(c', ban);
      if y !in ban {
        assert Kept(c, ban) == k' + [y];
        assert (k' + [y])[..|k'|] == k';
      } else {
        assert Kept(c, ban) == k';
      }
      if |s| == 0 {
      } else if s[|s| - 1] == y {
        var s' := s[..|s| - 1];
        SubseqKept(s', c', ban);
        assert s == s' + [y];
        assert forall x :: x in s <==> x in s' || x == y;
        if y in ban {
          assert s[|s| - 1] in s;
          SubseqKept(s, c', ban);
        }
      } else {
        SubseqKept(s, c', ban);
      }
    }
  }

  /** The comprehension keeps exactly the elements of `c` that are chosen. */
  lemma {:induction false} InOrderMembers(c: seq<Capability>, chosen: set<Capability>)
    ensures forall x :: x in InOrder(c, chosen) <==> x in c && x in chosen
    decreases |c|
  {
    if |c| > 0 {
      InOrderMembers(c[..|c| - 1], chosen);
      assert c == c[..|c| - 1] + [c[|c| - 1]];
    }
  }

  /** `InOrder` depends only on which elements of `c` are chosen. */
  lemma {:induction false} InOrderRestrict(c: seq<Capability>, s1: set<Capability>, s2: set<Capability>)
    requires forall x :: x in c ==> (x in s1 <==> x in s2)
    ensures InOrder(c, s1) == InOrder(c, s2)
    decreases |c|
  {
    if |c| > 0 {
      assert forall x :: x in c[..|c| - 1] ==> x in c;
      InOrderRestrict(c[..|c| - 1], s1, s2);
    }
  }

  /** The comprehension over `C` returns a subsequence of `C`, duplicate-free when `C` is. */
  lemma {:induction false} InOrderSubseq(c: seq<Capability>, chosen: set<Capability>)
    ensures IsSubseq(InOrder(c, chosen), c)
    ensures NoDups(c) ==> NoDups(InOrder(c, chosen))
    decreases |c|
  {
    if |c| > 0 {
      var c' := c[..|c| - 1];
      var x := c[|c| - 1];
      var r' := InOrder(c', chosen);
      InOrderSubseq(c', chosen);
      InOrderMembers(c', chosen);
      if x in chosen {
        assert InOrder(c, chosen) == r' + [x];
        assert (r' + [x])[..|r'|] == r';
      } else {
        assert x !in r';
        assert InOrder(c, chosen) == r';
        assert IsSubseq(r', c);
      }
      if NoDups(c) {
        assert NoDups(c');
        assert x !in c';
      }
    }
  }

  /** Over a duplicate-free `C`, reordering a subsequence of `C` by `C` gives it back unchanged. */
  lemma {:induction false} InOrderOfSubseq(c: seq<Capability>, s: seq<Capability>)
    requires NoDups(c) && IsSubseq(s, c)
    ensures InOrder(c, Elements(s)) == s
    decreases |c|
  {
    if |c| == 0 {
    } else {
      var c' := c[..|c| - 1];
      var x := c[|c| - 1];
      assert NoDups(c') && x !in c';
      if |s| > 0 && s[|s| - 1] == x {
        var s' := s[..|s| - 1];
        SubseqElements(s', c');
        assert s == s' + [x];
        InOrderRestrict(c', Elements(s), Elements(s'));
        InOrderOfSubseq(c', s');
      } else {
        assert IsSubseq(s, c');
        SubseqElements(s, c');
        InOrderOfSubseq(c', s);
      }
    }
  }

  lemma ValidItems(goal: string, c: seq<Capability>, attrsByGoal: map<string, map<Capability, CapAttr>>,
                   riskBudgetByGoal: map<string, int>, ban: set<Capability>)
    requires ValidConfig(goal, c, attrsByGoal, riskBudgetByGoal, ban)
    ensures ItemsAgree(ItemsOf(c, AttrsFor(goal, attrsByGoal), ban), AttrsFor(goal, attrsByGoal))
  {
    var items := ItemsOf(c, AttrsFor(goal, attrsByGoal), ban);
    forall i | 0 <= i < |items| ensures items[i].risk >= 0 {
      var j :| 0 <= j < |c| && c[j] == items[i].cap;
    }
  }

  /** No hard-banned capability is returned; the result is a subsequence of `C`, duplicate-free when `C` is. */
  lemma SolveTmaxNoHardBan(goal: string, c: seq<Capability>, attrsByGoal: map<string, map<Capability, CapAttr>>,
                           riskBudgetByGoal: map<string, int>, ban: set<Capability>)
    requires ValidConfig(goal, c, attrsByGoal, riskBudgetByGoal, ban)
    ensures forall x :: x in SolveTmax(goal, c, attrsByGoal, riskBudgetByGoal, ban) ==> x in c && x !in ban
    ensures IsSubseq(SolveTmax(goal, c, attrsByGoal, riskBudgetByGoal, ban), c)
    ensures NoDups(c) ==> NoDups(SolveTmax(goal, c, attrsByGoal, riskBudgetByGoal, ban))
  {
    var attrs := AttrsFor(goal, attrsByGoal);
    var budget := BudgetFor(goal, riskBudgetByGoal);
    var items := ItemsOf(c, attrs, ban);
    var best := BestEntry(items, budget);
    ValidItems(goal, c, attrsByGoal, riskBudgetByGoal, ban);
    DpCorrect(attrs, items, budget);
    ItemsKept(c, attrs, ban);
    SubseqKept(best.chosen, c, ban);
    InOrderSubseq(c, Elements(best.chosen));
    InOrderMembers(c, Elements(best.chosen));
  }

  /** The cell `max` picks is sound within the whole budget, and no list drawn from the items within it beats it. */
  lemma BestEntryOptimal(attrs: map<Capability, CapAttr>, items: seq<Item>, budget: nat)
    requires ItemsAgree(items, attrs)
    ensures Sound(attrs, BestEntry(items, budget), Caps(items), budget)
    ensures forall s :: IsSubseq(s, Caps(items)) && RiskOf(attrs, s) <= budget ==>
      !Better(Stats(attrs, s), BestEntry(items, budget))
  {
    var dp := DpAfter(items, budget);
    var k := BestIndex(dp, |dp|);
    DpCorrect(attrs, items, budget);
    assert Sound(attrs, dp[k], Caps(items), k);
    assert !Better(dp[budget], dp[k]);
    assert Optimal(attrs, dp[budget], Caps(items), budget);
  }

  /**
   * Over a duplicate-free `C`, the result is the best cell's own list: its
   * risk sum is within the goal's budget (3 when the goal is unlisted), and
   * no ban-free list drawn from `C` within the budget has a strictly greater
   * (count, utility).
   */
  lemma SolveTmaxOptimal(goal: string, c: seq<Capability>, attrsByGoal: map<string, map<Capability, CapAttr>>,
                         riskBudgetByGoal: map<string, int>, ban: set<Capability>)
    requires ValidConfig(goal, c, attrsByGoal, riskBudgetByGoal, ban)
    requires NoDups(c)
    ensures var r := SolveTmax(goal, c, attrsByGoal, riskBudgetByGoal, ban);
      var attrs := AttrsFor(goal, attrsByGoal);
      RiskOf(attrs, r) <= BudgetFor(goal, riskBudgetByGoal) &&
      forall s :: (IsSubseq(s, c) && (forall x :: x in s ==> x !in ban) &&
                   RiskOf(attrs, s) <= BudgetFor(goal, riskBudgetByGoal)) ==> !Better(Stats(attrs, s), Stats(attrs, r))
  {
    var attrs := AttrsFor(goal, attrsByGoal);
    var budget := BudgetFor(goal, riskBudgetByGoal);
    var items := ItemsOf(c, attrs, ban);
    var best := BestEntry(items, budget);
    ValidItems(goal, c, attrsByGoal, riskBudgetByGoal, ban);
    BestEntryOptimal(attrs, items, budget);
    ItemsKept(c, attrs, ban);
    SubseqKept(best.chosen, c, ban);
    InOrderOfSubseq(c, best.chosen);
    assert SolveTmax(goal, c, attrsByGoal, riskBudgetByGoal, ban) == best.chosen;
    assert Stats(attrs, best.chosen) == best;
    forall s | IsSubseq(s, c) && (forall x :: x in s ==> x !in ban) && RiskOf(attrs, s) <= budget
      ensures !Better(Stats(attrs, s), best)
    {
      SubseqKept(s, c, ban);
    }
  }

  /**
   * A larger risk budget never yields a worse list: never fewer capabilities,
   * and at the same count never less utility.
   */
  lemma SolveTmaxBudgetMonotone(goal: string, c: seq<Capability>, attrsByGoal: map<string, map<Capability, CapAttr>>,
                                small: map<string, int>, large: map<string, int>, ban: set<Capability>)
    requires ValidConfig(goal, c, attrsByGoal, small, ban) && ValidConfig(goal, c, attrsByGoal, large, ban)
    requires NoDups(c)
    requires BudgetFor(goal, small) <= BudgetFor(goal, large)
    ensures var attrs := AttrsFor(goal, attrsByGoal);
      var r1 := SolveTmax(goal, c, attrsByGoal, small, ban);
      var r2 := SolveTmax(goal, c, attrsByGoal, large, ban);
      |r1| <= |r2| && (|r1| == |r2| ==> UtilOf(attrs, r1) <= UtilOf(attrs, r2))
  {
    var attrs := AttrsFor(goal, attrsByGoal);
    var r1 := SolveTmax(goal, c, attrsByGoal, small, ban);
    SolveTmaxNoHardBan(goal, c, attrsByGoal, small, ban);
    SolveTmaxOptimal(goal, c, attrsByGoal, small, ban);
    SolveTmaxOptimal(goal, c, attrsByGoal, large, ban);
    assert !Better(Stats(attrs, r1), Stats(attrs, SolveTmax(goal, c, attrsByGoal, large, ban)));
  }

  // ---------------------------------------------------------------------
  // The solver as the source writes it.
  // ---------------------------------------------------------------------

  /** The first loop: filter the hard ban and look up `(risk, utility)`, defaulting to (2, 0). */
  method CollectItems(c: seq<Capability>, attrs: map<Capability, CapAttr>, ban: set<Capability>)
    returns (items: seq<Item>)
    ensures items == ItemsOf(c, attrs, ban)
  {
    items := [];
    for i := 0 to |c|
      invariant items == ItemsOf(c[..i], attrs, ban)
    {
      assert c[..i + 1][..i] == c[..i];
      var cap := c[i];
      if cap in ban {
        continue;
      }
      var a := if cap in attrs then attrs[cap] else CapAttr(2, 0);
      items := items + [Item(cap, a.risk, a.utility)];
    }
    assert c[..|c|] == c;
  }

  /** One pass of the inner loop: budgets from high to low, so `dp[b - risk]` is still the old cell. */
  method RelaxAll(dp: array<Entry>, it: Item)
    requires it.risk >= 0
    modifies dp
    ensures dp[..] == Step(old(dp[..]), it)
  {
    ghost var before := dp[..];
    var b := dp.Length - 1;
    while b >= 0
      invariant -1 <= b < dp.Length
      invariant forall j :: 0 <= j <= b ==> dp[j] == before[j]
      invariant forall j :: b < j < dp.Length ==> dp[j] == Relax(before, it, j)
    {
      var nb := b - it.risk;
      if nb >= 0 {
        var prev := dp[nb];
        var cand := Entry(prev.count + 1, prev.utility + it.utility, prev.chosen + [it.cap]);
        if Better(cand, dp[b]) {
          dp[b] := cand;
        }
      }
      b := b - 1;
    }
  }

  /** The second loop: one pass of `RelaxAll` per item over a fresh table of empty cells. */
  method RunDp(items: seq<Item>, budget: nat) returns (dp: array<Entry>)
    requires forall i :: 0 <= i < |items| ==> items[i].risk >= 0
    ensures fresh(dp)
    ensures dp[..] == DpAfter(items, budget)
  {
    dp := new Entry[budget + 1](_ => Entry(0, 0, []));
    assert dp[..] == InitDp(budget);
    for i := 0 to |items|
      invariant dp.Length == budget + 1
      invariant dp[..] == DpAfter(items[..i], budget)
    {
      RelaxAll(dp, items[i]);
      assert items[..i + 1][..i] == items[..i];
    }
    assert items[..|items|] == items;
  }

  method SolveTmaxKnapsack(goal: string, c: seq<Capability>, attrsByGoal: map<string, map<Capability, CapAttr>>,
                           riskBudgetByGoal: map<string, int>, ban: set<Capability>)
    returns (ordered: seq<Capability>)
    requires ValidConfig(goal, c, attrsByGoal, riskBudgetByGoal, ban)
    ensures ordered == SolveTmax(goal, c, attrsByGoal, riskBudgetByGoal, ban)
  {
    var budget := if goal in riskBudgetByGoal then riskBudgetByGoal[goal] else 3;
    var attrs := if goal in attrsByGoal then attrsByGoal[goal] else map[];
    var items := CollectItems(c, attrs, ban);
    ValidItems(goal, c, attrsByGoal, riskBudgetByGoal, ban);
    var dp := RunDp(items, budget);

    // the first maximal entry, reported in the original order of C
    var best := dp[BestIndex(dp[..], dp.Length)];
    ordered := InOrder(c, Elements(best.chosen));
  }
}
