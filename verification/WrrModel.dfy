/**
 The weighted round-robin distribution of slots over backends, on exact rationals: backends
 get weights inverse to their load, shares of the slots are rounded down but never below one,
 and two loops correct the total.
 */
module WrrModel {

  // -------------------------------------------------------------------------------------
  // Sums and extremes
  // -------------------------------------------------------------------------------------

  function Sum(s: seq<nat>): (n: nat) {
    if s == [] then 0 else Sum(s[..|s| - 1]) + s[|s| - 1]
  }

  function SumReal(s: seq<real>): (x: real) {
    if s == [] then 0.0 else SumReal(s[..|s| - 1]) + s[|s| - 1]
  }

  lemma {:induction false} SumUpdate(s: seq<nat>, i: nat, v: nat)
    requires i < |s|
    ensures Sum(s[i := v]) == Sum(s) - s[i] + v
    decreases |s|
  {
    var n := |s| - 1;
    if i == n {
      assert s[i := v][..n] == s[..n];
    } else {
      assert s[i := v][..n] == s[..n][i := v];
      SumUpdate(s[..n], i, v);
    }
  }

  /** Every backend has a slot. */
  predicate AllServed(s: seq<nat>) {
    forall i :: 0 <= i < |s| ==> s[i] >= 1
  }

  lemma {:induction false} SumAtLeastLength(s: seq<nat>)
    requires AllServed(s)
    ensures Sum(s) >= |s|
    ensures Sum(s) == |s| ==> forall i :: 0 <= i < |s| ==> s[i] == 1
  {
    if s != [] {
      SumAtLeastLength(s[..|s| - 1]);
    }
  }

  /** `max`, for loads. */
  function Max(s: seq<nat>): (m: nat)
    requires s != []
    ensures m in s && forall i :: 0 <= i < |s| ==> s[i] <= m
  {
    if |s| == 1 then s[0]
    else
      var m := Max(s[..|s| - 1]);
      if m < s[|s| - 1] then s[|s| - 1] else m
  }

  /** `index(max(..))`: the first position of the greatest weight. */
  function ArgMax(ws: seq<real>): (k: nat)
    requires ws != []
    ensures k < |ws|
    ensures forall i :: 0 <= i < |ws| ==> ws[i] <= ws[k]
    ensures forall i :: 0 <= i < k ==> ws[i] < ws[k]
  {
    if |ws| == 1 then 0
    else
      var k := ArgMax(ws[..|ws| - 1]);
      if ws[k] < ws[|ws| - 1] then |ws| - 1 else k
  }

  /** `index(min(..))`: the first position of the least weight. */
  function ArgMin(ws: seq<real>): (k: nat)
    requires ws != []
    ensures k < |ws|
    ensures forall i :: 0 <= i < |ws| ==> ws[k] <= ws[i]
    ensures forall i :: 0 <= i < k ==> ws[k] < ws[i]
  {
    if |ws| == 1 then 0
    else
      var k := ArgMin(ws[..|ws| - 1]);
      if ws[|ws| - 1] < ws[k] then |ws| - 1 else k
  }

  // -------------------------------------------------------------------------------------
  // Weights
  // -------------------------------------------------------------------------------------

  predicate AllZero(loads: seq<nat>) {
    forall i :: 0 <= i < |loads| ==> loads[i] == 0
  }

  predicate InverseAt(greatest: real, load: nat, w: real) {
    if load == 0 then w == greatest else w * load as real == greatest
  }

  /** Inverse proportion: weight times load is the greatest load; idle backends get that load. */
  ghost predicate Inverse(loads: seq<nat>, ws: seq<real>)
    requires loads != []
  {
    && |ws| == |loads|
    && (AllZero(loads) ==> forall i :: 0 <= i < |ws| ==> ws[i] == 1.0)
    && (!AllZero(loads) ==> forall i :: 0 <= i < |ws| ==>
          InverseAt(Max(loads) as real, loads[i], ws[i]))
  }

  lemma QuotientOrder(m: real, a: real, b: real, x: real, y: real)
    requires m > 0.0 && 0.0 < a <= b && x * a == m && y * b == m
    ensures 0.0 < y <= x
  {
    if x < y {
      assert false;
    }
    if y <= 0.0 {
      assert false;
    }
  }

  lemma InverseAtOrder(m: real, load: nat, load': nat, w: real, w': real)
    requires m > 0.0 && load <= load' && InverseAt(m, load, w) && InverseAt(m, load', w')
    ensures 0.0 < w' <= w
  {
    if load' > 0 {
      if load == 0 {
        QuotientOrder(m, 1.0, load' as real, w, w');
      } else {
        QuotientOrder(m, load as real, load' as real, w, w');
      }
    }
  }

  lemma MaxPositive(loads: seq<nat>)
    requires loads != [] && !AllZero(loads)
    ensures Max(loads) > 0
  {
  }

  /** Weights are positive, and a backend with more load never has more weight. */
  lemma InverseOrders(loads: seq<nat>, ws: seq<real>)
    requires loads != [] && Inverse(loads, ws)
    ensures forall i :: 0 <= i < |ws| ==> ws[i] > 0.0
    ensures forall i, j :: 0 <= i < |ws| && 0 <= j < |ws| && loads[i] <= loads[j] ==> ws[j] <= ws[i]
  {
    if !AllZero(loads) {
      MaxPositive(loads);
      var m := Max(loads) as real;
      hide InverseAt, AllZero, Max;
      forall i, j | 0 <= i < |ws| && 0 <= j < |ws| && loads[i] <= loads[j]
        ensures 0.0 < ws[j] <= ws[i]
      {
        InverseAtOrder(m, loads[i], loads[j], ws[i], ws[j]);
      }
      forall i | 0 <= i < |ws|
        ensures ws[i] > 0.0
      {
        InverseAtOrder(m, loads[i], loads[i], ws[i], ws[i]);
      }
    }
  }

  // -------------------------------------------------------------------------------------
  // Shares
  // -------------------------------------------------------------------------------------

  predicate NonNegative(ws: seq<real>) {
    forall i :: 0 <= i < |ws| ==> ws[i] >= 0.0
  }

  /** A backend's exact share of the slots. */
  function Share(total: nat, w: real, sum: real): (x: real)
    requires sum > 0.0
  {
    total as real * w / sum
  }

  /** The share rounded down, but at least one slot. */
  function Rounded(total: nat, w: real, sum: real): (n: nat)
    requires sum > 0.0
    ensures n >= 1 && (n == 1 || n as real <= Share(total, w, sum))
    ensures Share(total, w, sum) < n as real + 1.0
  {
    var f := Share(total, w, sum).Floor;
    if f > 1 then f else 1
  }

  /** The slots before correction. */
  function Initial(total: nat, ws: seq<real>, sum: real): (s: seq<nat>)
    requires sum > 0.0
    ensures |s| == |ws| && AllServed(s)
    ensures forall i :: 0 <= i < |ws| ==> s[i] == Rounded(total, ws[i], sum)
  {
    if ws == [] then [] else Initial(total, ws[..|ws| - 1], sum) + [Rounded(total, ws[|ws| - 1], sum)]
  }

  lemma ShareAdds(total: nat, a: real, b: real, sum: real)
    requires sum > 0.0
    ensures Share(total, a + b, sum) == Share(total, a, sum) + Share(total, b, sum)
  {
    var t := total as real;
    assert t * (a + b) == t * a + t * b;
  }

  lemma ShareSign(total: nat, w: real, sum: real)
    requires sum > 0.0 && w >= 0.0
    ensures Share(total, w, sum) >= 0.0
    ensures w > 0.0 && total > 0 ==> Share(total, w, sum) > 0.0
  {
    var t := total as real;
    assert t * w >= 0.0;
    if w > 0.0 && total > 0 {
      assert t * w > 0.0;
    }
  }

  lemma RoundedBounds(total: nat, w: real, sum: real)
    requires sum > 0.0 && w >= 0.0
    ensures Share(total, w, sum) - 1.0 < Rounded(total, w, sum) as real <= Share(total, w, sum) + 1.0
    ensures w > 0.0 && total > 0 ==> Rounded(total, w, sum) as real < Share(total, w, sum) + 1.0
  {
    ShareSign(total, w, sum);
  }

  /** Rounding is off by less than one slot per backend, either way. */
  lemma {:induction false} InitialBounds(total: nat, ws: seq<real>, sum: real)
    requires sum > 0.0 && NonNegative(ws)
    ensures var x, s := Share(total, SumReal(ws), sum), Sum(Initial(total, ws, sum)) as real;
      && x - |ws| as real <= s <= x + |ws| as real
      && (ws != [] ==> x - |ws| as real < s)
      && (SumReal(ws) > 0.0 && total > 0 ==> s < x + |ws| as real)
    decreases |ws|
  {
    if ws != [] {
      var n := |ws| - 1;
      var init, w := ws[..n], ws[n];
      InitialBounds(total, init, sum);
      RoundedBounds(total, w, sum);
      ShareAdds(total, SumReal(init), w, sum);
      assert Initial(total, ws, sum)[..n] == Initial(total, init, sum);
      hide Share, Rounded, Initial, SumReal, Sum;
    }
  }

  /** All weights together have all slots. */
  lemma WholeShare(total: nat, sum: real)
    requires sum > 0.0
    ensures Share(total, sum, sum) == total as real
  {
    var t, q := total as real, Share(total, sum, sum);
    assert q * sum == t * sum;
    assert (q - t) * sum == 0.0;
  }

  /** The correction needed is smaller than the number of backends. */
  lemma CorrectionIsSmall(total: nat, ws: seq<real>)
    requires ws != [] && NonNegative(ws) && SumReal(ws) > 0.0
    ensures total - |ws| < Sum(Initial(total, ws, SumReal(ws)))
    ensures total > 0 ==> Sum(Initial(total, ws, SumReal(ws))) < total + |ws|
    ensures total == 0 ==> Sum(Initial(total, ws, SumReal(ws))) == |ws|
  {
    var sum := SumReal(ws);
    InitialBounds(total, ws, sum);
    WholeShare(total, sum);
    SumAtLeastLength(Initial(total, ws, sum));
    hide Share, Rounded, Initial, SumReal, Sum;
  }

  // -------------------------------------------------------------------------------------
  // Correction
  // -------------------------------------------------------------------------------------

  /** The first backend with more than one slot, or the number of backends. */
  function FirstSpare(s: seq<nat>, i: nat): (k: nat)
    requires i <= |s|
    ensures i <= k <= |s| && (k < |s| ==> s[k] > 1)
    ensures forall j :: i <= j < k ==> s[j] <= 1
    decreases |s| - i
  {
    if i == |s| || s[i] > 1 then i else FirstSpare(s, i + 1)
  }

  /** Whom the second loop takes a slot from: the lightest weight if it can, else the first it can. */
  function Victim(s: seq<nat>, lightest: nat): (k: nat)
    requires lightest < |s|
    ensures k <= |s|
  {
    if s[lightest] > 1 then lightest else FirstSpare(s, 0)
  }

  /** One turn of the second loop. */
  function Shrunk(s: seq<nat>, lightest: nat): (r: seq<nat>)
    requires lightest < |s|
    ensures |r| == |s|
  {
    var k := Victim(s, lightest);
    if k < |s| then s[k := s[k] - 1] else s
  }

  function ShrunkTimes(s: seq<nat>, lightest: nat, k: nat): (r: seq<nat>)
    requires lightest < |s|
    ensures |r| == |s|
    decreases k
  {
    if k == 0 then s else ShrunkTimes(Shrunk(s, lightest), lightest, k - 1)
  }

  /** A turn takes exactly one slot while any backend has one to spare, and changes nothing else. */
  lemma ShrunkStep(s: seq<nat>, lightest: nat)
    requires lightest < |s| && AllServed(s)
    ensures AllServed(Shrunk(s, lightest))
    ensures Sum(Shrunk(s, lightest)) == if Sum(s) > |s| then Sum(s) - 1 else Sum(s)
  {
    hide Sum;
    var k := Victim(s, lightest);
    SumAtLeastLength(s);
    if k < |s| {
      assert s[k] > 1;
      SumUpdate(s, k, s[k] - 1);
    } else {
      AllOnes(s);
    }
  }

  lemma {:induction false} AllOnes(s: seq<nat>)
    requires forall i :: 0 <= i < |s| ==> s[i] == 1
    ensures Sum(s) == |s|
  {
    if s != [] {
      AllOnes(s[..|s| - 1]);
    }
  }

  /** The second loop after `k` turns: it stops losing slots when everyone is down to one. */
  lemma {:induction false} ShrunkSum(s: seq<nat>, lightest: nat, k: nat)
    requires lightest < |s| && AllServed(s)
    ensures AllServed(ShrunkTimes(s, lightest, k))
    ensures Sum(ShrunkTimes(s, lightest, k)) == if Sum(s) - k > |s| then Sum(s) - k else |s|
    decreases k
  {
    SumAtLeastLength(s);
    if k > 0 {
      ShrunkStep(s, lightest);
      ShrunkSum(Shrunk(s, lightest), lightest, k - 1);
    } else if Sum(s) == |s| {
    }
  }

  /** The second loop ends if and only if there are no more backends than slots. */
  lemma ShrinkingEndsIff(s: seq<nat>, lightest: nat, total: nat)
    requires lightest < |s| && AllServed(s)
    ensures (exists k :: Sum(ShrunkTimes(s, lightest, k)) <= total) <==> |s| <= total
  {
    if |s| <= total {
      var k := Sum(s);
      ShrunkSum(s, lightest, k);
      assert Sum(ShrunkTimes(s, lightest, k)) <= total;
    } else {
      forall k: nat
        ensures Sum(ShrunkTimes(s, lightest, k)) > total
      {
        ShrunkSum(s, lightest, k);
      }
    }
  }

  /** What both loops make of the slots. */
  function Corrected(s: seq<nat>, heaviest: nat, lightest: nat, total: nat): (r: seq<nat>)
    requires heaviest < |s| && lightest < |s|
    ensures |r| == |s|
  {
    if Sum(s) < total then s[heaviest := s[heaviest] + (total - Sum(s))]
    else ShrunkTimes(s, lightest, Sum(s) - total)
  }

  lemma CorrectedServesAll(s: seq<nat>, heaviest: nat, lightest: nat, total: nat)
    requires heaviest < |s| && lightest < |s| && AllServed(s) && |s| <= total
    ensures AllServed(Corrected(s, heaviest, lightest, total))
    ensures Sum(Corrected(s, heaviest, lightest, total)) == total
  {
    hide Sum, ShrunkTimes;
    if Sum(s) < total {
      SumUpdate(s, heaviest, s[heaviest] + (total - Sum(s)));
    } else {
      ShrunkSum(s, lightest, Sum(s) - total);
    }
  }

  /** The slots after correction. */
  function Distributed(total: nat, ws: seq<real>): (s: seq<nat>)
    requires ws != [] && SumReal(ws) > 0.0
    ensures |s| == |ws|
  {
    Corrected(Initial(total, ws, SumReal(ws)), ArgMax(ws), ArgMin(ws), total)
  }

  /** With no more backends than slots, everyone is served and the slots add up. */
  lemma DistributedServesAll(total: nat, ws: seq<real>)
    requires ws != [] && SumReal(ws) > 0.0 && |ws| <= total
    ensures AllServed(Distributed(total, ws)) && Sum(Distributed(total, ws)) == total
  {
    hide Sum, SumReal, ArgMax, ArgMin, Corrected, Initial;
    CorrectedServesAll(Initial(total, ws, SumReal(ws)), ArgMax(ws), ArgMin(ws), total);
  }

  // -------------------------------------------------------------------------------------
  // Whose slots the second loop takes
  // -------------------------------------------------------------------------------------

  /**
   `r` is `s` with slots taken from the lightest backend first and then from the others in
   order: nobody gains, and whoever loses, everyone before it in that order is down to one.
   */
  ghost predicate TakenInOrder(s: seq<nat>, r: seq<nat>, lightest: nat)
    requires lightest < |s|
  {
    && |r| == |s|
    && (forall i :: 0 <= i < |s| ==> r[i] <= s[i])
    && (forall i :: 0 <= i < |s| && i != lightest && r[i] < s[i] ==> r[lightest] == 1)
    && (forall i, j :: 0 <= i < j < |s| && j != lightest && r[j] < s[j] ==> r[i] == 1)
  }

  lemma {:induction false} ShrunkInOrder(s: seq<nat>, r: seq<nat>, lightest: nat, k: nat)
    requires lightest < |s| && AllServed(r) && TakenInOrder(s, r, lightest)
    ensures TakenInOrder(s, ShrunkTimes(r, lightest, k), lightest)
    decreases k
  {
    if k > 0 {
      ShrunkStep(r, lightest);
      ShrunkInOrder(s, Shrunk(r, lightest), lightest, k - 1);
    }
  }

  lemma CorrectedChanges(s: seq<nat>, heaviest: nat, lightest: nat, total: nat)
    requires heaviest < |s| && lightest < |s| && AllServed(s)
    ensures var r := Corrected(s, heaviest, lightest, total);
      if Sum(s) < total then forall i :: 0 <= i < |s| && i != heaviest ==> r[i] == s[i]
      else TakenInOrder(s, r, lightest)
  {
    hide Sum, ShrunkTimes;
    if Sum(s) >= total {
      ShrunkInOrder(s, s, lightest, Sum(s) - total);
    }
  }

  /** Only the heaviest backend gains, or slots are taken in order; nothing else happens. */
  lemma DistributedChanges(total: nat, ws: seq<real>)
    requires ws != [] && SumReal(ws) > 0.0
    ensures var s, r := Initial(total, ws, SumReal(ws)), Distributed(total, ws);
      if Sum(s) < total then forall i :: 0 <= i < |s| && i != ArgMax(ws) ==> r[i] == s[i]
      else TakenInOrder(s, r, ArgMin(ws))
  {
    hide Sum, SumReal, ArgMax, ArgMin, Corrected, Initial;
    CorrectedChanges(Initial(total, ws, SumReal(ws)), ArgMax(ws), ArgMin(ws), total);
  }

  // -------------------------------------------------------------------------------------
  // Slots and exact shares
  // -------------------------------------------------------------------------------------

  /** Nobody but the heaviest backend has more than one slot and more than its share. */
  ghost predicate WithinShares(total: nat, ws: seq<real>, r: seq<nat>)
    requires ws != [] && SumReal(ws) > 0.0 && |r| == |ws|
  {
    forall i :: 0 <= i < |ws| && i != ArgMax(ws) ==> r[i] <= 1 || r[i] as real <= Share(total, ws[i], SumReal(ws))
  }

  /** Everyone has more than its share less one. */
  ghost predicate NearShares(total: nat, ws: seq<real>, r: seq<nat>)
    requires SumReal(ws) > 0.0 && |r| == |ws|
  {
    forall i :: 0 <= i < |ws| ==> Share(total, ws[i], SumReal(ws)) < r[i] as real + 1.0
  }

  /**
   How the slots relate to the exact shares: only the heaviest backend can get more than its share
   (or one), and unless slots had to be taken away, nobody falls a whole slot short.
   */
  lemma DistributedShares(total: nat, ws: seq<real>)
    requires ws != [] && SumReal(ws) > 0.0
    ensures WithinShares(total, ws, Distributed(total, ws))
    ensures Sum(Initial(total, ws, SumReal(ws))) <= total ==> NearShares(total, ws, Distributed(total, ws))
  {
    var s, r := Initial(total, ws, SumReal(ws)), Distributed(total, ws);
    DistributedChanges(total, ws);
    hide Sum, SumReal, ArgMax, ArgMin, Share, Rounded, Initial;
    forall i | 0 <= i < |ws|
      ensures i != ArgMax(ws) ==> r[i] <= s[i]
      ensures Sum(s) <= total ==> s[i] <= r[i]
      ensures s[i] == Rounded(total, ws[i], SumReal(ws))
    {
    }
  }

  // -------------------------------------------------------------------------------------
  // Registers
  // -------------------------------------------------------------------------------------

  const NUM_PORTS: nat := 4
  const BASE_PORT: nat := 10000
  const TOTAL_SLOTS: nat := 16

  function Repeat(x: nat, n: nat): (s: seq<nat>)
    ensures |s| == n && forall i :: 0 <= i < n ==> s[i] == x
  {
    seq(n, _ => x)
  }

  /** The register contents: each port repeated as often as it has slots. */
  function Layout(slots: seq<nat>): (s: seq<nat>)
    ensures |s| == Sum(slots)
  {
    if slots == [] then [] else Layout(slots[..|slots| - 1]) + Repeat(BASE_PORT + |slots| - 1, slots[|slots| - 1])
  }

  lemma {:induction false} RepeatCount(x: nat, n: nat, y: nat)
    ensures multiset(Repeat(x, n))[y] == if x == y then n else 0
    decreases n
  {
    if n > 0 {
      RepeatCount(x, n - 1, y);
      assert Repeat(x, n) == Repeat(x, n - 1) + [x];
    }
  }

  /** Each port occurs in the registers as often as it has slots, and nothing else occurs. */
  lemma {:induction false} LayoutCounts(slots: seq<nat>, port: nat)
    ensures multiset(Layout(slots))[port] ==
      if BASE_PORT <= port < BASE_PORT + |slots| then slots[port - BASE_PORT] else 0
    decreases |slots|
  {
    if slots != [] {
      var n := |slots| - 1;
      LayoutCounts(slots[..n], port);
      RepeatCount(BASE_PORT + n, slots[n], port);
      assert multiset(Layout(slots)) == multiset(Layout(slots[..n])) + multiset(Repeat(BASE_PORT + n, slots[n]));
    }
  }

  lemma {:induction false} PrefixSum(slots: seq<nat>, p: nat)
    requires p < |slots|
    ensures Sum(slots[..p]) + slots[p] <= Sum(slots)
    decreases |slots|
  {
    var n := |slots| - 1;
    if p == n {
      assert slots[..p] == slots[..n];
    } else {
      PrefixSum(slots[..n], p);
      assert slots[..n][..p] == slots[..p];
    }
  }

  /** Register `i` holds a port exactly if `i` lies in that port's stretch of the running sum. */
  lemma {:induction false} LayoutAt(slots: seq<nat>, p: nat, i: nat)
    requires p < |slots| && i < Sum(slots)
    ensures Layout(slots)[i] == 10000 + p <==> Sum(slots[..p]) <= i < Sum(slots[..p]) + slots[p]
    decreases |slots|
  {
    var n := |slots| - 1;
    var init := slots[..n];
    if i < Sum(init) {
      if p < n {
        LayoutAt(init, p, i);
        assert init[..p] == slots[..p];
      } else {
        PortBelow(init, i);
      }
    } else {
      assert Layout(slots)[i] == Repeat(BASE_PORT + n, slots[n])[i - Sum(init)];
      if p < n {
        PrefixSum(init, p);
        assert init[..p] == slots[..p];
      }
    }
  }

  lemma {:induction false} PortBelow(slots: seq<nat>, i: nat)
    requires i < Sum(slots)
    ensures Layout(slots)[i] < BASE_PORT + |slots|
    decreases |slots|
  {
    var init := slots[..|slots| - 1];
    if i < Sum(init) {
      PortBelow(init, i);
    }
  }
}
