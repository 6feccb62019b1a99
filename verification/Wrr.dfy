/** The slot distributor's functions, with their loops. */
module Wrr {
  import opened WrrModel

  /** `calculate_weights`. */
  method CalculateWeights(loads: seq<nat>) returns (ws: seq<real>)
    ensures |ws| == |loads| && (loads != [] ==> Inverse(loads, ws))
    ensures forall i :: 0 <= i < |ws| ==> ws[i] > 0.0
    ensures forall i, j :: 0 <= i < |ws| && 0 <= j < |ws| && loads[i] <= loads[j] ==> ws[j] <= ws[i]
  {
    if forall i :: 0 <= i < |loads| ==> loads[i] == 0 {
      ws := seq(|loads|, _ => 1.0);
      return;
    }
    var greatest := Max(loads);
    ws := [];
    hide InverseAt, Max;
    for i := 0 to |loads|
      invariant |ws| == i
      invariant forall j :: 0 <= j < i ==> InverseAt(greatest as real, loads[j], ws[j])
    {
      var w := WeightOf(greatest, loads[i]);
      ws := ws + [w];
    }
    InverseOrders(loads, ws);
  }

  /** One backend's weight. */
  method WeightOf(greatest: nat, load: nat) returns (w: real)
    ensures InverseAt(greatest as real, load, w)
  {
    if load == 0 {
      w := greatest as real;
    } else {
      w := greatest as real / load as real;
    }
  }

  /** The list of rounded shares. */
  method RoundShares(ws: seq<real>, total: nat, sum: real) returns (slots: seq<nat>)
    requires sum > 0.0
    ensures slots == Initial(total, ws, sum)
  {
    slots := [];
    for i := 0 to |ws|
      invariant |slots| == i && forall j :: 0 <= j < i ==> slots[j] == Rounded(total, ws[j], sum)
    {
      slots := slots + [Rounded(total, ws[i], sum)];
    }
  }

  /** The first loop: the heaviest backend makes up what rounding lost. */
  method Grow(start: seq<nat>, heaviest: nat, total: nat) returns (slots: seq<nat>, ghost steps: nat)
    requires heaviest < |start|
    ensures steps == if Sum(start) < total then total - Sum(start) else 0
    ensures slots == if Sum(start) < total then start[heaviest := start[heaviest] + (total - Sum(start))] else start
    ensures Sum(slots) == if Sum(start) < total then total else Sum(start)
  {
    slots, steps := start, 0;
    while Sum(slots) < total
      invariant slots == start[heaviest := start[heaviest] + steps]
      invariant Sum(slots) == Sum(start) + steps
      invariant steps > 0 ==> Sum(slots) <= total
      decreases total - Sum(slots)
    {
      SumUpdate(slots, heaviest, slots[heaviest] + 1);
      slots := slots[heaviest := slots[heaviest] + 1];
      steps := steps + 1;
    }
  }

  /** The inner loop: the first backend that has a slot to spare gives one. */
  method TakeFromFirst(start: seq<nat>) returns (slots: seq<nat>)
    ensures var k := FirstSpare(start, 0);
      slots == if k < |start| then start[k := start[k] - 1] else start
  {
    slots := start;
    for i := 0 to |start|
      invariant slots == start && FirstSpare(start, 0) == FirstSpare(start, i)
    {
      if slots[i] > 1 {
        slots := slots[i := slots[i] - 1];
        return;
      }
    }
  }

  /** One turn of the second loop. */
  method TakeOne(start: seq<nat>, lightest: nat) returns (slots: seq<nat>)
    requires lightest < |start|
    ensures slots == Shrunk(start, lightest)
  {
    if start[lightest] > 1 {
      slots := start[lightest := start[lightest] - 1];
    } else {
      slots := TakeFromFirst(start);
    }
  }

  /** The second loop: it ends because there are no more backends than slots. */
  method Shrink(start: seq<nat>, lightest: nat, total: nat) returns (slots: seq<nat>, ghost steps: nat)
    requires lightest < |start| && AllServed(start) && |start| <= total
    ensures steps == if Sum(start) > total then Sum(start) - total else 0
    ensures slots == ShrunkTimes(start, lightest, if Sum(start) > total then Sum(start) - total else 0)
    ensures AllServed(slots) && Sum(slots) == if Sum(start) > total then total else Sum(start)
  {
    slots, steps := start, 0;
    ghost var due := if Sum(start) > total then Sum(start) - total else 0;
    ghost var end := ShrunkTimes(start, lightest, due);
    while Sum(slots) > total
      invariant |slots| == |start| && AllServed(slots)
      invariant steps <= due && Sum(slots) == Sum(start) - steps
      invariant ShrunkTimes(slots, lightest, due - steps) == end
      decreases Sum(slots)
    {
      ShrunkStep(slots, lightest);
      slots := TakeOne(slots, lightest);
      steps := steps + 1;
    }
  }

  /** Both loops, one after the other. */
  method Correct(start: seq<nat>, heaviest: nat, lightest: nat, total: nat)
    returns (slots: seq<nat>, ghost grown: nat, ghost shrunk: nat)
    requires heaviest < |start| && lightest < |start| && AllServed(start) && |start| <= total
    ensures slots == Corrected(start, heaviest, lightest, total)
    ensures grown == if Sum(start) < total then total - Sum(start) else 0
    ensures shrunk == if Sum(start) > total then Sum(start) - total else 0
  {
    hide Sum;
    slots, grown := Grow(start, heaviest, total);
    slots, shrunk := Shrink(slots, lightest, total);
  }

  /**
   `distribute_slots`. Each loop takes fewer steps than there are backends. With more backends
   than slots the second loop would not end: see `WrrModel.ShrinkingEndsIff`.
   */
  method DistributeSlots(ws: seq<real>, total: nat) returns (slots: seq<nat>, ghost grown: nat, ghost shrunk: nat)
    requires ws != [] && NonNegative(ws)
    requires SumReal(ws) > 0.0 ==> |ws| <= total
    ensures |slots| == |ws| && grown < |ws| && shrunk < |ws|
    ensures SumReal(ws) > 0.0 ==> slots == Distributed(total, ws) && AllServed(slots) && Sum(slots) == total
    ensures SumReal(ws) > 0.0 ==> WithinShares(total, ws, slots)
    ensures SumReal(ws) > 0.0 && shrunk == 0 ==> NearShares(total, ws, slots)
    ensures SumReal(ws) <= 0.0 ==> forall i :: 0 <= i < |slots| ==> slots[i] == total / |ws|
  {
    hide SumReal, Sum, ArgMax, ArgMin, Initial, Corrected;
    var sum := SumReal(ws);
    if sum <= 0.0 {
      slots, grown, shrunk := Repeat(total / |ws|, |ws|), 0, 0;
    } else {
      CorrectionIsSmall(total, ws);
      DistributedServesAll(total, ws);
      DistributedShares(total, ws);
      var start := RoundShares(ws, total, sum);
      slots, grown, shrunk := Correct(start, ArgMax(ws), ArgMin(ws), total);
    }
  }

  lemma {:induction false} PositiveSum(ws: seq<real>)
    requires forall i :: 0 <= i < |ws| ==> ws[i] > 0.0
    ensures SumReal(ws) >= 0.0 && (ws != [] ==> SumReal(ws) > 0.0)
  {
    if ws != [] {
      PositiveSum(ws[..|ws| - 1]);
    }
  }

  /** From loads to slots: with at least one and at most `total` backends, everyone is served. */
  method SlotsForLoads(loads: seq<nat>, total: nat) returns (slots: seq<nat>)
    requires 1 <= |loads| <= total
    ensures |slots| == |loads| && AllServed(slots) && Sum(slots) == total
  {
    hide Sum, SumReal, Inverse;
    var ws := CalculateWeights(loads);
    PositiveSum(ws);
    ghost var grown, shrunk;
    slots, grown, shrunk := DistributeSlots(ws, total);
  }

  /** The inner loop: one port's slots, from a running index on. */
  method FillPort(registers: array<nat>, from: nat, port: nat, n: nat) returns (idx: nat, ghost written: seq<nat>)
    requires from + n <= registers.Length
    modifies registers
    ensures idx == from + n
    ensures |written| == n && forall j :: 0 <= j < n ==> written[j] == from + j
    ensures forall i :: from <= i < idx ==> registers[i] == port
    ensures forall i :: 0 <= i < registers.Length && !(from <= i < idx) ==> registers[i] == old(registers[i])
  {
    idx, written := from, [];
    for j := 0 to n
      invariant idx == from + j
      invariant |written| == j && forall k :: 0 <= k < j ==> written[k] == from + k
      invariant forall i :: from <= i < idx ==> registers[i] == port
      invariant forall i :: 0 <= i < registers.Length && !(from <= i < idx) ==> registers[i] == old(registers[i])
    {
      registers[idx] := port;
      written := written + [idx];
      idx := idx + 1;
    }
  }

  /** `update_backend_registers`: every index below the total is written once, no other is. */
  method UpdateBackendRegisters(slots: seq<nat>, registers: array<nat>) returns (idx: nat, ghost written: seq<nat>)
    requires |slots| >= NUM_PORTS && Sum(slots[..NUM_PORTS]) <= registers.Length
    modifies registers
    ensures idx == Sum(slots[..NUM_PORTS])
    ensures |written| == idx && forall k :: 0 <= k < idx ==> written[k] == k
    ensures forall i :: 0 <= i < idx ==> registers[i] == Layout(slots[..NUM_PORTS])[i]
    ensures forall i :: idx <= i < registers.Length ==> registers[i] == old(registers[i])
  {
    idx, written := 0, [];
    for port := 0 to NUM_PORTS
      invariant idx == Sum(slots[..port]) <= registers.Length
      invariant |written| == idx && forall k :: 0 <= k < idx ==> written[k] == k
      invariant forall i :: 0 <= i < idx ==> registers[i] == Layout(slots[..port])[i]
      invariant forall i :: idx <= i < registers.Length ==> registers[i] == old(registers[i])
    {
      PrefixFits(slots, port);
      LayoutStep(slots, port);
      hide Sum, Layout;
      ghost var more;
      idx, more := FillPort(registers, idx, BASE_PORT + port, slots[port]);
      written := written + more;
    }
  }

  lemma LayoutStep(slots: seq<nat>, port: nat)
    requires port < |slots|
    ensures Sum(slots[..port + 1]) == Sum(slots[..port]) + slots[port]
    ensures Layout(slots[..port + 1]) == Layout(slots[..port]) + Repeat(BASE_PORT + port, slots[port])
  {
    assert slots[..port + 1][..port] == slots[..port];
  }

  lemma {:induction false} PrefixFits(slots: seq<nat>, port: nat)
    requires port < NUM_PORTS <= |slots|
    ensures Sum(slots[..port]) + slots[port] <= Sum(slots[..NUM_PORTS])
    decreases NUM_PORTS - port
  {
    assert slots[..port + 1][..port] == slots[..port];
    if port + 1 < NUM_PORTS {
      PrefixFits(slots, port + 1);
    }
  }

  /** One turn of the monitor: registers are rewritten if the slots changed. */
  method Rebalance(loads: seq<nat>, current: seq<nat>, registers: array<nat>) returns (slots: seq<nat>)
    requires |loads| == NUM_PORTS == |current| && Sum(current) == TOTAL_SLOTS <= registers.Length
    requires registers[..TOTAL_SLOTS] == Layout(current)
    modifies registers
    ensures |slots| == NUM_PORTS && AllServed(slots) && Sum(slots) == TOTAL_SLOTS
    ensures registers[..TOTAL_SLOTS] == Layout(slots)
    ensures registers[TOTAL_SLOTS..] == old(registers[TOTAL_SLOTS..])
    ensures forall port :: 0 <= port < NUM_PORTS ==>
      multiset(registers[..TOTAL_SLOTS])[BASE_PORT + port] == slots[port]
  {
    hide Sum, Layout;
    slots := SlotsForLoads(loads, TOTAL_SLOTS);
    if slots != current {
      assert slots[..NUM_PORTS] == slots;
      ghost var written;
      var idx;
      idx, written := UpdateBackendRegisters(slots, registers);
    }
    forall port | 0 <= port < NUM_PORTS
      ensures multiset(Layout(slots))[BASE_PORT + port] == slots[port]
    {
      LayoutCounts(slots, BASE_PORT + port);
    }
  }
}
