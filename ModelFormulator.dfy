/** The binary integer programme of propose_assignment_with_minimum_move, stated as
    a movement-cost function and a feasibility predicate over 0/1 assignments. The
    MILP solver itself is not modelled. */
module ModelFormulator {
  import opened Types
  import opened SpecBuilder

  // ---------------------------------------------------------------------------
  // Sums the formulation is built from

  /** Lines 83-85: the weighted mass of an assignment over a slot list. */
  function Mass(slots: seq<Slot>, x: map<Slot, int>, w: map<TP, nat>): int
    decreases |slots|
  {
    if |slots| == 0 then 0
    else
      var s := slots[|slots| - 1];
      Mass(slots[..|slots| - 1], x, w) + Weight(w, s.tp) * Val(x, s)
  }

  /** Lines 90-94: the number of replicas a partition gets on the listed brokers. */
  function ReplicaCount(tp: TP, bs: seq<Broker>, x: map<Slot, int>): int
    decreases |bs|
  {
    if |bs| == 0 then 0
    else ReplicaCount(tp, bs[..|bs| - 1], x) + Val(x, Slot(tp, bs[|bs| - 1]))
  }

  /** Lines 102-104: the weighted load of broker b. */
  function Load(b: Broker, tps: seq<TP>, x: map<Slot, int>, w: map<TP, nat>): int
    decreases |tps|
  {
    if |tps| == 0 then 0
    else
      var tp := tps[|tps| - 1];
      Load(b, tps[..|tps| - 1], x, w) + Weight(w, tp) * Val(x, Slot(tp, b))
  }

  /** Lines 71-76: a slot that is empty now costs weight * x, one that is occupied now
      costs weight * (1 - x), written as the source writes it. */
  function MoveSum(slots: seq<Slot>, cur: map<Slot, int>, x: map<Slot, int>, w: map<TP, nat>): int
    decreases |slots|
  {
    if |slots| == 0 then 0
    else
      var s := slots[|slots| - 1];
      MoveSum(slots[..|slots| - 1], cur, x, w) +
        (if Val(cur, s) == 0 then Val(x, s) * Weight(w, s.tp)
         else (Val(x, s) - 1) * -1 * Weight(w, s.tp))
  }

  /** Line 77: the objective, half of the weighted count of arrivals and departures. */
  function Movement(c: Config, x: map<Slot, int>): real {
    (MoveSum(c.tpbs, c.current, x, c.weights) as real) / 2.0
  }

  /** The reference definition of movement: the total weight of the slots whose
      proposed value differs from the current one. */
  function DiffWeight(slots: seq<Slot>, cur: map<Slot, int>, x: map<Slot, int>, w: map<TP, nat>): nat
    decreases |slots|
  {
    if |slots| == 0 then 0
    else
      var s := slots[|slots| - 1];
      DiffWeight(slots[..|slots| - 1], cur, x, w) + (if Val(cur, s) != Val(x, s) then Weight(w, s.tp) else 0)
  }

  /** Sum over partitions of weight times replica count. */
  function PartitionMass(tps: seq<TP>, bs: seq<Broker>, x: map<Slot, int>, w: map<TP, nat>): int
    decreases |tps|
  {
    if |tps| == 0 then 0
    else
      var tp := tps[|tps| - 1];
      PartitionMass(tps[..|tps| - 1], bs, x, w) + Weight(w, tp) * ReplicaCount(tp, bs, x)
  }

  /** The total weight of the partition keys. */
  function WeightSum(tps: seq<TP>, w: map<TP, nat>): nat
    decreases |tps|
  {
    if |tps| == 0 then 0 else WeightSum(tps[..|tps| - 1], w) + Weight(w, tps[|tps| - 1])
  }

  /** The loads of brokers bs summed: the left-hand sides of C3 added up. */
  function LoadSum(bs: seq<Broker>, tps: seq<TP>, x: map<Slot, int>, w: map<TP, nat>): int
    decreases |bs|
  {
    if |bs| == 0 then 0 else LoadSum(bs[..|bs| - 1], tps, x, w) + Load(bs[|bs| - 1], tps, x, w)
  }

  /** Every partition of tps weighs 1. */
  function UnitWeights(tps: seq<TP>): map<TP, nat> {
    map tp | tp in tps :: 1
  }

  // ---------------------------------------------------------------------------
  // The constraint set

  /** Lines 64-68: one integer variable per slot, bounded by 0 and 1. */
  predicate Binary(c: Config, x: map<Slot, int>) {
    forall k :: 0 <= k < |c.tpbs| ==> c.tpbs[k] in x && 0 <= x[c.tpbs[k]] <= 1
  }

  /** Lines 65-66: a pinned slot's variable is bounded by 1 and 1. */
  predicate PinsHeld(c: Config, x: map<Slot, int>) {
    forall s :: s in c.pinned ==> s in x && x[s] == 1
  }

  /** C1, lines 83-86: the proposed weighted mass equals the current one. */
  predicate MassConserved(c: Config, x: map<Slot, int>) {
    Mass(c.tpbs, x, c.weights) == c.totalWeight
  }

  /** Lines 95-98: the override when it is positive, else the partition's current
      replica count on the listed brokers. */
  function TargetReplicas(c: Config, tp: TP): int {
    if c.newReplicationFactor > 0 then c.newReplicationFactor
    else ReplicaCount(tp, c.brokers, c.current)
  }

  /** C2, lines 89-98. */
  predicate ReplicationFactorsHold(c: Config, x: map<Slot, int>) {
    forall i :: 0 <= i < |c.tps| ==> ReplicaCount(c.tps[i], c.brokers, x) == TargetReplicas(c, c.tps[i])
  }

  /** Lines 105-109: an equality when the bounds coincide, the band otherwise. */
  predicate LoadWithinBounds(c: Config, load: int) {
    if c.loadMax == c.loadMin then load == c.loadMax
    else c.loadMin <= load && load <= c.loadMax
  }

  /** C3, lines 101-109. */
  predicate LoadsBalanced(c: Config, x: map<Slot, int>) {
    forall j :: 0 <= j < |c.brokers| ==> LoadWithinBounds(c, Load(c.brokers[j], c.tps, x, c.weights))
  }

  /** An assignment the binary programme accepts. */
  predicate Feasible(c: Config, x: map<Slot, int>) {
    && Binary(c, x)
    && PinsHeld(c, x)
    && MassConserved(c, x)
    && ReplicationFactorsHold(c, x)
    && LoadsBalanced(c, x)
  }

  /** What an optimal solver status promises: feasible and of least movement. */
  ghost predicate Optimal(c: Config, x: map<Slot, int>) {
    Feasible(c, x) && forall y :: Feasible(c, y) ==> Movement(c, x) <= Movement(c, y)
  }

  // ---------------------------------------------------------------------------
  // The formulation's loops, evaluated on a concrete assignment

  /** The loop of lines 71-76. */
  method MovementObjective(c: Config, x: map<Slot, int>) returns (num: int)
    ensures num == MoveSum(c.tpbs, c.current, x, c.weights)
  {
    num := 0;
    var k := 0;
    while k < |c.tpbs|
      invariant 0 <= k <= |c.tpbs|
      invariant num == MoveSum(c.tpbs[..k], c.current, x, c.weights)
    {
      var s := c.tpbs[k];
      if Val(c.current, s) == 0 {
        num := num + Val(x, s) * Weight(c.weights, s.tp);
      } else {
        num := num + (Val(x, s) - 1) * -1 * Weight(c.weights, s.tp);
      }
      assert c.tpbs[..k + 1][..k] == c.tpbs[..k];
      k := k + 1;
    }
    assert c.tpbs[..|c.tpbs|] == c.tpbs;
  }

  /** The loop of lines 83-85. */
  method TotalMass(c: Config, x: map<Slot, int>) returns (mass: int)
    ensures mass == Mass(c.tpbs, x, c.weights)
  {
    mass := 0;
    var k := 0;
    while k < |c.tpbs|
      invariant 0 <= k <= |c.tpbs|
      invariant mass == Mass(c.tpbs[..k], x, c.weights)
    {
      var s := c.tpbs[k];
      mass := mass + Weight(c.weights, s.tp) * Val(x, s);
      assert c.tpbs[..k + 1][..k] == c.tpbs[..k];
      k := k + 1;
    }
    assert c.tpbs[..|c.tpbs|] == c.tpbs;
  }

  /** The inner loop of lines 90-94: proposed and current replica counts of tp. */
  method PartitionReplicas(c: Config, tp: TP, x: map<Slot, int>) returns (replicas: int, currentReplicas: int)
    ensures replicas == ReplicaCount(tp, c.brokers, x)
    ensures currentReplicas == ReplicaCount(tp, c.brokers, c.current)
  {
    replicas, currentReplicas := 0, 0;
    var j := 0;
    while j < |c.brokers|
      invariant 0 <= j <= |c.brokers|
      invariant replicas == ReplicaCount(tp, c.brokers[..j], x)
      invariant currentReplicas == ReplicaCount(tp, c.brokers[..j], c.current)
    {
      var b := c.brokers[j];
      replicas := replicas + Val(x, Slot(tp, b));
      currentReplicas := currentReplicas + Val(c.current, Slot(tp, b));
      assert c.brokers[..j + 1][..j] == c.brokers[..j];
      j := j + 1;
    }
    assert c.brokers[..|c.brokers|] == c.brokers;
  }

  /** The inner loop of lines 102-104: the weighted load of broker b. */
  method BrokerLoad(c: Config, b: Broker, x: map<Slot, int>) returns (score: int)
    ensures score == Load(b, c.tps, x, c.weights)
  {
    score := 0;
    var i := 0;
    while i < |c.tps|
      invariant 0 <= i <= |c.tps|
      invariant score == Load(b, c.tps[..i], x, c.weights)
    {
      var tp := c.tps[i];
      score := score + Weight(c.weights, tp) * Val(x, Slot(tp, b));
      assert c.tps[..i + 1][..i] == c.tps[..i];
      i := i + 1;
    }
    assert c.tps[..|c.tps|] == c.tps;
  }

  /** Lines 64-68 on a concrete assignment: every slot has a value within its
      variable's bounds, [1, 1] for a pinned slot and [0, 1] otherwise. */
  method WithinBounds(c: Config, x: map<Slot, int>) returns (ok: bool)
    requires forall s :: s in c.pinned ==> s in c.tpbs
    ensures ok <==> Binary(c, x) && PinsHeld(c, x)
  {
    ok := true;
    var k := 0;
    while k < |c.tpbs|
      invariant 0 <= k <= |c.tpbs|
      invariant ok <==> forall i :: 0 <= i < k ==> SlotWithinBounds(c, x, c.tpbs[i])
    {
      ok := ok && SlotWithinBounds(c, x, c.tpbs[k]);
      k := k + 1;
    }
    if ok {
      forall s | s in c.pinned ensures s in x && x[s] == 1 {
        var i :| 0 <= i < |c.tpbs| && c.tpbs[i] == s;
        assert SlotWithinBounds(c, x, c.tpbs[i]);
      }
    } else {
      var i :| 0 <= i < |c.tpbs| && !SlotWithinBounds(c, x, c.tpbs[i]);
      assert !(Binary(c, x) && PinsHeld(c, x));
    }
  }

  /** The bounds of the variable for slot s. */
  predicate SlotWithinBounds(c: Config, x: map<Slot, int>, s: Slot) {
    s in x && (if s in c.pinned then x[s] == 1 else 0 <= x[s] <= 1)
  }

  /** Every constraint of lines 64-109 checked on a concrete assignment: the
      assignment is accepted exactly when it is feasible. */
  method IsFeasible(c: Config, x: map<Slot, int>) returns (ok: bool)
    requires forall s :: s in c.pinned ==> s in c.tpbs
    ensures ok <==> Feasible(c, x)
  {
    var bounded := WithinBounds(c, x);
    var mass := TotalMass(c, x);
    var c2 := true;
    var i := 0;
    while i < |c.tps|
      invariant 0 <= i <= |c.tps|
      invariant c2 <==> forall k :: 0 <= k < i ==> ReplicaCount(c.tps[k], c.brokers, x) == TargetReplicas(c, c.tps[k])
    {
      var replicas, currentReplicas := PartitionReplicas(c, c.tps[i], x);
      if c.newReplicationFactor > 0 {
        c2 := c2 && replicas == c.newReplicationFactor;
      } else {
        c2 := c2 && replicas == currentReplicas;
      }
      i := i + 1;
    }
    var c3 := true;
    var j := 0;
    while j < |c.brokers|
      invariant 0 <= j <= |c.brokers|
      invariant c3 <==> forall k :: 0 <= k < j ==> LoadWithinBounds(c, Load(c.brokers[k], c.tps, x, c.weights))
    {
      var score := BrokerLoad(c, c.brokers[j], x);
      if c.loadMax == c.loadMin {
        c3 := c3 && score == c.loadMax;
      } else {
        c3 := c3 && score >= c.loadMin && score <= c.loadMax;
      }
      j := j + 1;
    }
    ok := bounded && mass == c.totalWeight && c2 && c3;
  }

  // ---------------------------------------------------------------------------
  // Sum lemmas

  lemma {:induction false} MassAppend(a: seq<Slot>, b: seq<Slot>, x: map<Slot, int>, w: map<TP, nat>)
    ensures Mass(a + b, x, w) == Mass(a, x, w) + Mass(b, x, w)
    decreases |b|
  {
    if |b| > 0 {
      assert (a + b)[..|a + b| - 1] == a + b[..|b| - 1];
      MassAppend(a, b[..|b| - 1], x, w);
    } else {
      assert a + b == a;
    }
  }

  lemma {:induction false} MassRow(tp: TP, bs: seq<Broker>, x: map<Slot, int>, w: map<TP, nat>)
    ensures Mass(Row(tp, bs), x, w) == Weight(w, tp) * ReplicaCount(tp, bs, x)
    decreases |bs|
  {
    if |bs| > 0 {
      var init := bs[..|bs| - 1];
      assert Row(tp, bs)[..|bs| - 1] == Row(tp, init);
      MassRow(tp, init, x, w);
      var v := Val(x, Slot(tp, bs[|bs| - 1]));
      assert Weight(w, tp) * (ReplicaCount(tp, init, x) + v) ==
             Weight(w, tp) * ReplicaCount(tp, init, x) + Weight(w, tp) * v;
    }
  }

  /** The mass of the whole slot list, grouped by partition. */
  lemma {:induction false} MassOfProduct(tps: seq<TP>, bs: seq<Broker>, x: map<Slot, int>, w: map<TP, nat>)
    ensures Mass(Product(tps, bs), x, w) == PartitionMass(tps, bs, x, w)
    decreases |tps|
  {
    if |tps| > 0 {
      var init := tps[..|tps| - 1];
      MassOfProduct(init, bs, x, w);
      MassAppend(Product(init, bs), Row(tps[|tps| - 1], bs), x, w);
      MassRow(tps[|tps| - 1], bs, x, w);
    }
  }

  /** The total of lines 232-235 is the C1 mass of the current assignment. */
  lemma {:induction false} CurrentMassIsMass(slots: seq<Slot>, cur: map<Slot, int>, w: map<TP, nat>)
    requires forall k :: 0 <= k < |slots| ==> 0 <= Val(cur, slots[k]) <= 1
    ensures CurrentMass(slots, cur, w) == Mass(slots, cur, w)
    decreases |slots|
  {
    if |slots| > 0 {
      CurrentMassIsMass(slots[..|slots| - 1], cur, w);
      assert 0 <= Val(cur, slots[|slots| - 1]) <= 1;
    }
  }

  lemma {:induction false} PartitionMassCongruent(tps: seq<TP>, bs: seq<Broker>, x: map<Slot, int>, y: map<Slot, int>, w: map<TP, nat>)
    requires forall i :: 0 <= i < |tps| ==> ReplicaCount(tps[i], bs, x) == ReplicaCount(tps[i], bs, y)
    ensures PartitionMass(tps, bs, x, w) == PartitionMass(tps, bs, y, w)
    decreases |tps|
  {
    if |tps| > 0 {
      PartitionMassCongruent(tps[..|tps| - 1], bs, x, y, w);
      assert ReplicaCount(tps[|tps| - 1], bs, x) == ReplicaCount(tps[|tps| - 1], bs, y);
    }
  }

  lemma {:induction false} PartitionMassUniform(tps: seq<TP>, bs: seq<Broker>, x: map<Slot, int>, w: map<TP, nat>, rf: int)
    requires forall i :: 0 <= i < |tps| ==> ReplicaCount(tps[i], bs, x) == rf
    ensures PartitionMass(tps, bs, x, w) == rf * WeightSum(tps, w)
    decreases |tps|
  {
    if |tps| > 0 {
      var init := tps[..|tps| - 1];
      PartitionMassUniform(init, bs, x, w, rf);
      var wt := Weight(w, tps[|tps| - 1]);
      assert ReplicaCount(tps[|tps| - 1], bs, x) == rf;
      assert rf * (WeightSum(init, w) + wt) == rf * WeightSum(init, w) + wt * rf;
    }
  }

  lemma {:induction false} WeightSumUnit(tps: seq<TP>, all: seq<TP>)
    requires forall i :: 0 <= i < |tps| ==> tps[i] in all
    ensures WeightSum(tps, UnitWeights(all)) == |tps|
    decreases |tps|
  {
    if |tps| > 0 {
      WeightSumUnit(tps[..|tps| - 1], all);
      assert tps[|tps| - 1] in all;
    }
  }

  /** Dropping the last partition from every broker's load removes that partition's
      weighted replica count from the sum of the loads. */
  lemma {:induction false} LoadSumSplit(bs: seq<Broker>, tps: seq<TP>, x: map<Slot, int>, w: map<TP, nat>)
    requires |tps| > 0
    ensures LoadSum(bs, tps, x, w) ==
              LoadSum(bs, tps[..|tps| - 1], x, w) + Weight(w, tps[|tps| - 1]) * ReplicaCount(tps[|tps| - 1], bs, x)
    decreases |bs|
  {
    if |bs| > 0 {
      var init, tp := bs[..|bs| - 1], tps[|tps| - 1];
      LoadSumSplit(init, tps, x, w);
      var wt, v := Weight(w, tp), Val(x, Slot(tp, bs[|bs| - 1]));
      assert wt * (ReplicaCount(tp, init, x) + v) == wt * ReplicaCount(tp, init, x) + wt * v;
    }
  }

  lemma {:induction false} LoadSumIsPartitionMass(bs: seq<Broker>, tps: seq<TP>, x: map<Slot, int>, w: map<TP, nat>)
    ensures LoadSum(bs, tps, x, w) == PartitionMass(tps, bs, x, w)
    decreases |tps|
  {
    if |tps| > 0 {
      LoadSumSplit(bs, tps, x, w);
      LoadSumIsPartitionMass(bs, tps[..|tps| - 1], x, w);
    } else {
      LoadSumEmpty(bs, tps, x, w);
    }
  }

  lemma {:induction false} LoadSumEmpty(bs: seq<Broker>, tps: seq<TP>, x: map<Slot, int>, w: map<TP, nat>)
    requires |tps| == 0
    ensures LoadSum(bs, tps, x, w) == 0
    decreases |bs|
  {
    if |bs| > 0 {
      LoadSumEmpty(bs[..|bs| - 1], tps, x, w);
    }
  }

  /** The C3 loads of all brokers add up to the C1 mass: every weighted slot value is
      counted once, in its broker's load. */
  lemma LoadsSumToMass(c: Config, x: map<Slot, int>)
    requires c.tpbs == Product(c.tps, c.brokers)
    ensures LoadSum(c.brokers, c.tps, x, c.weights) == Mass(c.tpbs, x, c.weights)
  {
    LoadSumIsPartitionMass(c.brokers, c.tps, x, c.weights);
    MassOfProduct(c.tps, c.brokers, x, c.weights);
  }

  /** Loads that each lie in [lo, hi] sum to a total in [|bs| * lo, |bs| * hi]. */
  lemma {:induction false} LoadSumBounds(bs: seq<Broker>, tps: seq<TP>, x: map<Slot, int>, w: map<TP, nat>, lo: int, hi: int)
    requires forall j :: 0 <= j < |bs| ==> lo <= Load(bs[j], tps, x, w) <= hi
    ensures |bs| * lo <= LoadSum(bs, tps, x, w) <= |bs| * hi
    decreases |bs|
  {
    if |bs| > 0 {
      var init := bs[..|bs| - 1];
      assert forall j :: 0 <= j < |init| ==> init[j] == bs[j];
      LoadSumBounds(init, tps, x, w, lo, hi);
      assert lo <= Load(bs[|bs| - 1], tps, x, w) <= hi;
      assert |init| * lo + lo == |bs| * lo;
      assert |init| * hi + hi == |bs| * hi;
    }
  }

  /** C3 and C1 together: a feasible assignment exists only if the current total
      weight lies between |brokers| * loadMin and |brokers| * loadMax. */
  lemma FeasibleBandBounds(c: Config, x: map<Slot, int>)
    requires c.tpbs == Product(c.tps, c.brokers)
    requires MassConserved(c, x) && LoadsBalanced(c, x)
    ensures |c.brokers| * c.loadMin <= c.totalWeight <= |c.brokers| * c.loadMax
  {
    forall j | 0 <= j < |c.brokers|
      ensures c.loadMin <= Load(c.brokers[j], c.tps, x, c.weights) <= c.loadMax
    {
      assert LoadWithinBounds(c, Load(c.brokers[j], c.tps, x, c.weights));
    }
    LoadSumBounds(c.brokers, c.tps, x, c.weights, c.loadMin, c.loadMax);
    LoadsSumToMass(c, x);
  }

  // ---------------------------------------------------------------------------
  // The objective

  /** For 0/1 values the linear objective of lines 71-76 counts each slot whose value
      changes with its partition's weight, and every other slot with 0. */
  lemma {:induction false} MoveSumIsDiffWeight(slots: seq<Slot>, cur: map<Slot, int>, x: map<Slot, int>, w: map<TP, nat>)
    requires forall k :: 0 <= k < |slots| ==> 0 <= Val(cur, slots[k]) <= 1 && 0 <= Val(x, slots[k]) <= 1
    ensures MoveSum(slots, cur, x, w) == DiffWeight(slots, cur, x, w)
    decreases |slots|
  {
    if |slots| > 0 {
      var s := slots[|slots| - 1];
      MoveSumIsDiffWeight(slots[..|slots| - 1], cur, x, w);
      assert 0 <= Val(cur, s) <= 1 && 0 <= Val(x, s) <= 1;
    }
  }

  lemma {:induction false} DiffWeightZeroIff(slots: seq<Slot>, cur: map<Slot, int>, x: map<Slot, int>, w: map<TP, nat>)
    ensures DiffWeight(slots, cur, x, w) == 0 <==>
              forall k :: 0 <= k < |slots| && Weight(w, slots[k].tp) > 0 ==> Val(cur, slots[k]) == Val(x, slots[k])
    decreases |slots|
  {
    if |slots| > 0 {
      var init := slots[..|slots| - 1];
      DiffWeightZeroIff(init, cur, x, w);
      assert forall k :: 0 <= k < |init| ==> init[k] == slots[k];
    }
  }

  /** The movement of a binary assignment is never negative, and it is 0 exactly when
      every slot of positive weight keeps its current value. */
  lemma MovementZeroIff(c: Config, x: map<Slot, int>)
    requires WellFormed(c) && Binary(c, x)
    ensures Movement(c, x) >= 0.0
    ensures Movement(c, x) == 0.0 <==>
              forall k :: 0 <= k < |c.tpbs| && Weight(c.weights, c.tpbs[k].tp) > 0 ==>
                c.current[c.tpbs[k]] == x[c.tpbs[k]]
  {
    MoveSumIsDiffWeight(c.tpbs, c.current, x, c.weights);
    DiffWeightZeroIff(c.tpbs, c.current, x, c.weights);
  }

  // ---------------------------------------------------------------------------
  // Feasibility

  /** Without an override, C2 implies C1: keeping every partition's replica count keeps
      the weighted mass. */
  lemma NoOverrideC2ImpliesC1(c: Config, x: map<Slot, int>)
    requires WellFormed(c) && c.newReplicationFactor <= 0
    requires ReplicationFactorsHold(c, x)
    ensures MassConserved(c, x)
  {
    var tps, bs, w := c.tps, c.brokers, c.weights;
    forall i | 0 <= i < |tps| ensures ReplicaCount(tps[i], bs, x) == ReplicaCount(tps[i], bs, c.current) {
      assert TargetReplicas(c, tps[i]) == ReplicaCount(tps[i], bs, c.current);
    }
    forall k | 0 <= k < |c.tpbs| ensures 0 <= Val(c.current, c.tpbs[k]) <= 1 {
    }
    calc {
      Mass(c.tpbs, x, w);
    == { MassOfProduct(tps, bs, x, w); }
      PartitionMass(tps, bs, x, w);
    == { PartitionMassCongruent(tps, bs, x, c.current, w); }
      PartitionMass(tps, bs, c.current, w);
    == { MassOfProduct(tps, bs, c.current, w); }
      Mass(c.tpbs, c.current, w);
    == { CurrentMassIsMass(c.tpbs, c.current, w); }
      c.totalWeight;
    }
  }

  /** With an override, C2 fixes the proposed mass at rf times the total partition
      weight, while C1 still asks for the current mass: the two agree only when the
      override keeps the total, so changing the replication factor of unweighted
      partitions whose total it changes leaves no feasible assignment. */
  lemma OverrideFixesMass(c: Config, x: map<Slot, int>)
    requires WellFormed(c) && c.newReplicationFactor > 0
    requires ReplicationFactorsHold(c, x)
    ensures Mass(c.tpbs, x, c.weights) == c.newReplicationFactor * WeightSum(c.tps, c.weights)
    ensures MassConserved(c, x) <==> c.totalWeight == c.newReplicationFactor * WeightSum(c.tps, c.weights)
  {
    MassOfProduct(c.tps, c.brokers, x, c.weights);
    PartitionMassUniform(c.tps, c.brokers, x, c.weights, c.newReplicationFactor);
  }

  /** With an override, a feasible assignment places exactly the total_replicas of
      the corrected line 185: |tps| * rf replicas. */
  lemma OverridePlacesTotalReplicas(parts: seq<PartitionEntry>, c: Config, x: map<Slot, int>)
    requires WellFormed(c) && c.newReplicationFactor > 0
    requires c.totalReplicas == TotalReplicas(c.newReplicationFactor, |c.tps|, parts)
    requires ReplicationFactorsHold(c, x)
    ensures Mass(c.tpbs, x, UnitWeights(c.tps)) == c.totalReplicas
  {
    var rf, tps, bs, u := c.newReplicationFactor, c.tps, c.brokers, UnitWeights(c.tps);
    forall i | 0 <= i < |tps| ensures ReplicaCount(tps[i], bs, x) == rf {
      assert TargetReplicas(c, tps[i]) == rf;
    }
    calc {
      Mass(c.tpbs, x, u);
    == { MassOfProduct(tps, bs, x, u); }
      PartitionMass(tps, bs, x, u);
    == { PartitionMassUniform(tps, bs, x, u, rf); }
      rf * WeightSum(tps, u);
    == { WeightSumUnit(tps, tps); }
      rf * |tps|;
    }
  }

  /** Without an override, the current assignment is feasible with movement 0 when its
      loads already lie in the band and every pin names a current replica. */
  lemma CurrentFeasible(c: Config)
    requires WellFormed(c) && c.newReplicationFactor <= 0
    requires LoadsBalanced(c, c.current)
    requires forall s :: s in c.pinned ==> c.current[s] == 1
    ensures Feasible(c, c.current)
    ensures Movement(c, c.current) == 0.0
  {
    CurrentMassIsMass(c.tpbs, c.current, c.weights);
    MovementZeroIff(c, c.current);
  }

  /** Feeding a feasible current assignment back in: every optimal solution moves nothing. */
  lemma OptimalMovesNothing(c: Config, x: map<Slot, int>)
    requires WellFormed(c) && Optimal(c, x) && Feasible(c, c.current)
    ensures Movement(c, x) == 0.0
  {
    MovementZeroIff(c, x);
    MovementZeroIff(c, c.current);
    assert Movement(c, c.current) == 0.0;
  }
}
