/** ReassignmentOptimizerConfig.__init__: turns the parsed input document into the
    canonical problem specification (sorted brokers and partition keys, the slot
    list, the current 0/1 assignment, pins, weights, total mass and balance bounds). */
module SpecBuilder {
  import opened Ordering
  import opened Types

  /** BALANCE_MIN_FACTOR and BALANCE_MAX_FACTOR, 0.9 and 1.1. */
  const DefaultMinFactor: Ratio := Ratio(9, 10)
  const DefaultMaxFactor: Ratio := Ratio(11, 10)

  // ---------------------------------------------------------------------------
  // Slot lists

  /** The (topic, partition) pairs of the input entries, in input order. */
  function InputTps(parts: seq<PartitionEntry>): seq<TP> {
    seq(|parts|, k requires 0 <= k < |parts| => TP(parts[k].topic, parts[k].partition))
  }

  /** The slots of one partition, one per broker, in broker-list order. */
  function Row(tp: TP, bs: seq<Broker>): seq<Slot> {
    seq(|bs|, j requires 0 <= j < |bs| => Slot(tp, bs[j]))
  }

  /** tps x brokers, partition-major: the order in which the nested loops append. */
  function Product(tps: seq<TP>, bs: seq<Broker>): seq<Slot>
    decreases |tps|
  {
    if |tps| == 0 then [] else Product(tps[..|tps| - 1], bs) + Row(tps[|tps| - 1], bs)
  }

  lemma {:induction false} ProductLength(tps: seq<TP>, bs: seq<Broker>)
    ensures |Product(tps, bs)| == |tps| * |bs|
    decreases |tps|
  {
    if |tps| > 0 {
      ProductLength(tps[..|tps| - 1], bs);
      assert (|tps| - 1) * |bs| + |bs| == |tps| * |bs|;
    }
  }

  /** Slot number i * |bs| + j is partition i on broker j. */
  lemma {:induction false} ProductAt(tps: seq<TP>, bs: seq<Broker>, i: int, j: int)
    requires 0 <= i < |tps| && 0 <= j < |bs|
    ensures i * |bs| + j < |Product(tps, bs)|
    ensures Product(tps, bs)[i * |bs| + j] == Slot(tps[i], bs[j])
    decreases |tps|
  {
    var n, m := |tps|, |bs|;
    var init := tps[..n - 1];
    var p, row := Product(init, bs), Row(tps[n - 1], bs);
    ProductLength(init, bs);
    assert |p| == (n - 1) * m;
    assert Product(tps, bs) == p + row;
    if i < n - 1 {
      ProductAt(init, bs, i, j);
      assert i * m + j < |p|;
      assert (p + row)[i * m + j] == p[i * m + j];
    } else {
      assert i * m == |p|;
      assert (p + row)[|p| + j] == row[j];
    }
  }

  /** A slot is in the product exactly when its partition and its broker are listed. */
  lemma {:induction false} ProductMember(tps: seq<TP>, bs: seq<Broker>, s: Slot)
    ensures s in Product(tps, bs) <==> s.tp in tps && s.broker in bs
    decreases |tps|
  {
    if |tps| > 0 {
      var init := tps[..|tps| - 1];
      ProductMember(init, bs, s);
      assert tps == init + [tps[|tps| - 1]];
      var row := Row(tps[|tps| - 1], bs);
      if s in row {
        var j :| 0 <= j < |row| && row[j] == s;
        assert bs[j] == s.broker;
      }
      if s.tp == tps[|tps| - 1] && s.broker in bs {
        var j :| 0 <= j < |bs| && bs[j] == s.broker;
        assert row[j] == s;
      }
    }
  }

  /** With duplicate-free sorted partition keys and strictly ascending brokers, the
      slot list is strictly ascending in (partition key, broker) order. */
  lemma {:induction false} ProductAscending(tps: seq<TP>, bs: seq<Broker>)
    requires Sorted(tps, TpLe) && Distinct(tps) && StrictlyAscending(bs)
    ensures forall k1, k2 :: 0 <= k1 < k2 < |Product(tps, bs)| ==>
              SlotLt(Product(tps, bs)[k1], Product(tps, bs)[k2])
    decreases |tps|
  {
    if |tps| > 0 {
      var last := tps[|tps| - 1];
      var init := tps[..|tps| - 1];
      ProductAscending(init, bs);
      var p := Product(init, bs);
      var row := Row(last, bs);
      assert Product(tps, bs) == p + row;
      forall k1, k2 | 0 <= k1 < k2 < |p + row| ensures SlotLt((p + row)[k1], (p + row)[k2]) {
        if k1 < |p| && k2 >= |p| {
          var a := p[k1];
          ProductMember(init, bs, a);
          var i :| 0 <= i < |init| && init[i] == a.tp;
          assert TpLe(tps[i], tps[|tps| - 1]) && tps[i] != tps[|tps| - 1];
          assert (p + row)[k2].tp == last;
        }
      }
    }
  }

  /** The nested loops of lines 165-171: for each partition key, for each broker of
      sorted(brokers), append the slot. */
  method BuildSlots(tps: seq<TP>, brokers: seq<Broker>) returns (tpbs: seq<Slot>)
    ensures tpbs == Product(tps, Sort(brokers, IntLe))
  {
    var inner := Sort(brokers, IntLe);
    tpbs := [];
    var i := 0;
    while i < |tps|
      invariant 0 <= i <= |tps|
      invariant tpbs == Product(tps[..i], inner)
    {
      var j := 0;
      while j < |inner|
        invariant 0 <= j <= |inner|
        invariant tpbs == Product(tps[..i], inner) + Row(tps[i], inner[..j])
      {
        assert Row(tps[i], inner[..j + 1]) == Row(tps[i], inner[..j]) + [Slot(tps[i], inner[j])];
        tpbs := tpbs + [Slot(tps[i], inner[j])];
        j := j + 1;
      }
      assert inner[..j] == inner;
      assert tps[..i + 1][..i] == tps[..i];
      i := i + 1;
    }
    assert tps[..|tps|] == tps;
  }

  // ---------------------------------------------------------------------------
  // Current assignment

  /** Broker s.broker appears in the input replica list of an entry for s's partition. */
  predicate Listed(parts: seq<PartitionEntry>, s: Slot) {
    exists k :: 0 <= k < |parts| && TP(parts[k].topic, parts[k].partition) == s.tp
                && s.broker in parts[k].replicas
  }

  function ListedSlots(parts: seq<PartitionEntry>): set<Slot> {
    set k, r | 0 <= k < |parts| && r in parts[k].replicas :: Slot(TP(parts[k].topic, parts[k].partition), r)
  }

  /** The dictionary of line 177: 1 for every (topic, partition, replica) of the input. */
  function ListedAssignment(parts: seq<PartitionEntry>): map<Slot, int> {
    map s | s in ListedSlots(parts) :: 1
  }

  lemma ListedSlotsIff(parts: seq<PartitionEntry>, s: Slot)
    ensures s in ListedSlots(parts) <==> Listed(parts, s)
  {
    if Listed(parts, s) {
      var k :| 0 <= k < |parts| && TP(parts[k].topic, parts[k].partition) == s.tp
               && s.broker in parts[k].replicas;
      assert Slot(TP(parts[k].topic, parts[k].partition), s.broker) == s;
    }
  }

  /** Lines 177-181: the current assignment is defined on every slot, and is 1 exactly
      on the slots whose broker is listed for that partition in the input. Replicas
      listed on brokers outside the broker list keep their entry (value 1) too. */
  method BuildCurrentAssignment(parts: seq<PartitionEntry>, tpbs: seq<Slot>) returns (cur: map<Slot, int>)
    ensures forall k :: 0 <= k < |tpbs| ==> tpbs[k] in cur
    ensures forall s :: s in cur <==> s in tpbs || Listed(parts, s)
    ensures forall s :: s in cur ==> cur[s] == (if Listed(parts, s) then 1 else 0)
  {
    cur := ListedAssignment(parts);
    forall s ensures s in ListedSlots(parts) <==> Listed(parts, s) {
      ListedSlotsIff(parts, s);
    }
    var i := 0;
    while i < |tpbs|
      invariant 0 <= i <= |tpbs|
      invariant forall s :: s in cur <==> s in tpbs[..i] || Listed(parts, s)
      invariant forall s :: s in cur ==> cur[s] == (if Listed(parts, s) then 1 else 0)
    {
      if tpbs[i] !in cur {
        cur := cur[tpbs[i] := 0];
      }
      assert tpbs[..i + 1] == tpbs[..i] + [tpbs[i]];
      i := i + 1;
    }
    assert tpbs[..|tpbs|] == tpbs;
  }

  // ---------------------------------------------------------------------------
  // Pins

  function PinSlot(p: PinEntry): Slot {
    Slot(TP(p.topic, p.partition), p.replica)
  }

  /** Some entry of the pin list names slot s. */
  predicate Requested(pins: seq<PinEntry>, s: Slot) {
    exists k :: 0 <= k < |pins| && PinSlot(pins[k]) == s
  }

  /** Lines 189-201 with the evident intent: a pin is kept when it names a slot of the
      problem and dropped otherwise; repeated pins collapse to one. */
  method BuildPins(pins: seq<PinEntry>, tpbs: seq<Slot>) returns (pinned: set<Slot>)
    ensures forall s :: s in pinned <==> s in tpbs && Requested(pins, s)
  {
    pinned := {};
    var k := 0;
    while k < |pins|
      invariant 0 <= k <= |pins|
      invariant forall s :: s in pinned <==> s in tpbs && Requested(pins[..k], s)
    {
      var s := PinSlot(pins[k]);
      if s !in pinned {
        if s in tpbs {
          pinned := pinned + {s};
        }
        // otherwise the pin names a broker outside the problem and is dropped
      }
      forall t ensures Requested(pins[..k + 1], t) <==> Requested(pins[..k], t) || t == s {
        if Requested(pins[..k + 1], t) && t != s {
          var j :| 0 <= j < k + 1 && PinSlot(pins[..k + 1][j]) == t;
          assert pins[..k][j] == pins[..k + 1][j];
        }
        if Requested(pins[..k], t) {
          var j :| 0 <= j < k && PinSlot(pins[..k][j]) == t;
          assert pins[..k + 1][j] == pins[..k][j];
        }
        assert pins[..k + 1][k] == pins[k];
      }
      k := k + 1;
    }
    assert pins[..|pins|] == pins;
  }

  /** Lines 189-201 as written: the warning for a dropped pin has four placeholders and
      three arguments, so formatting it raises and the run fails. */
  function PinsAsWritten(pins: seq<PinEntry>, tpbs: seq<Slot>): Result<set<Slot>, ConfigError>
    decreases |pins|
  {
    if |pins| == 0 then Success({})
    else
      match PinsAsWritten(pins[..|pins| - 1], tpbs)
      case Failure(e) => Failure(e)
      case Success(acc) =>
        var s := PinSlot(pins[|pins| - 1]);
        if s in acc then Success(acc)
        else if s in tpbs then Success(acc + {s})
        else Failure(PinWarningFormat)
  }

  /** As written, the run fails exactly when some pin would be dropped; otherwise every
      requested pin is kept. */
  lemma {:induction false} PinsAsWrittenFailsOnDrop(pins: seq<PinEntry>, tpbs: seq<Slot>)
    ensures PinsAsWritten(pins, tpbs).Failure? <==>
              exists k :: 0 <= k < |pins| && PinSlot(pins[k]) !in tpbs
    ensures PinsAsWritten(pins, tpbs).Success? ==>
              forall s :: s in PinsAsWritten(pins, tpbs).value <==> Requested(pins, s)
    decreases |pins|
  {
    if |pins| > 0 {
      var init := pins[..|pins| - 1];
      var last := pins[|pins| - 1];
      PinsAsWrittenFailsOnDrop(init, tpbs);
      assert forall k :: 0 <= k < |init| ==> init[k] == pins[k];
      if PinsAsWritten(init, tpbs).Failure? {
        var k :| 0 <= k < |init| && PinSlot(init[k]) !in tpbs;
        assert PinSlot(pins[k]) !in tpbs;
      } else if PinSlot(last) !in tpbs {
        assert PinSlot(pins[|pins| - 1]) !in tpbs;
      } else {
        forall s ensures Requested(pins, s) <==> Requested(init, s) || s == PinSlot(last) {
          if Requested(pins, s) && s != PinSlot(last) {
            var j :| 0 <= j < |pins| && PinSlot(pins[j]) == s;
            assert PinSlot(init[j]) == s;
          }
        }
        forall k | 0 <= k < |pins| ensures PinSlot(pins[k]) in tpbs {
          if k < |init| {
            assert PinSlot(init[k]) == PinSlot(pins[k]);
          }
        }
      }
    }
  }

  /** A pin on a broker removed from the broker list: the code as written fails where
      the intended behaviour drops the pin. */
  lemma DroppedPinFailsAsWritten()
    ensures PinsAsWritten([PinEntry("t1", 0, 4)], [Slot(TP("t1", 0), 1)]).Failure?
  {
    PinsAsWrittenFailsOnDrop([PinEntry("t1", 0, 4)], [Slot(TP("t1", 0), 1)]);
    assert PinSlot([PinEntry("t1", 0, 4)][0]) !in [Slot(TP("t1", 0), 1)];
  }

  // ---------------------------------------------------------------------------
  // Partition weights

  function WeightTp(e: WeightEntry): TP {
    TP(e.topic, e.partition)
  }

  /** The weight of the first entry of ws for partition tp, if any. */
  function FirstWeight(ws: seq<WeightEntry>, tp: TP): Option<nat>
    decreases |ws|
  {
    if |ws| == 0 then None
    else
      match FirstWeight(ws[..|ws| - 1], tp)
      case Some(v) => Some(v)
      case None => if WeightTp(ws[|ws| - 1]) == tp then Some(ws[|ws| - 1].weight) else None
  }

  /** FirstWeight finds a weight exactly when some entry names the partition, and then
      it is the weight of the earliest such entry. */
  lemma {:induction false} FirstWeightIsFirst(ws: seq<WeightEntry>, tp: TP)
    ensures FirstWeight(ws, tp).Some? <==> exists k :: 0 <= k < |ws| && WeightTp(ws[k]) == tp
    ensures forall k :: (0 <= k < |ws| && WeightTp(ws[k]) == tp &&
                         (forall j :: 0 <= j < k ==> WeightTp(ws[j]) != tp)) ==>
              FirstWeight(ws, tp) == Some(ws[k].weight)
    decreases |ws|
  {
    if |ws| > 0 {
      var init := ws[..|ws| - 1];
      FirstWeightIsFirst(init, tp);
      assert forall k :: 0 <= k < |init| ==> init[k] == ws[k];
      if FirstWeight(init, tp).None? {
        assert forall k :: 0 <= k < |init| ==> WeightTp(ws[k]) != tp;
      } else {
        var k0 :| 0 <= k0 < |init| && WeightTp(init[k0]) == tp;
        assert WeightTp(ws[k0]) == tp;
      }
    }
  }

  /** Lines 203-217: without partition_weights every partition weighs 1; with it, only
      partitions of the problem get a weight, the first entry for a partition winning. */
  method BuildWeights(ws: Option<seq<WeightEntry>>, tps: seq<TP>) returns (w: map<TP, nat>)
    ensures ws.None? ==> forall tp :: (tp in w <==> tp in tps) && (tp in w ==> w[tp] == 1)
    ensures ws.Some? ==> forall tp ::
              (tp in w <==> tp in tps && FirstWeight(ws.value, tp).Some?) &&
              (tp in w ==> FirstWeight(ws.value, tp) == Some(w[tp]))
  {
    w := map[];
    if ws.Some? {
      var entries := ws.value;
      var k := 0;
      while k < |entries|
        invariant 0 <= k <= |entries|
        invariant forall tp :: tp in w <==> tp in tps && FirstWeight(entries[..k], tp).Some?
        invariant forall tp :: tp in w ==> FirstWeight(entries[..k], tp) == Some(w[tp])
      {
        var tp := WeightTp(entries[k]);
        if tp !in w {
          if tp in tps {
            w := w[tp := entries[k].weight];
          }
        }
        assert entries[..k + 1][..k] == entries[..k];
        k := k + 1;
      }
      assert entries[..|entries|] == entries;
    } else {
      var i := 0;
      while i < |tps|
        invariant 0 <= i <= |tps|
        invariant forall tp :: (tp in w <==> tp in tps[..i]) && (tp in w ==> w[tp] == 1)
      {
        w := w[tps[i] := 1];
        assert tps[..i + 1] == tps[..i] + [tps[i]];
        i := i + 1;
      }
      assert tps[..|tps|] == tps;
    }
  }

  // ---------------------------------------------------------------------------
  // Balance factors

  /** Lines 219-230 with the evident intent: a missing factor takes its default. */
  function Factors(bp: Option<BalanceParameters>): (Ratio, Ratio) {
    match bp
    case None => (DefaultMinFactor, DefaultMaxFactor)
    case Some(p) =>
      (if p.minFactor.Some? then p.minFactor.value else DefaultMinFactor,
       if p.maxFactor.Some? then p.maxFactor.value else DefaultMaxFactor)
  }

  /** Lines 219-230 as written: without min_factor the else branch sets the max factor,
      the min factor stays unset and line 237 fails. */
  function FactorsAsWritten(bp: Option<BalanceParameters>): Result<(Ratio, Ratio), ConfigError> {
    match bp
    case None => Success((DefaultMinFactor, DefaultMaxFactor))
    case Some(p) =>
      if p.minFactor.None? then Failure(MinFactorUnset)
      else Success((p.minFactor.value, if p.maxFactor.Some? then p.maxFactor.value else DefaultMaxFactor))
  }

  /** The code as written fails exactly when balance_parameters lacks min_factor, and
      agrees with Factors otherwise. */
  lemma FactorsAsWrittenFailsWithoutMin(bp: Option<BalanceParameters>)
    ensures FactorsAsWritten(bp).Failure? <==> bp.Some? && bp.value.minFactor.None?
    ensures FactorsAsWritten(bp).Success? ==> FactorsAsWritten(bp).value == Factors(bp)
  {
  }

  // ---------------------------------------------------------------------------
  // Totals and balance bounds

  /** Line 187: the number of replicas listed in the input. */
  function ListedReplicaTotal(parts: seq<PartitionEntry>): nat
    decreases |parts|
  {
    if |parts| == 0 then 0
    else ListedReplicaTotal(parts[..|parts| - 1]) + |parts[|parts| - 1].replicas|
  }

  /** Lines 183-187 with the evident intent: with an override every partition gets
      `rf` replicas. */
  function TotalReplicas(rf: int, partitionCount: nat, parts: seq<PartitionEntry>): nat {
    if rf > 0 then partitionCount * rf else ListedReplicaTotal(parts)
  }

  /** Lines 183-187 as written: line 185 names `total_partitions` and
      `new_replication_factor` without `self.`, which raises whenever an override is given. */
  function TotalReplicasAsWritten(rf: int, parts: seq<PartitionEntry>): Result<nat, ConfigError> {
    if rf > 0 then Failure(UnboundName) else Success(ListedReplicaTotal(parts))
  }

  lemma TotalReplicasAsWrittenFailsOnOverride(rf: int, parts: seq<PartitionEntry>)
    ensures TotalReplicasAsWritten(rf, parts).Failure? <==> rf > 0
    ensures rf <= 0 ==> TotalReplicasAsWritten(rf, parts) == Success(TotalReplicas(rf, |parts|, parts))
  {
  }

  /** Lines 232-235: the weights of the slots whose current value is 1. */
  function CurrentMass(slots: seq<Slot>, cur: map<Slot, int>, w: map<TP, nat>): nat
    decreases |slots|
  {
    if |slots| == 0 then 0
    else
      var s := slots[|slots| - 1];
      CurrentMass(slots[..|slots| - 1], cur, w) + (if Val(cur, s) == 1 then Weight(w, s.tp) else 0)
  }

  /** The loop of lines 232-235. */
  method ComputeTotalWeight(tpbs: seq<Slot>, cur: map<Slot, int>, w: map<TP, nat>) returns (total: nat)
    requires forall k :: 0 <= k < |tpbs| ==> tpbs[k] in cur
    requires forall k :: 0 <= k < |tpbs| && cur[tpbs[k]] == 1 ==> tpbs[k].tp in w
    ensures total == CurrentMass(tpbs, cur, w)
  {
    total := 0;
    var i := 0;
    while i < |tpbs|
      invariant 0 <= i <= |tpbs|
      invariant total == CurrentMass(tpbs[..i], cur, w)
    {
      var s := tpbs[i];
      if cur[s] == 1 {
        total := total + w[s.tp];
      }
      assert tpbs[..i + 1][..i] == tpbs[..i];
      i := i + 1;
    }
    assert tpbs[..|tpbs|] == tpbs;
  }

  lemma PosProduct(a: Pos, b: Pos)
    ensures a * b > 0
  {
  }

  /** floor(n / d) for d > 0. */
  function FloorDiv(n: int, d: Pos): (q: int)
    ensures q * d <= n < q * d + d
  {
    n / d
  }

  /** ceil(n / d) for d > 0. */
  function CeilDiv(n: int, d: Pos): (q: int)
    ensures q * d - d < n <= q * d
  {
    (n + d - 1) / d
  }

  /** Line 237: floor(total / brokerCount * f), exactly. */
  function LoadMin(total: nat, brokerCount: Pos, f: Ratio): (r: int)
    ensures r * (brokerCount * f.den) <= total * f.num < (r + 1) * (brokerCount * f.den)
  {
    PosProduct(brokerCount, f.den);
    FloorDiv(total * f.num, brokerCount * f.den)
  }

  /** Line 238: ceil(total / brokerCount * f), exactly. */
  function LoadMax(total: nat, brokerCount: Pos, f: Ratio): (r: int)
    ensures (r - 1) * (brokerCount * f.den) < total * f.num <= r * (brokerCount * f.den)
  {
    PosProduct(brokerCount, f.den);
    CeilDiv(total * f.num, brokerCount * f.den)
  }

  lemma MulLe(a: int, b: int, c: int)
    requires a <= b && c >= 0
    ensures a * c <= b * c
  {
  }

  lemma MulLeLeft(a: int, b: int, c: int)
    requires a <= b && c >= 0
    ensures c * a <= c * b
  {
  }

  lemma MulAssoc(a: int, b: int, c: int)
    ensures (a * b) * c == a * (b * c)
  {
  }

  lemma MulSwap(a: int, b: int, c: int)
    ensures (a * b) * c == (a * c) * b
  {
  }

  /** From a * K <= b * K with K > 0 follows a <= b. */
  lemma MulCancel(a: int, b: int, k: int)
    requires a * k <= b * k && k > 0
    ensures a <= b
  {
    if a > b {
      MulLe(b + 1, a, k);
    }
  }

  /** The arithmetic core of BoundsOrdered: lo <= t * n1 / (n * d1) and
      t * n2 / (n * d2) <= hi with n1 / d1 <= n2 / d2 give lo <= hi. */
  lemma BandArithmetic(lo: int, hi: int, t: nat, n: Pos, n1: nat, d1: Pos, n2: nat, d2: Pos)
    requires lo * (n * d1) <= t * n1
    requires t * n2 <= hi * (n * d2)
    requires n1 * d2 <= n2 * d1
    ensures lo <= hi
  {
    var k := (n * d1) * d2;
    MulLe(lo * (n * d1), t * n1, d2);
    MulAssoc(lo, n * d1, d2);
    MulAssoc(t, n1, d2);
    MulLeLeft(n1 * d2, n2 * d1, t);
    MulAssoc(t, n2, d1);
    MulLe(t * n2, hi * (n * d2), d1);
    MulAssoc(hi, n * d2, d1);
    MulSwap(n, d2, d1);
    assert lo * k <= hi * k;
    PosProduct(n, d1);
    PosProduct(n * d1, d2);
    MulCancel(lo, hi, k);
  }

  /** The band is never empty when min_factor <= max_factor. */
  lemma BoundsOrdered(total: nat, brokerCount: Pos, fmin: Ratio, fmax: Ratio)
    requires fmin.num * fmax.den <= fmax.num * fmin.den
    ensures LoadMin(total, brokerCount, fmin) <= LoadMax(total, brokerCount, fmax)
  {
    var lo, hi := LoadMin(total, brokerCount, fmin), LoadMax(total, brokerCount, fmax);
    BandArithmetic(lo, hi, total, brokerCount, fmin.num, fmin.den, fmax.num, fmax.den);
  }

  /** The corrected factors without min_factor: the lower factor is the default 0.9,
      and the band is never empty while the given max_factor is at least 0.9. */
  lemma MissingMinFactorDefaults(bp: Option<BalanceParameters>, total: nat, brokerCount: Pos)
    requires bp.Some? && bp.value.minFactor.None?
    requires bp.value.maxFactor.Some? ==>
               DefaultMinFactor.num * bp.value.maxFactor.value.den <= bp.value.maxFactor.value.num * DefaultMinFactor.den
    ensures Factors(bp).0 == DefaultMinFactor
    ensures LoadMin(total, brokerCount, Factors(bp).0) <= LoadMax(total, brokerCount, Factors(bp).1)
  {
    BoundsOrdered(total, brokerCount, Factors(bp).0, Factors(bp).1);
  }

  /** With one factor f for both bounds, floor and ceiling coincide exactly when
      total * f is a whole multiple of brokerCount; otherwise they differ and C3 is a band. */
  lemma BandCollapsesIff(total: nat, brokerCount: Pos, f: Ratio)
    ensures LoadMin(total, brokerCount, f) == LoadMax(total, brokerCount, f) <==>
              (total * f.num) % (brokerCount * f.den) == 0
  {
    PosProduct(brokerCount, f.den);
  }

  /** Factors 1.0/1.0 need not force exact balance: with total 3 on 2 brokers the
      band is [1, 2], so an odd total still admits a solution. */
  lemma UnitFactorsBand()
    ensures LoadMin(3, 2, Ratio(1, 1)) == 1 && LoadMax(3, 2, Ratio(1, 1)) == 2
  {
  }

  // ---------------------------------------------------------------------------
  // The whole builder

  /** The override of line 156: the given value, or -1 when the key is absent. */
  function RequestedFactor(input: Input): int {
    if input.newReplicationFactor.Some? then input.newReplicationFactor.value else -1
  }

  function PinsOf(input: Input): seq<PinEntry> {
    if input.pinnedReplicas.Some? then input.pinnedReplicas.value else []
  }

  /** Every input partition has a weight: partition_weights is absent, or lists it. */
  predicate WeightsCover(input: Input) {
    input.partitionWeights.None? ||
    forall k :: 0 <= k < |input.partitions| ==>
      FirstWeight(input.partitionWeights.value, TP(input.partitions[k].topic, input.partitions[k].partition)).Some?
  }

  /** The internal consistency of a specification that the formulation relies on. */
  ghost predicate WellFormed(c: Config) {
    && |c.brokers| > 0
    && c.tpbs == Product(c.tps, c.brokers)
    && (forall k :: 0 <= k < |c.tpbs| ==>
          c.tpbs[k] in c.current && (c.current[c.tpbs[k]] == 0 || c.current[c.tpbs[k]] == 1))
    && (forall i :: 0 <= i < |c.tps| ==> c.tps[i] in c.weights)
    && (forall s :: s in c.pinned ==> s in c.tpbs)
    && c.totalWeight == CurrentMass(c.tpbs, c.current, c.weights)
    && c.loadMin == LoadMin(c.totalWeight, |c.brokers|, c.minFactor)
    && c.loadMax == LoadMax(c.totalWeight, |c.brokers|, c.maxFactor)
  }

  /** Every field of c is what __init__ derives from the input document. */
  ghost predicate BuiltFrom(input: Input, c: Config) {
    && c.brokers == Sort(input.brokers, IntLe)
    && c.newReplicationFactor == RequestedFactor(input)
    && c.tps == Sort(InputTps(input.partitions), TpLe)
    && c.tpbs == Product(c.tps, c.brokers)
    && (forall s :: s in c.current <==> s in c.tpbs || Listed(input.partitions, s))
    && (forall s :: s in c.current ==> c.current[s] == (if Listed(input.partitions, s) then 1 else 0))
    && c.totalPartitions == |c.tps|
    && c.totalReplicas == TotalReplicas(c.newReplicationFactor, |c.tps|, input.partitions)
    && (forall s :: s in c.pinned <==> s in c.tpbs && Requested(PinsOf(input), s))
    && (input.partitionWeights.None? ==>
          forall tp :: (tp in c.weights <==> tp in c.tps) && (tp in c.weights ==> c.weights[tp] == 1))
    && (input.partitionWeights.Some? ==>
          forall tp :: (tp in c.weights <==> tp in c.tps && FirstWeight(input.partitionWeights.value, tp).Some?) &&
                       (tp in c.weights ==> FirstWeight(input.partitionWeights.value, tp) == Some(c.weights[tp])))
    && (c.minFactor, c.maxFactor) == Factors(input.balanceParameters)
    && c.totalWeight == CurrentMass(c.tpbs, c.current, c.weights)
    && |c.brokers| > 0
    && c.loadMin == LoadMin(c.totalWeight, |c.brokers|, c.minFactor)
    && c.loadMax == LoadMax(c.totalWeight, |c.brokers|, c.maxFactor)
  }

  lemma WeightsCoverSorted(input: Input, tps: seq<TP>, w: map<TP, nat>)
    requires tps == Sort(InputTps(input.partitions), TpLe)
    requires input.partitionWeights.Some? ==> forall tp ::
               (tp in w <==> tp in tps && FirstWeight(input.partitionWeights.value, tp).Some?)
    requires input.partitionWeights.None? ==> forall tp :: tp in w <==> tp in tps
    ensures (forall i :: 0 <= i < |tps| ==> tps[i] in w) <==> WeightsCover(input)
  {
    var its := InputTps(input.partitions);
    assert forall tp :: tp in tps <==> tp in its by {
      forall tp ensures tp in tps <==> tp in its {
        assert tp in tps <==> tp in multiset(tps);
        assert tp in its <==> tp in multiset(its);
      }
    }
    if input.partitionWeights.Some? {
      var ws := input.partitionWeights.value;
      if forall i :: 0 <= i < |tps| ==> tps[i] in w {
        forall k | 0 <= k < |input.partitions|
          ensures FirstWeight(ws, TP(input.partitions[k].topic, input.partitions[k].partition)).Some?
        {
          var tp := its[k];
          assert tp in tps;
          var i :| 0 <= i < |tps| && tps[i] == tp;
        }
      }
      if WeightsCover(input) {
        forall i | 0 <= i < |tps| ensures tps[i] in w {
          assert tps[i] in its;
          var k :| 0 <= k < |its| && its[k] == tps[i];
          assert FirstWeight(ws, TP(input.partitions[k].topic, input.partitions[k].partition)).Some?;
        }
      }
    }
  }

  /** ReassignmentOptimizerConfig.__init__ (lines 151-238). */
  method BuildConfig(input: Input) returns (r: Result<Config, ConfigError>)
    ensures r.Success? <==> |input.brokers| > 0 && WeightsCover(input)
    ensures |input.brokers| == 0 ==> r == Failure(NoBrokers)
    ensures |input.brokers| > 0 && !WeightsCover(input) ==> r == Failure(MissingWeight)
    ensures r.Success? ==> BuiltFrom(input, r.value) && WellFormed(r.value)
  {
    if |input.brokers| == 0 {
      return Failure(NoBrokers);
    }
    var brokers := Sort(input.brokers, IntLe);
    var rf := RequestedFactor(input);
    var tps := Sort(InputTps(input.partitions), TpLe);
    var tpbs := BuildSlots(tps, brokers);
    IntLeTotalPreorder();
    SortSorted(input.brokers, IntLe);
    SortOfSorted(brokers, IntLe);
    var current := BuildCurrentAssignment(input.partitions, tpbs);
    var pinned := BuildPins(PinsOf(input), tpbs);
    var weights := BuildWeights(input.partitionWeights, tps);
    WeightsCoverSorted(input, tps, weights);
    if !(forall i :: 0 <= i < |tps| ==> tps[i] in weights) {
      return Failure(MissingWeight);
    }
    var factors := Factors(input.balanceParameters);
    forall k | 0 <= k < |tpbs| ensures tpbs[k].tp in weights {
      ProductMember(tps, brokers, tpbs[k]);
      var i :| 0 <= i < |tps| && tps[i] == tpbs[k].tp;
    }
    var total := ComputeTotalWeight(tpbs, current, weights);
    var c := Config(
      brokers := brokers,
      newReplicationFactor := rf,
      tps := tps,
      tpbs := tpbs,
      current := current,
      totalPartitions := |tps|,
      totalReplicas := TotalReplicas(rf, |tps|, input.partitions),
      pinned := pinned,
      weights := weights,
      minFactor := factors.0,
      maxFactor := factors.1,
      totalWeight := total,
      loadMin := LoadMin(total, |brokers|, factors.0),
      loadMax := LoadMax(total, |brokers|, factors.1));
    forall k | 0 <= k < |tpbs| ensures current[tpbs[k]] == 0 || current[tpbs[k]] == 1 {
    }
    r := Success(c);
  }

  /** Lines 155 and 159: brokers and partition keys are sorted permutations of the input. */
  lemma BuiltSorted(input: Input, c: Config)
    requires BuiltFrom(input, c)
    ensures Sorted(c.brokers, IntLe) && multiset(c.brokers) == multiset(input.brokers)
    ensures Sorted(c.tps, TpLe) && multiset(c.tps) == multiset(InputTps(input.partitions))
  {
    IntLeTotalPreorder();
    TpLeTotalPreorder();
    SortSorted(input.brokers, IntLe);
    SortSorted(InputTps(input.partitions), TpLe);
  }

  /** With duplicate-free brokers and partition entries, the brokers are strictly
      ascending and the slot list is strictly ascending in (topic, partition, broker). */
  lemma BuiltSlotsAscending(input: Input, c: Config)
    requires BuiltFrom(input, c)
    requires Distinct(input.brokers) && Distinct(InputTps(input.partitions))
    ensures StrictlyAscending(c.brokers)
    ensures forall k1, k2 :: 0 <= k1 < k2 < |c.tpbs| ==> SlotLt(c.tpbs[k1], c.tpbs[k2])
  {
    SortDistinctAscending(input.brokers);
    TpLeTotalPreorder();
    SortSorted(InputTps(input.partitions), TpLe);
    DistinctPermutation(c.tps, InputTps(input.partitions));
    ProductAscending(c.tps, c.brokers);
  }
}
