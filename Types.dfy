/** The entities of the reassignment problem: partition keys, replica slots,
    the input document and the canonical problem specification. */
module Types {
  import opened Ordering

  datatype Option<T> = None | Some(value: T)

  datatype Result<T, E> = Success(value: T) | Failure(error: E)

  /** A broker id, as parsed from the comma-separated "brokers" field. */
  type Broker = int

  type Pos = n: nat | n > 0 witness 1

  /** A partition key: (topic name, partition index). */
  datatype TP = TP(topic: string, partition: int)

  /** A replica slot: partition `tp` hosted on `broker`. One decision variable per slot. */
  datatype Slot = Slot(tp: TP, broker: Broker)

  /** A balance factor num/den (the source's float min_factor / max_factor, held exactly). */
  datatype Ratio = Ratio(num: nat, den: Pos)

  /** One entry of "partitions"."partitions" in the input document. */
  datatype PartitionEntry = PartitionEntry(topic: string, partition: int, replicas: seq<Broker>)

  /** One entry of the optional "pinned_replicas" list. */
  datatype PinEntry = PinEntry(topic: string, partition: int, replica: Broker)

  /** One entry of the optional "partition_weights" list. */
  datatype WeightEntry = WeightEntry(topic: string, partition: int, weight: nat)

  /** The optional "balance_parameters" object; each factor may be absent. */
  datatype BalanceParameters = BalanceParameters(minFactor: Option<Ratio>, maxFactor: Option<Ratio>)

  /** The parsed input document. A key that is absent is None. */
  datatype Input = Input(
    brokers: seq<Broker>,
    newReplicationFactor: Option<int>,
    partitions: seq<PartitionEntry>,
    pinnedReplicas: Option<seq<PinEntry>>,
    partitionWeights: Option<seq<WeightEntry>>,
    balanceParameters: Option<BalanceParameters>)

  /** Why building the problem specification fails. The last three are the
      source's crashes, kept only by the members that model the code as written. */
  datatype ConfigError =
    | NoBrokers          // division by |brokers| == 0 at the balance bounds
    | MissingWeight      // partition_weights given but some partition has no entry
    | UnboundName        // total_replicas with an override refers to unbound names
    | PinWarningFormat   // the dropped-pin warning has more placeholders than arguments
    | MinFactorUnset     // balance_parameters without min_factor leaves the min factor unset

  /** The canonical problem specification built by ReassignmentOptimizerConfig. */
  datatype Config = Config(
    brokers: seq<Broker>,
    newReplicationFactor: int,
    tps: seq<TP>,
    tpbs: seq<Slot>,
    current: map<Slot, int>,
    totalPartitions: nat,
    totalReplicas: nat,
    pinned: set<Slot>,
    weights: map<TP, nat>,
    minFactor: Ratio,
    maxFactor: Ratio,
    totalWeight: nat,
    loadMin: int,
    loadMax: int)

  /** The (topic, partition) order of line 159: topic first, then partition index. */
  predicate TpLe(x: TP, y: TP) {
    if x.topic == y.topic then x.partition <= y.partition else StrLe(x.topic, y.topic)
  }

  /** The lexicographic order on slots: partition key first, then broker. */
  predicate SlotLt(a: Slot, b: Slot) {
    if a.tp == b.tp then a.broker < b.broker else TpLe(a.tp, b.tp)
  }

  lemma TpLeTotalPreorder()
    ensures TotalPreorder(TpLe)
  {
    forall a: TP, b: TP ensures TpLe(a, b) || TpLe(b, a) {
      StrLeTotal(a.topic, b.topic);
    }
    forall a: TP, b: TP, c: TP | TpLe(a, b) && TpLe(b, c) ensures TpLe(a, c) {
      if a.topic != b.topic && b.topic != c.topic {
        StrLeTransitive(a.topic, b.topic, c.topic);
        if a.topic == c.topic {
          StrLeAntisymmetric(a.topic, b.topic);
        }
      }
    }
  }

  /** The value of slot s in an assignment; 0 where the assignment has no entry. */
  function Val(x: map<Slot, int>, s: Slot): int {
    if s in x then x[s] else 0
  }

  /** The weight of a partition; 0 where the weight map has no entry. */
  function Weight(w: map<TP, nat>, tp: TP): nat {
    if tp in w then w[tp] else 0
  }
}
