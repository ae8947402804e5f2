# kafka-reassign-optimizer, modelled in Dafny

`kafka-reassign-optimizer.py` proposes a new placement of Kafka partition replicas on
a set of brokers. The placement moves as little weighted replica data as possible.
It must keep each partition's replication factor, or use a requested new one. It must
keep every requested pin in place. It must keep every broker's weighted load inside a
band around the mean. The program poses this as a binary integer programme and
leaves the solving to a MILP library.

This project models three parts of the program:

1. **The specification builder** (`ReassignmentOptimizerConfig.__init__`), in
   `SpecBuilder.dfy`. It builds the sorted broker list and partition keys, the slot
   list, the current 0/1 assignment, the pins, the weights, the factors, the total
   current mass and the balance bounds. It is written as methods with loops, each
   proved against a specification function. `BuildConfig` runs the whole builder.
2. **The formulation** of `propose_assignment_with_minimum_move`, in
   `ModelFormulator.dfy`. It is the movement objective plus a feasibility predicate:
   binary slots, pins, C1 (total mass), C2 (replication factor) and C3 (balance).
   Lemmas relate them.
3. **The extraction** of the proposed replica lists from a solved assignment, in
   `ResultExtractor.dfy`.

Supporting modules:

- `Ordering.dfy` holds Python's string order and an insertion sort standing in for
  `sorted()`.
- `Types.dfy` holds the entities.

Values are exact:

- Weights are natural numbers.
- The balance factors are fractions `num/den`.
- Floor and ceiling are integer division.

The line-185, line-200 and line-222 defects are each modelled twice: once as written
and once corrected (see "## Findings"). The rest of the model uses the corrected
versions.

The formulation has one consequence worth knowing. With a replication-factor
override, C2 fixes the proposed weighted mass at `rf` times the total partition
weight, while C1 still asks for the current mass (`OverrideFixesMass`). So an
override that changes the total replica weight leaves the programme infeasible. The
model keeps this as the code has it.

C3 (lines 105-109) is an equality only when the two bounds coincide. With a single
factor f as both min_factor and max_factor, they coincide exactly when total · f is a
whole multiple of the broker count (`BandCollapsesIff`). Otherwise the floor and the
ceiling differ, and C3 is a band. For example, factors 1/1 with a total of 3 on 2
brokers give the band [1, 2] (`UnitFactorsBand`). Summed over the brokers, the C3
loads equal the C1 mass (`LoadsSumToMass`). So a feasible assignment needs
|brokers| · loadMin ≤ total_replica_weight ≤ |brokers| · loadMax
(`FeasibleBandBounds`).

## Model

| member | source | states |
|---|---|---|
| Ordering.SortSorted | kafka-reassign-optimizer.py:155 | Sorting under a total preorder gives a list that is sorted pairwise. |
| Ordering.SortOfSorted | kafka-reassign-optimizer.py:170 | Sorting an already sorted list leaves it unchanged, so re-sorting the brokers in the inner loop changes nothing. |
| Ordering.DistinctPermutation | kafka-reassign-optimizer.py:155 | A permutation of a duplicate-free list is duplicate-free. |
| Ordering.SortDistinctAscending | kafka-reassign-optimizer.py:155 | Sorting distinct broker ids gives a strictly ascending list. |
| Ordering.StrLeTotal | kafka-reassign-optimizer.py:159 | Any two topic names compare one way or the other in Python's string order. |
| Ordering.StrLeTransitive | kafka-reassign-optimizer.py:159 | The string order is transitive. |
| Ordering.StrLeAntisymmetric | kafka-reassign-optimizer.py:159 | Two names that each precede the other are equal. |
| Types.TpLeTotalPreorder | kafka-reassign-optimizer.py:159 | The (topic, partition) key order is a total preorder, so sorting by it is well defined. |
| SpecBuilder.ProductLength | kafka-reassign-optimizer.py:165-171 | The slot list has one slot per (partition, broker) pair. |
| SpecBuilder.ProductAt | kafka-reassign-optimizer.py:165-171 | Slot number i·\|brokers\|+j is partition i on broker j, the order of the nested appends. |
| SpecBuilder.ProductMember | kafka-reassign-optimizer.py:165-171 | A slot is in the list exactly when its partition key and its broker are both listed. |
| SpecBuilder.ProductAscending | kafka-reassign-optimizer.py:165-171 | With sorted distinct keys and ascending brokers, the slots are strictly ascending in (topic, partition, broker). |
| SpecBuilder.BuildSlots | kafka-reassign-optimizer.py:165-175 | The nested loops produce exactly the partition-major product of the keys and the sorted brokers. |
| SpecBuilder.ListedSlotsIff | kafka-reassign-optimizer.py:177 | The dictionary built from the input holds a slot exactly when that broker is in the replica list of an entry for its partition. |
| SpecBuilder.BuildCurrentAssignment | kafka-reassign-optimizer.py:177-181 | The current assignment is defined on every slot of the list and on every listed replica, and no other key. It is 1 exactly on listed replicas and 0 elsewhere. |
| SpecBuilder.BuildPins | kafka-reassign-optimizer.py:189-201 | The pin set is exactly the requested pins that name a slot of the list. Duplicates collapse, and pins on unlisted brokers are dropped. |
| SpecBuilder.PinsAsWrittenFailsOnDrop | kafka-reassign-optimizer.py:196-200 | As written, the build fails exactly when some pin would be dropped. Otherwise the result equals BuildPins's set. |
| SpecBuilder.DroppedPinFailsAsWritten | kafka-reassign-optimizer.py:200 | A pin on a removed broker makes the as-written build fail. |
| SpecBuilder.FirstWeightIsFirst | kafka-reassign-optimizer.py:206-212 | A weight is found exactly when some entry names the partition, and then it is the earliest such entry's weight. |
| SpecBuilder.BuildWeights | kafka-reassign-optimizer.py:203-217 | Without partition_weights every listed partition weighs 1 and no other key exists. With it, exactly the listed partitions that have an entry get a weight, the first entry's. |
| SpecBuilder.FactorsAsWrittenFailsWithoutMin | kafka-reassign-optimizer.py:219-230 | As written, the factors are unusable exactly when balance_parameters lacks min_factor. Otherwise they equal the corrected Factors. |
| SpecBuilder.TotalReplicasAsWrittenFailsOnOverride | kafka-reassign-optimizer.py:183-187 | As written, total_replicas fails exactly when an override is given. Without one it equals the number of listed replicas. |
| SpecBuilder.ComputeTotalWeight | kafka-reassign-optimizer.py:232-235 | The loop adds the partition weight of exactly the slots whose current value is 1. |
| SpecBuilder.FloorDiv | kafka-reassign-optimizer.py:237 | The result q is the floor: q·d ≤ n < q·d + d. |
| SpecBuilder.CeilDiv | kafka-reassign-optimizer.py:238 | The result q is the ceiling: q·d − d < n ≤ q·d. |
| SpecBuilder.LoadMin | kafka-reassign-optimizer.py:237 | The lower bound is the floor of total / \|brokers\| · min_factor, stated exactly. |
| SpecBuilder.LoadMax | kafka-reassign-optimizer.py:238 | The upper bound is the ceiling of total / \|brokers\| · max_factor, stated exactly. |
| SpecBuilder.BandArithmetic | kafka-reassign-optimizer.py:237-238 | A floor scaled by the smaller factor never exceeds a ceiling scaled by the larger one. |
| SpecBuilder.BoundsOrdered | kafka-reassign-optimizer.py:237-238 | min_factor ≤ max_factor implies balanced_load_min ≤ balanced_load_max. |
| SpecBuilder.MissingMinFactorDefaults | kafka-reassign-optimizer.py:219-230 | With the correction, a missing min_factor takes the default 0.9, and the band is non-empty while max_factor ≥ 0.9. |
| SpecBuilder.BandCollapsesIff | kafka-reassign-optimizer.py:237-238 | With one factor for both bounds, balanced_load_min equals balanced_load_max exactly when total · f is a whole multiple of \|brokers\|. |
| SpecBuilder.UnitFactorsBand | kafka-reassign-optimizer.py:237-238 | Factors 1/1 with total 3 on 2 brokers give the band [1, 2], not an equality. |
| SpecBuilder.WeightsCoverSorted | kafka-reassign-optimizer.py:211-212 | Every sorted key has a weight exactly when every input partition has a weight entry, or no weights are given. |
| SpecBuilder.BuildConfig | kafka-reassign-optimizer.py:151-238 | The build succeeds exactly when there are brokers and the weights cover every partition. Each failure gets its own error. On success every field is what the input determines, and the specification is internally consistent. |
| SpecBuilder.BuiltSorted | kafka-reassign-optimizer.py:155-159 | The built brokers and partition keys are sorted permutations of the input's. |
| SpecBuilder.BuiltSlotsAscending | kafka-reassign-optimizer.py:155-171 | With duplicate-free input, the brokers are strictly ascending and the slot list is strictly ascending. |
| ModelFormulator.MovementObjective | kafka-reassign-optimizer.py:71-76 | The objective loop accumulates exactly the movement sum of the slot list. |
| ModelFormulator.TotalMass | kafka-reassign-optimizer.py:83-85 | The C1 loop accumulates exactly the weighted mass of the slot list. |
| ModelFormulator.PartitionReplicas | kafka-reassign-optimizer.py:90-94 | The inner C2 loop returns the proposed and the current replica counts of the partition over the listed brokers. |
| ModelFormulator.BrokerLoad | kafka-reassign-optimizer.py:102-104 | The inner C3 loop returns the broker's weighted load over all partitions. |
| ModelFormulator.WithinBounds | kafka-reassign-optimizer.py:64-68 | A slot's value lies within its variable's bounds exactly when the assignment is binary on the slot list and holds every pin. |
| ModelFormulator.IsFeasible | kafka-reassign-optimizer.py:64-109 | Checking all constraints on a concrete assignment accepts it exactly when it is feasible. |
| ModelFormulator.MassAppend | kafka-reassign-optimizer.py:83-85 | The C1 sum over a concatenation is the sum of the two sums. |
| ModelFormulator.MassRow | kafka-reassign-optimizer.py:83-85 | The C1 sum over one partition's slots is its weight times its C2 replica count. |
| ModelFormulator.MassOfProduct | kafka-reassign-optimizer.py:83-94 | The C1 sum over the slot list equals the sum over partitions of weight × replica count. |
| ModelFormulator.CurrentMassIsMass | kafka-reassign-optimizer.py:232-235 | For a 0/1 current assignment, total_replica_weight is the C1 sum of the current assignment. |
| ModelFormulator.PartitionMassCongruent | kafka-reassign-optimizer.py:89-98 | Two assignments with equal replica counts per partition have equal weighted mass. |
| ModelFormulator.PartitionMassUniform | kafka-reassign-optimizer.py:95-96 | If every partition has rf replicas, the weighted mass is rf times the total partition weight. |
| ModelFormulator.WeightSumUnit | kafka-reassign-optimizer.py:183-185 | With unit weights, the total weight of the keys is their number. |
| ModelFormulator.LoadSumSplit | kafka-reassign-optimizer.py:101-104 | Removing one partition from every broker's load removes its weight × replica count from the summed loads. |
| ModelFormulator.LoadSumIsPartitionMass | kafka-reassign-optimizer.py:101-104 | The summed broker loads equal the sum over partitions of weight × replica count. |
| ModelFormulator.LoadSumEmpty | kafka-reassign-optimizer.py:101-104 | With no partitions every broker's load, and so their sum, is 0. |
| ModelFormulator.LoadsSumToMass | kafka-reassign-optimizer.py:83-104 | The C3 loads of all brokers add up to the C1 mass of the slot list. |
| ModelFormulator.LoadSumBounds | kafka-reassign-optimizer.py:105-109 | Loads that each lie in [lo, hi] sum to a total between \|brokers\|·lo and \|brokers\|·hi. |
| ModelFormulator.FeasibleBandBounds | kafka-reassign-optimizer.py:83-109 | An assignment meeting C1 and C3 exists only if \|brokers\|·loadMin ≤ total_replica_weight ≤ \|brokers\|·loadMax. |
| ModelFormulator.MoveSumIsDiffWeight | kafka-reassign-optimizer.py:70-76 | For 0/1 values the objective's sum adds a slot's weight exactly when its value changes, and 0 otherwise. |
| ModelFormulator.DiffWeightZeroIff | kafka-reassign-optimizer.py:70-76 | The changed weight is 0 exactly when every slot of positive weight keeps its value. |
| ModelFormulator.MovementZeroIff | kafka-reassign-optimizer.py:70-77 | The movement of a binary assignment is ≥ 0. It is 0 exactly when it agrees with the current assignment on every slot of positive weight. |
| ModelFormulator.NoOverrideC2ImpliesC1 | kafka-reassign-optimizer.py:83-98 | Without an override, an assignment meeting C2 meets C1. |
| ModelFormulator.OverrideFixesMass | kafka-reassign-optimizer.py:83-96 | With an override, C2 fixes the mass at rf × the total weight. C1 then holds exactly when total_replica_weight has that value. |
| ModelFormulator.OverridePlacesTotalReplicas | kafka-reassign-optimizer.py:183-185 | With an override, an assignment meeting C2 places exactly the corrected total_replicas = total_partitions × rf replicas. |
| ModelFormulator.CurrentFeasible | kafka-reassign-optimizer.py:64-109 | Without an override, the current assignment is feasible with movement 0 when its loads meet C3 and every pin is a current replica. |
| ModelFormulator.OptimalMovesNothing | kafka-reassign-optimizer.py:70-113 | If the current assignment is feasible, every optimal assignment has movement 0. |
| ResultExtractor.ExtractProposal | kafka-reassign-optimizer.py:267-279 | There is one entry per partition key in key order, carrying the topic, the partition and the brokers whose slot value is 1, in broker-list order. |
| ResultExtractor.SelectedMembers | kafka-reassign-optimizer.py:268-271 | A broker is in a replica list exactly when it is listed and its slot is 1. |
| ResultExtractor.SelectedAscending | kafka-reassign-optimizer.py:268-271 | Scanning ascending brokers gives an ascending, duplicate-free replica list. |
| ResultExtractor.SelectedCount | kafka-reassign-optimizer.py:268-271 | For 0/1 values the replica list is as long as the C2 replica count. |
| ResultExtractor.FeasibleReplicaLists | kafka-reassign-optimizer.py:92-98 | For a feasible assignment each replica list has the partition's target length, rf under an override. It contains every pinned broker. |
| ResultExtractor.SlotInGrid | kafka-reassign-optimizer.py:270 | In a binary assignment every (partition, broker) lookup of the extraction loop is defined and 0 or 1. |
| ResultExtractor.BinaryCoversGrid | kafka-reassign-optimizer.py:267-270 | A binary assignment meets ExtractProposal's precondition. |

## Left out

- The MILP solver is not modelled: variable construction (lines 60-68), `problem.solve()` (line 113) and the solver status. The programme is stated as `Movement` plus `Feasible`. `Optimal` states what an optimal status promises, and no solver output is modelled.
- I/O and logging are not modelled: reading and writing JSON, the `LOGLEVEL` logger setup, every `logger` call and the `'vertion'` key of the output document. `Input` is the already parsed document.
- `assignment_str` is not modelled. It is diagnostic text only.
- `random.shuffle` of each replica list (lines 272-274) is a placeholder leader policy and is not modelled. The model stops at the list before the shuffle, which only permutes it.
- Floating point is not modelled. Weights are natural numbers, and the line-216 default of 1.0 is 1. The factors are exact fractions (0.9 and 1.1 are 9/10 and 11/10). The line-237/238 bounds are exact floor and ceiling. So neither float rounding nor Python 2's integer division for integer weights is modelled.
- The `int(...)` truncation of solver values at line 270 is not modelled. Slot values are integers, and a binary assignment needs no truncation.
- The grouping through `_t2p` (lines 158-163) is collapsed into one sort of the (topic, partition) pairs. For each topic it yields the same keys in the same order. `topic2partition` and `topics` feed only logging.
- Brokers are sorted but not deduplicated, as the code does on line 155. A repeated broker id repeats its slots.
- A broker list that splits into nothing cannot come from the comma-separated field. The model rejects it with `NoBrokers` instead of dividing by zero on line 237.
- `partition_weights` that miss a listed partition make the code fail with a missing key later, at line 235 or line 74. The model rejects such input in `BuildConfig` with `MissingWeight`.
- Negative factors and negative weights are not modelled: factors are `nat/pos` fractions and weights are `nat`.
- SpecBuilder.BuildConfig: the error paths are folded so that `NoBrokers` is reported first and `MissingWeight` second. The code fails at different lines and only after some fields are set.

## Findings

| source | as written | input that shows it | evidently intended | confidence | as-written member | corrected member |
|---|---|---|---|---|---|---|
| kafka-reassign-optimizer.py:185 | `total_partitions * new_replication_factor` names two variables that are not defined, so any override raises. | `new_replication_factor` = 2 | `self.total_partitions * self.new_replication_factor` | high (not executed) | SpecBuilder.TotalReplicasAsWrittenFailsOnOverride | ModelFormulator.OverridePlacesTotalReplicas |
| kafka-reassign-optimizer.py:200 | The warning string has four `%s` but the tuple has three values, so dropping a pin raises instead of warning. | pin ("t1", 0, 4) while the only slot is ("t1", 0, 1) | drop the pin with a warning | high (not executed) | SpecBuilder.DroppedPinFailsAsWritten | SpecBuilder.BuildPins |
| kafka-reassign-optimizer.py:222-223 | When `min_factor` is absent the else branch sets `balance_max_factor`, so `balance_min_factor` stays unset and line 237 raises. | `balance_parameters` = {"max_factor": 1.2} | `self.balance_min_factor = BALANCE_MIN_FACTOR` | high (not executed) | SpecBuilder.FactorsAsWrittenFailsWithoutMin | SpecBuilder.MissingMinFactorDefaults |
