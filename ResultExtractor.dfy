/** Reading the solved 0/1 assignment back into a proposed replica list per partition,
    as the final loop of the program does before it shuffles each list. */
module ResultExtractor {
  import opened Ordering
  import opened Types
  import opened SpecBuilder
  import opened ModelFormulator

  /** One entry of the output document's "partitions" list. */
  datatype ProposedPartition = ProposedPartition(topic: string, partition: int, replicas: seq<Broker>)

  /** The brokers of bs whose slot for tp is set to 1, in the order of bs. */
  function Selected(tp: TP, bs: seq<Broker>, x: map<Slot, int>): seq<Broker>
    decreases |bs|
  {
    if |bs| == 0 then []
    else
      var b := bs[|bs| - 1];
      Selected(tp, bs[..|bs| - 1], x) + (if Val(x, Slot(tp, b)) == 1 then [b] else [])
  }

  /** Lines 267-271 and 275-279: one entry per partition in tps order, listing the
      brokers whose slot value is 1, scanned in broker-list order. */
  method ExtractProposal(c: Config, x: map<Slot, int>) returns (out: seq<ProposedPartition>)
    requires forall i, j :: 0 <= i < |c.tps| && 0 <= j < |c.brokers| ==> Slot(c.tps[i], c.brokers[j]) in x
    ensures |out| == |c.tps|
    ensures forall i :: 0 <= i < |c.tps| ==>
              out[i] == ProposedPartition(c.tps[i].topic, c.tps[i].partition, Selected(c.tps[i], c.brokers, x))
  {
    out := [];
    var i := 0;
    while i < |c.tps|
      invariant 0 <= i <= |c.tps|
      invariant |out| == i
      invariant forall k :: 0 <= k < i ==>
                  out[k] == ProposedPartition(c.tps[k].topic, c.tps[k].partition, Selected(c.tps[k], c.brokers, x))
    {
      var tp := c.tps[i];
      var replicas := [];
      var j := 0;
      while j < |c.brokers|
        invariant 0 <= j <= |c.brokers|
        invariant replicas == Selected(tp, c.brokers[..j], x)
      {
        var b := c.brokers[j];
        assert c.brokers[..j + 1][..j] == c.brokers[..j];
        if x[Slot(tp, b)] == 1 {
          replicas := replicas + [b];
        }
        j := j + 1;
      }
      assert c.brokers[..|c.brokers|] == c.brokers;
      out := out + [ProposedPartition(tp.topic, tp.partition, replicas)];
      i := i + 1;
    }
  }

  /** A broker is proposed for tp exactly when it is listed and its slot is 1. */
  lemma {:induction false} SelectedMembers(tp: TP, bs: seq<Broker>, x: map<Slot, int>, b: Broker)
    ensures b in Selected(tp, bs, x) <==> b in bs && Val(x, Slot(tp, b)) == 1
    decreases |bs|
  {
    if |bs| > 0 {
      var init := bs[..|bs| - 1];
      SelectedMembers(tp, init, x, b);
      assert bs == init + [bs[|bs| - 1]];
    }
  }

  /** Scanning an ascending broker list yields an ascending, duplicate-free replica list. */
  lemma {:induction false} SelectedAscending(tp: TP, bs: seq<Broker>, x: map<Slot, int>)
    requires StrictlyAscending(bs)
    ensures StrictlyAscending(Selected(tp, bs, x))
    decreases |bs|
  {
    if |bs| > 0 {
      var init := bs[..|bs| - 1];
      var b := bs[|bs| - 1];
      SelectedAscending(tp, init, x);
      var r := Selected(tp, init, x);
      forall y | y in r ensures y < b {
        SelectedMembers(tp, init, x, y);
        var k :| 0 <= k < |init| && init[k] == y;
      }
      var s := r + (if Val(x, Slot(tp, b)) == 1 then [b] else []);
      forall i, j | 0 <= i < j < |s| ensures s[i] < s[j] {
        if j == |r| {
          assert s[i] == r[i];
          assert s[i] in r;
        }
      }
    }
  }

  /** For 0/1 slot values the replica list is as long as the C2 replica count. */
  lemma {:induction false} SelectedCount(tp: TP, bs: seq<Broker>, x: map<Slot, int>)
    requires forall j :: 0 <= j < |bs| ==> 0 <= Val(x, Slot(tp, bs[j])) <= 1
    ensures |Selected(tp, bs, x)| == ReplicaCount(tp, bs, x)
    decreases |bs|
  {
    if |bs| > 0 {
      var init := bs[..|bs| - 1];
      assert forall j :: 0 <= j < |init| ==> init[j] == bs[j];
      SelectedCount(tp, init, x);
      assert 0 <= Val(x, Slot(tp, bs[|bs| - 1])) <= 1;
    }
  }

  /** The replica list extracted from a feasible assignment has the partition's target
      length, the requested factor when one is given, and holds every pinned broker. */
  lemma FeasibleReplicaLists(c: Config, x: map<Slot, int>, i: int)
    requires WellFormed(c) && Feasible(c, x) && 0 <= i < |c.tps|
    ensures |Selected(c.tps[i], c.brokers, x)| == TargetReplicas(c, c.tps[i])
    ensures c.newReplicationFactor > 0 ==> |Selected(c.tps[i], c.brokers, x)| == c.newReplicationFactor
    ensures forall b :: Slot(c.tps[i], b) in c.pinned ==> b in Selected(c.tps[i], c.brokers, x)
  {
    var tp := c.tps[i];
    forall j | 0 <= j < |c.brokers| ensures 0 <= Val(x, Slot(tp, c.brokers[j])) <= 1 {
      SlotInGrid(c, x, i, j);
    }
    SelectedCount(tp, c.brokers, x);
    forall b | Slot(tp, b) in c.pinned ensures b in Selected(tp, c.brokers, x) {
      ProductMember(c.tps, c.brokers, Slot(tp, b));
      SelectedMembers(tp, c.brokers, x, b);
    }
  }

  /** Every grid slot of a binary assignment is present with a 0/1 value, which is what
      the extraction loop's lookups need. */
  lemma SlotInGrid(c: Config, x: map<Slot, int>, i: int, j: int)
    requires WellFormed(c) && Binary(c, x)
    requires 0 <= i < |c.tps| && 0 <= j < |c.brokers|
    ensures Slot(c.tps[i], c.brokers[j]) in x && 0 <= x[Slot(c.tps[i], c.brokers[j])] <= 1
  {
    var s := Slot(c.tps[i], c.brokers[j]);
    ProductMember(c.tps, c.brokers, s);
    var k :| 0 <= k < |c.tpbs| && c.tpbs[k] == s;
  }

  /** The extraction of a binary assignment over a built configuration is defined. */
  lemma BinaryCoversGrid(c: Config, x: map<Slot, int>)
    requires WellFormed(c) && Binary(c, x)
    ensures forall i, j :: 0 <= i < |c.tps| && 0 <= j < |c.brokers| ==> Slot(c.tps[i], c.brokers[j]) in x
  {
    forall i, j | 0 <= i < |c.tps| && 0 <= j < |c.brokers| ensures Slot(c.tps[i], c.brokers[j]) in x {
      SlotInGrid(c, x, i, j);
    }
  }
}
