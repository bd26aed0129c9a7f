/**
 * The Phoenix bridge's grouping of water-quality samples by monitoring node
 * and contaminant (crates/phoenix-bridge/src/main.rs,
 * `group_by_node_and_contaminant`), before each group is handed to the CEIM
 * kernel.
 */
module PhoenixGrouping {
  /** A feed sample (feeds.rs); the timestamp is not used by the grouping and is left out. */
  datatype WaterSample = WaterSample(nodeId: string, contaminant: string, cIn: real, cOut: real, flowQ: real)

  type GroupKey = (string, string)

  function KeyOf(s: WaterSample): GroupKey {
    (s.nodeId, s.contaminant)
  }

  /** The pairs that occur in `samples`. */
  function KeysOf(samples: seq<WaterSample>): set<GroupKey> {
    set i | 0 <= i < |samples| :: KeyOf(samples[i])
  }

  /** Reference definition of one group: the samples with key `k`, in feed order. */
  function Members(samples: seq<WaterSample>, k: GroupKey): (r: seq<WaterSample>)
    ensures |r| <= |samples|
    ensures forall y :: y in r ==> KeyOf(y) == k && y in samples
    ensures r == [] <==> k !in KeysOf(samples)
    decreases |samples|
  {
    if |samples| == 0 then []
    else
      var init := samples[..|samples| - 1];
      var last := samples[|samples| - 1];
      assert forall i :: 0 <= i < |init| ==> init[i] == samples[i];
      assert KeysOf(samples) == KeysOf(init) + {KeyOf(last)};
      Members(init, k) + (if KeyOf(last) == k then [last] else [])
  }

  /** `groups` holds, for each pair present in `prefix`, exactly that pair's samples. */
  ghost predicate Grouped(groups: map<GroupKey, seq<WaterSample>>, prefix: seq<WaterSample>) {
    && groups.Keys == KeysOf(prefix)
    && forall k :: k in groups ==> groups[k] == Members(prefix, k)
  }

  /** `map.entry(key).or_default().push(s)`. */
  function AddSample(groups: map<GroupKey, seq<WaterSample>>, x: WaterSample): (r: map<GroupKey, seq<WaterSample>>)
    ensures r.Keys == groups.Keys + {KeyOf(x)}
    ensures forall k :: k in groups && k != KeyOf(x) ==> r[k] == groups[k]
  {
    var k := KeyOf(x);
    groups[k := (if k in groups then groups[k] else []) + [x]]
  }

  /** Adding the next sample keeps the grouping exact. */
  lemma GroupStep(groups: map<GroupKey, seq<WaterSample>>, prefix: seq<WaterSample>, x: WaterSample)
    requires Grouped(groups, prefix)
    ensures Grouped(AddSample(groups, x), prefix + [x])
  {
    KeysSnoc(prefix, x);
    var r := AddSample(groups, x);
    forall k | k in r
      ensures r[k] == Members(prefix + [x], k)
    {
      MembersSnoc(prefix, x, k);
    }
  }

  /** `group_by_node_and_contaminant`: one group per pair present, holding exactly that pair's samples in feed order. */
  method GroupByNodeAndContaminant(samples: seq<WaterSample>) returns (groups: map<GroupKey, seq<WaterSample>>)
    ensures groups.Keys == KeysOf(samples)
    ensures forall k :: k in groups ==> groups[k] == Members(samples, k)
  {
    groups := map[];
    var i := 0;
    while i < |samples|
      invariant 0 <= i <= |samples|
      invariant Grouped(groups, samples[..i])
    {
      GroupStep(groups, samples[..i], samples[i]);
      assert samples[..i + 1] == samples[..i] + [samples[i]];
      groups := AddSample(groups, samples[i]);
      i := i + 1;
    }
    assert samples[..i] == samples;
  }

  /** Every sample lands in the group of its own pair and in no other. */
  lemma SampleInItsOwnGroup(samples: seq<WaterSample>, i: int, k: GroupKey)
    requires 0 <= i < |samples|
    ensures samples[i] in Members(samples, k) <==> k == KeyOf(samples[i])
  {
    if k == KeyOf(samples[i]) {
      SampleKept(samples, i);
    }
  }

  lemma {:induction false} SampleKept(samples: seq<WaterSample>, i: int)
    requires 0 <= i < |samples|
    ensures samples[i] in Members(samples, KeyOf(samples[i]))
    decreases |samples|
  {
    var init := samples[..|samples| - 1];
    if i < |samples| - 1 {
      assert init[i] == samples[i];
      SampleKept(init, i);
    }
  }

  lemma KeysSnoc(samples: seq<WaterSample>, x: WaterSample)
    ensures KeysOf(samples + [x]) == KeysOf(samples) + {KeyOf(x)}
  {
    var s := samples + [x];
    assert forall i :: 0 <= i < |samples| ==> s[i] == samples[i];
    assert s[|samples|] == x;
  }

  /** A group grows by one sample exactly when a sample of its pair is appended. */
  lemma MembersSnoc(samples: seq<WaterSample>, x: WaterSample, k: GroupKey)
    ensures Members(samples + [x], k) == Members(samples, k) + (if KeyOf(x) == k then [x] else [])
  {
    assert (samples + [x])[..|samples|] == samples;
  }

  /** Total size of the groups named in `keys`. */
  function TotalSize(samples: seq<WaterSample>, keys: seq<GroupKey>): nat
    decreases |keys|
  {
    if |keys| == 0 then 0 else |Members(samples, keys[0])| + TotalSize(samples, keys[1..])
  }

  function Occurrences(keys: seq<GroupKey>, k: GroupKey): nat
    decreases |keys|
  {
    if |keys| == 0 then 0 else (if keys[0] == k then 1 else 0) + Occurrences(keys[1..], k)
  }

  lemma {:induction false} OccursOnce(keys: seq<GroupKey>, k: GroupKey)
    requires forall i, j :: 0 <= i < j < |keys| ==> keys[i] != keys[j]
    ensures Occurrences(keys, k) == if k in keys then 1 else 0
    decreases |keys|
  {
    if |keys| > 0 {
      OccursOnce(keys[1..], k);
      if keys[0] == k {
        assert k !in keys[1..];
      }
    }
  }

  lemma {:induction false} TotalSizeSnoc(samples: seq<WaterSample>, x: WaterSample, keys: seq<GroupKey>)
    ensures TotalSize(samples + [x], keys) == TotalSize(samples, keys) + Occurrences(keys, KeyOf(x))
    decreases |keys|
  {
    if |keys| > 0 {
      MembersSnoc(samples, x, keys[0]);
      TotalSizeSnoc(samples, x, keys[1..]);
    }
  }

  /** Listing each present pair once, the group sizes add up to the number of samples: nothing is lost or duplicated. */
  lemma {:induction false} GroupSizesSum(samples: seq<WaterSample>, keys: seq<GroupKey>)
    requires forall i, j :: 0 <= i < j < |keys| ==> keys[i] != keys[j]
    requires KeysOf(samples) <= set k | k in keys
    ensures TotalSize(samples, keys) == |samples|
    decreases |samples|
  {
    if |samples| == 0 {
      TotalSizeEmpty(samples, keys);
    } else {
      var init := samples[..|samples| - 1];
      var last := samples[|samples| - 1];
      assert init + [last] == samples;
      assert forall i :: 0 <= i < |init| ==> init[i] == samples[i];
      assert KeysOf(init) <= KeysOf(samples);
      GroupSizesSum(init, keys);
      TotalSizeSnoc(init, last, keys);
      assert KeyOf(last) in KeysOf(samples);
      OccursOnce(keys, KeyOf(last));
    }
  }

  lemma {:induction false} TotalSizeEmpty(samples: seq<WaterSample>, keys: seq<GroupKey>)
    requires |samples| == 0
    ensures TotalSize(samples, keys) == 0
    decreases |keys|
  {
    if |keys| > 0 {
      TotalSizeEmpty(samples, keys[1..]);
    }
  }
}
