/**
 * Managed-aquifer-recharge schedule ranking
 * (crates/nitrate-mar-planner/src/scheduler.rs, `rank_schedules`): every
 * schedule option whose basin exists is scored by nitrate removal per kWh and
 * per hectare, and the results are sorted, stably, from the highest
 * removal per kWh down.
 */
module ScheduleRanking {
  import opened Results
  import opened Ceim
  import Seqs

  /** The basin, option and result records are declared in model.rs, which is not part of this model; these are the fields the ranking uses. */
  datatype Basin = Basin(id: string, energyKwhPerDay: real, areaHa: real)

  datatype ScheduleOption = ScheduleOption(basinId: string, startHour: nat, endHour: nat)

  datatype RankedSchedule = RankedSchedule(
    basinId: string,
    startHour: nat,
    endHour: nat,
    kNPerKwh: real,
    kNPerHectare: real)

  /** Floors that keep the ratios finite. */
  const MinEnergyKwhPerDay: real := 1.0
  const MinAreaHa: real := 0.1

  function Max(a: real, b: real): real {
    if a >= b then a else b
  }

  /** The first basin with the given id (`basins.iter().find`). */
  function FindBasin(basins: seq<Basin>, id: string): (r: Option<Basin>)
    ensures r.None? <==> forall k :: 0 <= k < |basins| ==> basins[k].id != id
    ensures r.Some? ==> exists k :: 0 <= k < |basins| && basins[k] == r.value && FirstWithId(basins, id, k)
    decreases |basins|
  {
    if |basins| == 0 then None
    else if basins[0].id == id then
      assert FirstWithId(basins, id, 0);
      Some(basins[0])
    else
      var rest := FindBasin(basins[1..], id);
      assert forall k :: 0 < k < |basins| ==> basins[k] == basins[1..][k - 1];
      assert rest.Some? ==> exists k :: FirstWithId(basins, id, k) && basins[k] == rest.value by {
        if rest.Some? {
          var k :| 0 <= k < |basins[1..]| && basins[1..][k] == rest.value && FirstWithId(basins[1..], id, k);
          assert FirstWithId(basins, id, k + 1);
        }
      }
      rest
  }

  /** Basin `k` carries `id` and no earlier basin does. */
  ghost predicate FirstWithId(basins: seq<Basin>, id: string, k: int) {
    && 0 <= k < |basins|
    && basins[k].id == id
    && forall j :: 0 <= j < k ==> basins[j].id != id
  }

  /** The score of one option against its basin; `kN` is the nitrate `k_n` the kernel gives for the samples. */
  function Score(basin: Basin, option: ScheduleOption, kN: real): (r: RankedSchedule)
    ensures r.basinId == basin.id && r.startHour == option.startHour && r.endHour == option.endHour
    ensures r.kNPerKwh * Max(basin.energyKwhPerDay, MinEnergyKwhPerDay) == kN
    ensures r.kNPerHectare * Max(basin.areaHa, MinAreaHa) == kN
  {
    RankedSchedule(
      basin.id, option.startHour, option.endHour,
      kN / Max(basin.energyKwhPerDay, MinEnergyKwhPerDay),
      kN / Max(basin.areaHa, MinAreaHa))
  }

  /** One option's result, if its basin exists. */
  function RankOne(basins: seq<Basin>, kN: real, option: ScheduleOption): (r: Option<RankedSchedule>)
    ensures r.Some? <==> FindBasin(basins, option.basinId).Some?
  {
    match FindBasin(basins, option.basinId)
    case None => None
    case Some(basin) => Some(Score(basin, option, kN))
  }

  /** The unsorted results, in option order. */
  function Collect(basins: seq<Basin>, options: seq<ScheduleOption>, kN: real): (r: seq<RankedSchedule>)
    ensures |r| <= |options|
  {
    Seqs.FilterMap(options, (o: ScheduleOption) => RankOne(basins, kN, o))
  }

  // Stable sort, highest k_n per kWh first.

  /** Non-increasing by removal per kWh. */
  predicate SortedDesc(s: seq<RankedSchedule>) {
    forall i, j :: 0 <= i < j < |s| ==> s[i].kNPerKwh >= s[j].kNPerKwh
  }

  /** The results with removal per kWh equal to `key`, in order. */
  function WithKey(s: seq<RankedSchedule>, key: real): (r: seq<RankedSchedule>)
    ensures |r| <= |s|
    decreases |s|
  {
    if |s| == 0 then []
    else (if s[0].kNPerKwh == key then [s[0]] else []) + WithKey(s[1..], key)
  }

  /** Inserts `x` in front of the first element it is not below; ties keep `x` first. */
  function Insert(x: RankedSchedule, s: seq<RankedSchedule>): (r: seq<RankedSchedule>)
    ensures multiset(r) == multiset(s) + multiset{x}
    ensures |r| == |s| + 1
    ensures r[0] == x || (|s| > 0 && r[0] == s[0])
    decreases |s|
  {
    if |s| == 0 || s[0].kNPerKwh <= x.kNPerKwh then
      [x] + s
    else
      assert s == [s[0]] + s[1..];
      [s[0]] + Insert(x, s[1..])
  }

  /** Inserting into a sorted sequence keeps it sorted. */
  lemma {:induction false} InsertSorted(x: RankedSchedule, s: seq<RankedSchedule>)
    requires SortedDesc(s)
    ensures SortedDesc(Insert(x, s))
    decreases |s|
  {
    if |s| == 0 || s[0].kNPerKwh <= x.kNPerKwh {
    } else {
      var rest := Insert(x, s[1..]);
      InsertSorted(x, s[1..]);
      assert s[0].kNPerKwh >= rest[0].kNPerKwh;
      var r := [s[0]] + rest;
      forall i, j | 0 <= i < j < |r|
        ensures r[i].kNPerKwh >= r[j].kNPerKwh
      {
        assert r[j] == rest[j - 1];
        if i > 0 {
          assert r[i] == rest[i - 1];
        }
      }
    }
  }

  /** `results.sort_by(|a, b| b.k_n_per_kwh.partial_cmp(&a.k_n_per_kwh).unwrap())`. */
  function SortDesc(s: seq<RankedSchedule>): (r: seq<RankedSchedule>)
    ensures SortedDesc(r)
    ensures multiset(r) == multiset(s)
    ensures |r| == |s|
    decreases |s|
  {
    if |s| == 0 then []
    else
      assert s == [s[0]] + s[1..];
      InsertSorted(s[0], SortDesc(s[1..]));
      Insert(s[0], SortDesc(s[1..]))
  }

  /**
   * `rank_schedules`: the kernel is called once with the same arguments for
   * every option, and the stable sort keeps option order among equal ratios.
   */
  function RankSchedules(basins: seq<Basin>, options: seq<ScheduleOption>, samples: seq<TimeSample>, compute: Kernel)
    : (r: seq<RankedSchedule>)
    ensures SortedDesc(r)
    ensures multiset(r) == multiset(Collect(basins, options, compute("nitrate", 1.0, samples)))
    ensures forall key :: WithKey(r, key) == WithKey(Collect(basins, options, compute("nitrate", 1.0, samples)), key)
  {
    var collected := Collect(basins, options, compute("nitrate", 1.0, samples));
    assert forall key :: WithKey(SortDesc(collected), key) == WithKey(collected, key) by {
      forall key
        ensures WithKey(SortDesc(collected), key) == WithKey(collected, key)
      {
        SortStable(collected, key);
      }
    }
    SortDesc(collected)
  }

  /** Inserting keeps, for every key, the original order of the elements with that key. */
  lemma {:induction false} InsertStable(x: RankedSchedule, s: seq<RankedSchedule>, key: real)
    ensures WithKey(Insert(x, s), key) == (if x.kNPerKwh == key then [x] else []) + WithKey(s, key)
    decreases |s|
  {
    if |s| == 0 || s[0].kNPerKwh <= x.kNPerKwh {
      assert ([x] + s)[1..] == s;
    } else {
      var rest := Insert(x, s[1..]);
      assert ([s[0]] + rest)[1..] == rest;
      InsertStable(x, s[1..], key);
      if x.kNPerKwh == key {
        assert s[0].kNPerKwh != key;
      }
    }
  }

  /** The sort is stable: for every key, the results with that key come out in input order. */
  lemma {:induction false} SortStable(s: seq<RankedSchedule>, key: real)
    ensures WithKey(SortDesc(s), key) == WithKey(s, key)
    decreases |s|
  {
    if |s| > 0 {
      SortStable(s[1..], key);
      InsertStable(s[0], SortDesc(s[1..]), key);
    }
  }

  /** Options naming no basin are dropped, every other option gives exactly one result, in option order. */
  lemma CollectAppend(basins: seq<Basin>, a: seq<ScheduleOption>, b: seq<ScheduleOption>, kN: real)
    ensures Collect(basins, a + b, kN) == Collect(basins, a, kN) + Collect(basins, b, kN)
  {
    Seqs.FilterMapAppend(a, b, (o: ScheduleOption) => RankOne(basins, kN, o));
  }

  lemma CollectSingle(basins: seq<Basin>, option: ScheduleOption, kN: real)
    ensures Collect(basins, [option], kN) ==
      match FindBasin(basins, option.basinId)
      case None => []
      case Some(basin) => [Score(basin, option, kN)]
  {
    Seqs.FilterMapSingle(option, (o: ScheduleOption) => RankOne(basins, kN, o));
  }
}
