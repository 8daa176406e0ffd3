/** The EBS helpers: the unused-volume scan with its per-GB monthly rates,
    the snapshot age filter, the snapshot storage estimate, and the two
    deletion loops gated by dry_run. Volumes and snapshots arrive as the
    records describe_volumes and describe_snapshots return, reduced to the
    fields the helpers read; times are whole seconds. */
module Ebs {
  import opened Common

  // scan_for_unused_ebs_volumes

  datatype Volume = Volume(volumeId: Id, size: nat, volumeType: string, state: string,
                           createTime: string, multiAttachEnabled: bool, attachments: seq<Id>)

  /** One element of the "volumes" list of the result. */
  datatype UnusedVolume = UnusedVolume(volumeId: Id, size: nat, createTime: string,
                                       multiAttachEnabled: bool, attachments: seq<Id>, monthlyCost: real)

  datatype UnusedVolumes = UnusedVolumes(volumes: seq<UnusedVolume>, totalMonthlyCost: real)

  /** The KeyError raised for a volume type the rate table lacks. */
  datatype ScanError = UnknownVolumeType(volumeId: Id, volumeType: string)

  const AVAILABLE: string := "available"

  /** `cost_per_gb_map`: dollars per GB-month by volume type. */
  function CostPerGb(volumeType: string): Option<real> {
    if volumeType == "gp3" then Some(0.08)
    else if volumeType == "gp2" then Some(0.1)
    else if volumeType == "io1" || volumeType == "io2" then Some(0.125)
    else if volumeType == "st1" then Some(0.045)
    else if volumeType == "sc1" then Some(0.025)
    else if volumeType == "standard" then Some(0.05)
    else None
  }

  function Report(v: Volume, rate: real): UnusedVolume {
    UnusedVolume(v.volumeId, v.size, v.createTime, v.multiAttachEnabled, v.attachments, v.size as real * rate)
  }

  /** The comprehension, for a rate table `rate`: one report per available
      volume, in listing order; the rate is looked up only for available
      volumes, and the first one with an unknown type raises. */
  function ScanVolumesWith(vs: seq<Volume>, rate: string -> Option<real>): Result<seq<UnusedVolume>, ScanError> {
    if vs == [] then Ok([])
    else
      var r := ScanVolumesWith(vs[..|vs| - 1], rate);
      var v := vs[|vs| - 1];
      if r.Err? || v.state != AVAILABLE then r
      else match rate(v.volumeType)
        case None => Err(UnknownVolumeType(v.volumeId, v.volumeType))
        case Some(c) => Ok(r.value + [Report(v, c)])
  }

  /** The comprehension with `cost_per_gb_map`. */
  function ScanVolumes(vs: seq<Volume>): Result<seq<UnusedVolume>, ScanError> {
    ScanVolumesWith(vs, CostPerGb)
  }

  function MonthlyCosts(us: seq<UnusedVolume>): seq<real> {
    if us == [] then [] else MonthlyCosts(us[..|us| - 1]) + [us[|us| - 1].monthlyCost]
  }

  /** `scan_for_unused_ebs_volumes`: the error of an available volume whose
      type the rate table lacks, or one report per available volume, in
      listing order, with its monthly cost. */
  function ScanForUnusedEbsVolumes(vs: seq<Volume>): (r: Result<UnusedVolumes, ScanError>)
    ensures r.Err? ==>
      exists i | 0 <= i < |vs| :: vs[i].state == AVAILABLE && vs[i].volumeId == r.error.volumeId &&
        vs[i].volumeType == r.error.volumeType && CostPerGb(vs[i].volumeType).None?
    ensures r.Ok? ==>
      && |r.value.volumes| == |Available(vs)|
      && forall i | 0 <= i < |r.value.volumes| ::
           var v := Available(vs)[i];
           && CostPerGb(v.volumeType).Some?
           && r.value.volumes[i] == UnusedVolume(v.volumeId, v.size, v.createTime, v.multiAttachEnabled, v.attachments,
                                                 v.size as real * CostPerGb(v.volumeType).GetOr(0.0))
  {
    ScanVolumesSpec(vs);
    match ScanVolumes(vs)
    case Err(e) => Err(e)
    case Ok(us) => Ok(UnusedVolumes(us, Sum(MonthlyCosts(us))))
  }

  /** Reference definition: the available volumes, in listing order. */
  function Available(vs: seq<Volume>): seq<Volume> {
    if vs == [] then []
    else Available(vs[..|vs| - 1]) + (if vs[|vs| - 1].state == AVAILABLE then [vs[|vs| - 1]] else [])
  }

  /** Reference definition: size times rate, summed over the available
      volumes of the listing. */
  function AvailableCostWith(vs: seq<Volume>, rate: string -> Option<real>): real {
    if vs == [] then 0.0
    else
      var v := vs[|vs| - 1];
      AvailableCostWith(vs[..|vs| - 1], rate) + (if v.state == AVAILABLE then v.size as real * rate(v.volumeType).GetOr(0.0) else 0.0)
  }

  function AvailableCost(vs: seq<Volume>): real {
    AvailableCostWith(vs, CostPerGb)
  }

  predicate RatesKnownWith(vs: seq<Volume>, rate: string -> Option<real>) {
    forall i | 0 <= i < |vs| && vs[i].state == AVAILABLE :: rate(vs[i].volumeType).Some?
  }

  predicate RatesKnown(vs: seq<Volume>) {
    RatesKnownWith(vs, CostPerGb)
  }

  lemma {:induction false} AvailableMember(vs: seq<Volume>, v: Volume)
    ensures v in Available(vs) <==> v in vs && v.state == AVAILABLE
  {
    if vs != [] {
      var p := vs[..|vs| - 1];
      assert vs == p + [vs[|vs| - 1]];
      AvailableMember(p, v);
    }
  }

  /** The scan raises exactly when an available volume's type has no rate,
      naming such a volume. */
  lemma {:induction false} ScanErrWith(vs: seq<Volume>, rate: string -> Option<real>)
    ensures ScanVolumesWith(vs, rate).Ok? <==> RatesKnownWith(vs, rate)
    ensures ScanVolumesWith(vs, rate).Err? ==>
      var e := ScanVolumesWith(vs, rate).error;
      exists i | 0 <= i < |vs| :: vs[i].state == AVAILABLE && vs[i].volumeId == e.volumeId &&
        vs[i].volumeType == e.volumeType && rate(vs[i].volumeType).None?
  {
    if vs != [] {
      var p, v := vs[..|vs| - 1], vs[|vs| - 1];
      ScanErrWith(p, rate);
      assert forall i | 0 <= i < |p| :: p[i] == vs[i];
      if ScanVolumesWith(p, rate).Err? {
        var e := ScanVolumesWith(p, rate).error;
        var i :| 0 <= i < |p| && p[i].state == AVAILABLE && p[i].volumeId == e.volumeId &&
          p[i].volumeType == e.volumeType && rate(p[i].volumeType).None?;
        assert vs[i] == p[i];
      } else if v.state == AVAILABLE && rate(v.volumeType).None? {
        assert vs[|vs| - 1] == v;
      }
    }
  }

  /** A successful scan reports the available volumes one to one, in order. */
  lemma {:induction false} ScanReportsWith(vs: seq<Volume>, rate: string -> Option<real>)
    requires ScanVolumesWith(vs, rate).Ok?
    ensures var us := ScanVolumesWith(vs, rate).value;
      && |us| == |Available(vs)|
      && forall i | 0 <= i < |us| ::
           var v := Available(vs)[i];
           && rate(v.volumeType).Some?
           && us[i] == Report(v, rate(v.volumeType).GetOr(0.0))
  {
    if vs != [] {
      var p, v := vs[..|vs| - 1], vs[|vs| - 1];
      assert ScanVolumesWith(p, rate).Ok?;
      ScanReportsWith(p, rate);
      var prev := ScanVolumesWith(p, rate).value;
      if v.state == AVAILABLE {
        assert ScanVolumesWith(vs, rate).value == prev + [Report(v, rate(v.volumeType).GetOr(0.0))];
        assert Available(vs) == Available(p) + [v];
      } else {
        assert ScanVolumesWith(vs, rate) == ScanVolumesWith(p, rate);
        assert Available(vs) == Available(p);
      }
    }
  }

  /** The scan raises exactly when an available volume has a type the rate
      table lacks, and then names such a volume; otherwise it reports every
      available volume and no other, in listing order, with its id, size,
      creation time, attachments and size times its type's rate. */
  lemma ScanVolumesSpec(vs: seq<Volume>)
    ensures ScanVolumes(vs).Ok? <==> RatesKnown(vs)
    ensures ScanVolumes(vs).Err? ==>
      var e := ScanVolumes(vs).error;
      exists i | 0 <= i < |vs| :: vs[i].state == AVAILABLE && vs[i].volumeId == e.volumeId &&
        vs[i].volumeType == e.volumeType && CostPerGb(vs[i].volumeType).None?
    ensures ScanVolumes(vs).Ok? ==>
      var us := ScanVolumes(vs).value;
      && |us| == |Available(vs)|
      && forall i | 0 <= i < |us| ::
           var v := Available(vs)[i];
           && CostPerGb(v.volumeType).Some?
           && us[i] == UnusedVolume(v.volumeId, v.size, v.createTime, v.multiAttachEnabled, v.attachments,
                                    v.size as real * CostPerGb(v.volumeType).GetOr(0.0))
  {
    ScanErrWith(vs, CostPerGb);
    if ScanVolumes(vs).Ok? {
      ScanReportsWith(vs, CostPerGb);
    }
  }

  lemma {:induction false} MonthlyCostsSumWith(vs: seq<Volume>, rate: string -> Option<real>)
    requires RatesKnownWith(vs, rate)
    ensures ScanVolumesWith(vs, rate).Ok? && Sum(MonthlyCosts(ScanVolumesWith(vs, rate).value)) == AvailableCostWith(vs, rate)
  {
    if vs != [] {
      var p, v := vs[..|vs| - 1], vs[|vs| - 1];
      assert RatesKnownWith(p, rate) by {
        assert forall i | 0 <= i < |p| :: p[i] == vs[i];
      }
      MonthlyCostsSumWith(p, rate);
      var prev := ScanVolumesWith(p, rate).value;
      if v.state == AVAILABLE {
        assert rate(v.volumeType).Some? by {
          assert vs[|vs| - 1] == v;
        }
        var x := Report(v, rate(v.volumeType).value);
        assert ScanVolumesWith(vs, rate) == Ok(prev + [x]);
        assert (prev + [x])[..|prev|] == prev;
        assert MonthlyCosts(prev + [x]) == MonthlyCosts(prev) + [x.monthlyCost];
        assert (MonthlyCosts(prev) + [x.monthlyCost])[..|MonthlyCosts(prev)|] == MonthlyCosts(prev);
      }
    }
  }

  /** The summed monthly cost of the reports is size times rate summed over
      the available volumes. */
  lemma MonthlyCostsSum(vs: seq<Volume>)
    requires RatesKnown(vs)
    ensures ScanVolumes(vs).Ok? && Sum(MonthlyCosts(ScanVolumes(vs).value)) == AvailableCost(vs)
  {
    MonthlyCostsSumWith(vs, CostPerGb);
  }

  /** The total is the sum of size times rate over the available volumes. */
  lemma ScanTotal(vs: seq<Volume>)
    ensures ScanForUnusedEbsVolumes(vs).Ok? <==> RatesKnown(vs)
    ensures ScanForUnusedEbsVolumes(vs).Ok? ==> ScanForUnusedEbsVolumes(vs).value.totalMonthlyCost == AvailableCost(vs)
  {
    ScanVolumesSpec(vs);
    if RatesKnown(vs) {
      MonthlyCostsSum(vs);
    }
  }

  /** The 1 GB gp2 volume the test creates, when available, is reported at 0.1 a month. */
  lemma ScanOneVolume(id: Id)
    ensures ScanForUnusedEbsVolumes([Volume(id, 1, "gp2", AVAILABLE, "", false, [])]) ==
      Ok(UnusedVolumes([UnusedVolume(id, 1, "", false, [], 0.1)], 0.1))
  {
    var vs := [Volume(id, 1, "gp2", AVAILABLE, "", false, [])];
    assert vs[..|vs| - 1] == [];
    var us := [UnusedVolume(id, 1, "", false, [], 0.1)];
    assert CostPerGb("gp2") == Some(0.1);
    assert ScanVolumesWith(vs[..0], CostPerGb) == Ok([]);
    assert ScanVolumesWith(vs, CostPerGb) == Ok([] + us);
    assert us[..|us| - 1] == [];
    assert MonthlyCosts(us) == [] + [0.1];
    assert [0.1][..|[0.1]| - 1] == [];
    assert Sum([0.1]) == 0.1;
  }

  // get_old_snapshots

  datatype Snapshot = Snapshot(snapshotId: Id, startTime: int, volumeSize: nat)

  /** Strictly more than `days` days between the start time and now. */
  predicate IsOld(s: Snapshot, now: int, days: int) {
    now - s.startTime > days * SECONDS_PER_DAY
  }

  /** Reference definition: the positions of the old snapshots, in
      increasing order, each old position once. */
  ghost function OldIndices(snapshots: seq<Snapshot>, now: int, days: int): (r: seq<nat>)
    ensures forall k | 0 <= k < |r| :: r[k] < |snapshots| && IsOld(snapshots[r[k]], now, days)
    ensures forall k, l | 0 <= k < l < |r| :: r[k] < r[l]
    ensures forall i | 0 <= i < |snapshots| && IsOld(snapshots[i], now, days) :: i in r
    ensures |r| <= |snapshots|
  {
    if snapshots == [] then []
    else
      var p := snapshots[..|snapshots| - 1];
      assert forall i | 0 <= i < |p| :: p[i] == snapshots[i];
      OldIndices(p, now, days) + (if IsOld(snapshots[|snapshots| - 1], now, days) then [|snapshots| - 1] else [])
  }

  /** `get_old_snapshots`, with the clock reading as a parameter: the ids of
      the old snapshots, in listing order. */
  function GetOldSnapshots(snapshots: seq<Snapshot>, now: int, days: int): (r: seq<Id>)
    ensures |r| == |OldIndices(snapshots, now, days)|
    ensures forall k | 0 <= k < |r| :: r[k] == snapshots[OldIndices(snapshots, now, days)[k]].snapshotId
  {
    if snapshots == [] then []
    else
      var p, s := snapshots[..|snapshots| - 1], snapshots[|snapshots| - 1];
      var ip := OldIndices(p, now, days);
      assert OldIndices(snapshots, now, days) == ip + (if IsOld(s, now, days) then [|p|] else []);
      assert forall k | 0 <= k < |ip| :: snapshots[ip[k]] == p[ip[k]];
      GetOldSnapshots(p, now, days) + (if IsOld(s, now, days) then [s.snapshotId] else [])
  }

  /** An id is returned exactly when a snapshot with that id is older than
      the limit. */
  lemma OldSnapshotsMember(snapshots: seq<Snapshot>, now: int, days: int, id: Id)
    ensures id in GetOldSnapshots(snapshots, now, days) <==>
      exists i | 0 <= i < |snapshots| :: snapshots[i].snapshotId == id && IsOld(snapshots[i], now, days)
    ensures |GetOldSnapshots(snapshots, now, days)| <= |snapshots|
  {
    var r, ix := GetOldSnapshots(snapshots, now, days), OldIndices(snapshots, now, days);
    if id in r {
      var k :| 0 <= k < |r| && r[k] == id;
      assert snapshots[ix[k]].snapshotId == id && IsOld(snapshots[ix[k]], now, days);
    }
    if exists i | 0 <= i < |snapshots| :: snapshots[i].snapshotId == id && IsOld(snapshots[i], now, days) {
      var i :| 0 <= i < |snapshots| && snapshots[i].snapshotId == id && IsOld(snapshots[i], now, days);
      var k :| 0 <= k < |ix| && ix[k] == i;
      assert r[k] == id;
    }
  }

  /** A snapshot old at a longer limit is old at every shorter one. */
  lemma {:induction false} OldSnapshotsMonotone(snapshots: seq<Snapshot>, now: int, shorter: int, longer: int, id: Id)
    requires shorter <= longer
    ensures id in GetOldSnapshots(snapshots, now, longer) ==> id in GetOldSnapshots(snapshots, now, shorter)
  {
    OldSnapshotsMember(snapshots, now, longer, id);
    OldSnapshotsMember(snapshots, now, shorter, id);
    if id in GetOldSnapshots(snapshots, now, longer) {
      var i :| 0 <= i < |snapshots| && snapshots[i].snapshotId == id && IsOld(snapshots[i], now, longer);
      assert shorter * SECONDS_PER_DAY <= longer * SECONDS_PER_DAY;
      assert IsOld(snapshots[i], now, shorter);
    }
  }

  // estimate_snapshots_cost

  /** Dollars per GB-month of snapshot storage. */
  const PRICE_PER_GB_MONTH: real := 0.05

  /** describe_snapshots raises for an id it does not know. */
  datatype SnapshotError = SnapshotNotFound(snapshotId: Id)

  /** The summed VolumeSize of the snapshots, or the first id the service
      does not know. */
  function TotalSize(sizes: map<Id, nat>, ids: seq<Id>): Result<nat, SnapshotError> {
    if ids == [] then Ok(0)
    else
      var r := TotalSize(sizes, ids[..|ids| - 1]);
      var id := ids[|ids| - 1];
      if r.Err? then r else if id !in sizes then Err(SnapshotNotFound(id)) else Ok(r.value + sizes[id])
  }

  function CostOf(r: Result<nat, SnapshotError>): Result<real, SnapshotError> {
    match r
    case Err(e) => Err(e)
    case Ok(n) => Ok(n as real * PRICE_PER_GB_MONTH)
  }

  /** `estimate_snapshots_cost`: one describe_snapshots lookup per id, the
      sizes accumulated in `totalSizeGb`. */
  method EstimateSnapshotsCost(sizes: map<Id, nat>, snapshotIds: seq<Id>) returns (r: Result<real, SnapshotError>)
    ensures r == CostOf(TotalSize(sizes, snapshotIds))
  {
    var totalSizeGb: nat := 0;
    for i := 0 to |snapshotIds|
      invariant TotalSize(sizes, snapshotIds[..i]) == Ok(totalSizeGb)
    {
      assert snapshotIds[..i + 1][..i] == snapshotIds[..i];
      var snapshotId := snapshotIds[i];
      if snapshotId !in sizes {
        assert snapshotIds == snapshotIds[..i + 1] + snapshotIds[i + 1..];
        TotalSizeErrStays(sizes, snapshotIds[..i + 1], snapshotIds[i + 1..]);
        return Err(SnapshotNotFound(snapshotId));
      }
      totalSizeGb := totalSizeGb + sizes[snapshotId];
    }
    assert snapshotIds[..|snapshotIds|] == snapshotIds;
    r := Ok(totalSizeGb as real * PRICE_PER_GB_MONTH);
  }

  lemma {:induction false} TotalSizeErrStays(sizes: map<Id, nat>, a: seq<Id>, b: seq<Id>)
    requires TotalSize(sizes, a).Err?
    ensures TotalSize(sizes, a + b) == TotalSize(sizes, a)
  {
    if b == [] {
      assert a + b == a;
    } else {
      assert (a + b)[..|a + b| - 1] == a + b[..|b| - 1];
      TotalSizeErrStays(sizes, a, b[..|b| - 1]);
    }
  }

  /** The estimate fails exactly when some id is unknown, naming one; the
      size of a concatenation is the sum of the parts' sizes. */
  lemma {:induction false} TotalSizeAppend(sizes: map<Id, nat>, a: seq<Id>, b: seq<Id>)
    ensures TotalSize(sizes, a + b).Ok? <==> TotalSize(sizes, a).Ok? && TotalSize(sizes, b).Ok?
    ensures TotalSize(sizes, a + b).Ok? ==> TotalSize(sizes, a + b).value == TotalSize(sizes, a).value + TotalSize(sizes, b).value
  {
    if b == [] {
      assert a + b == a;
    } else {
      var p := b[..|b| - 1];
      assert (a + b)[..|a + b| - 1] == a + p;
      TotalSizeAppend(sizes, a, p);
    }
  }

  lemma {:induction false} TotalSizeSpec(sizes: map<Id, nat>, ids: seq<Id>)
    ensures TotalSize(sizes, ids).Ok? <==> forall i | 0 <= i < |ids| :: ids[i] in sizes
    ensures TotalSize(sizes, ids).Err? ==> TotalSize(sizes, ids).error.snapshotId in ids && TotalSize(sizes, ids).error.snapshotId !in sizes
    ensures TotalSize(sizes, ids).Ok? ==> (TotalSize(sizes, ids).value == 0 <==> forall i | 0 <= i < |ids| :: sizes[ids[i]] == 0)
  {
    if ids != [] {
      var p := ids[..|ids| - 1];
      TotalSizeSpec(sizes, p);
      assert forall i | 0 <= i < |p| :: p[i] == ids[i];
      assert ids[|ids| - 1] in ids;
    }
  }

  /** The estimate is 0.05 per GB of the snapshots' summed size: never
      negative, and zero exactly when every snapshot is empty. */
  lemma EstimateSpec(sizes: map<Id, nat>, ids: seq<Id>)
    ensures CostOf(TotalSize(sizes, ids)).Ok? <==> forall i | 0 <= i < |ids| :: ids[i] in sizes
    ensures CostOf(TotalSize(sizes, ids)).Ok? ==>
      && CostOf(TotalSize(sizes, ids)).value >= 0.0
      && (CostOf(TotalSize(sizes, ids)).value == 0.0 <==> forall i | 0 <= i < |ids| :: sizes[ids[i]] == 0)
  {
    TotalSizeSpec(sizes, ids);
  }

  // delete_ebs_volumes and delete_ebs_snapshots

  datatype Resource = VolumeResource | SnapshotResource

  datatype Ec2Event =
    | Announced(resource: Resource, id: Id)              // "Deleting volume/snapshot ..." printed
    | DeleteCall(resource: Resource, id: Id, succeeded: bool)

  datatype Ec2World = Ec2World(volumes: set<Id>, snapshots: set<Id>, log: seq<Ec2Event>)

  /** Deletions refused for reasons the model does not track (a volume still
      attached, a snapshot backing an image, missing permissions). */
  datatype Ec2Oracle = Ec2Oracle(volumeFails: set<Id>, snapshotFails: set<Id>)

  function Live(w: Ec2World, res: Resource): set<Id> {
    if res == VolumeResource then w.volumes else w.snapshots
  }

  function Refused(o: Ec2Oracle, res: Resource): set<Id> {
    if res == VolumeResource then o.volumeFails else o.snapshotFails
  }

  /** `volume.delete()` / `delete_snapshot`: raises for an unknown or refused id. */
  function DeleteCallRun(w: Ec2World, res: Resource, id: Id, o: Ec2Oracle): (Ec2World, bool) {
    var ok := id in Live(w, res) && id !in Refused(o, res);
    var volumes := if ok && res == VolumeResource then w.volumes - {id} else w.volumes;
    var snapshots := if ok && res == SnapshotResource then w.snapshots - {id} else w.snapshots;
    (Ec2World(volumes, snapshots, w.log + [DeleteCall(res, id, ok)]), ok)
  }

  /** The deletion loop: the message, then the call unless dry_run; the
      exception of a failed call is not caught and ends the loop (the
      flag is false then). */
  function DeleteRun(w: Ec2World, res: Resource, ids: seq<Id>, dryRun: bool, o: Ec2Oracle): (Ec2World, bool) {
    if ids == [] then (w, true)
    else
      var r := DeleteRun(w, res, ids[..|ids| - 1], dryRun, o);
      var id := ids[|ids| - 1];
      if !r.1 then r
      else
        var w1 := r.0.(log := r.0.log + [Announced(res, id)]);
        if dryRun then (w1, true) else DeleteCallRun(w1, res, id, o)
  }

  class Ec2Client {
    var volumes: set<Id>
    var snapshots: set<Id>
    var log: seq<Ec2Event>

    function State(): Ec2World
      reads this
    {
      Ec2World(volumes, snapshots, log)
    }

    constructor(volumes0: set<Id>, snapshots0: set<Id>)
      ensures State() == Ec2World(volumes0, snapshots0, [])
    {
      volumes, snapshots, log := volumes0, snapshots0, [];
    }

    method Delete(res: Resource, id: Id, o: Ec2Oracle) returns (ok: bool)
      modifies this
      ensures (State(), ok) == DeleteCallRun(old(State()), res, id, o)
    {
      if res == VolumeResource {
        ok := id in volumes && id !in o.volumeFails;
        if ok {
          volumes := volumes - {id};
        }
      } else {
        ok := id in snapshots && id !in o.snapshotFails;
        if ok {
          snapshots := snapshots - {id};
        }
      }
      log := log + [DeleteCall(res, id, ok)];
    }

    /** The loop both deletion helpers share. */
    method DeleteAll(res: Resource, ids: seq<Id>, dryRun: bool, o: Ec2Oracle) returns (completed: bool)
      modifies this
      ensures (State(), completed) == DeleteRun(old(State()), res, ids, dryRun, o)
    {
      for i := 0 to |ids|
        invariant (State(), true) == DeleteRun(old(State()), res, ids[..i], dryRun, o)
      {
        assert ids[..i + 1][..i] == ids[..i];
        log := log + [Announced(res, ids[i])];
        if !dryRun {
          var ok := Delete(res, ids[i], o);
          if !ok {
            assert ids == ids[..i + 1] + ids[i + 1..];
            DeleteRunStops(old(State()), res, ids[..i + 1], ids[i + 1..], dryRun, o);
            return false;
          }
        }
      }
      assert ids[..|ids|] == ids;
      completed := true;
    }

    /** `delete_ebs_volumes`. */
    method DeleteEbsVolumes(volumeIds: seq<Id>, dryRun: bool, o: Ec2Oracle) returns (completed: bool)
      modifies this
      ensures (State(), completed) == DeleteRun(old(State()), VolumeResource, volumeIds, dryRun, o)
      ensures dryRun ==> completed && volumes == old(volumes) && snapshots == old(snapshots)
      ensures snapshots == old(snapshots)
    {
      completed := DeleteAll(VolumeResource, volumeIds, dryRun, o);
      if dryRun {
        DeleteRunDry(old(State()), VolumeResource, volumeIds, o);
      } else {
        DeleteRunReal(old(State()), VolumeResource, volumeIds, o);
      }
    }

    /** `delete_ebs_snapshots`. */
    method DeleteEbsSnapshots(snapshotIds: seq<Id>, dryRun: bool, o: Ec2Oracle) returns (completed: bool)
      modifies this
      ensures (State(), completed) == DeleteRun(old(State()), SnapshotResource, snapshotIds, dryRun, o)
      ensures dryRun ==> completed && volumes == old(volumes) && snapshots == old(snapshots)
      ensures volumes == old(volumes)
    {
      completed := DeleteAll(SnapshotResource, snapshotIds, dryRun, o);
      if dryRun {
        DeleteRunDry(old(State()), SnapshotResource, snapshotIds, o);
      } else {
        DeleteRunReal(old(State()), SnapshotResource, snapshotIds, o);
      }
    }
  }

  lemma {:induction false} DeleteRunStops(w: Ec2World, res: Resource, a: seq<Id>, b: seq<Id>, dryRun: bool, o: Ec2Oracle)
    requires !DeleteRun(w, res, a, dryRun, o).1
    ensures DeleteRun(w, res, a + b, dryRun, o) == DeleteRun(w, res, a, dryRun, o)
  {
    if b == [] {
      assert a + b == a;
    } else {
      assert (a + b)[..|a + b| - 1] == a + b[..|b| - 1];
      DeleteRunStops(w, res, a, b[..|b| - 1], dryRun, o);
    }
  }

  /** The ids the log announces, and the ids it shows a delete call for. */
  function AnnouncedIds(log: seq<Ec2Event>): seq<Id> {
    if log == [] then []
    else AnnouncedIds(log[..|log| - 1]) + (if log[|log| - 1].Announced? then [log[|log| - 1].id] else [])
  }

  function CalledIds(log: seq<Ec2Event>): seq<Id> {
    if log == [] then []
    else CalledIds(log[..|log| - 1]) + (if log[|log| - 1].DeleteCall? then [log[|log| - 1].id] else [])
  }

  function Elements(ids: seq<Id>): set<Id> {
    set x | x in ids
  }

  /** Reference definition: a real run goes through exactly when the ids
      are distinct (a second delete of one id finds it gone), each is live
      and none is refused. */
  predicate AllDeletable(w: Ec2World, res: Resource, ids: seq<Id>, o: Ec2Oracle) {
    && Distinct(ids)
    && forall i | 0 <= i < |ids| :: ids[i] in Live(w, res) && ids[i] !in Refused(o, res)
  }

  /** Under dry_run the loop announces every id, makes no delete call and
      changes nothing. */
  lemma {:induction false} DeleteRunDry(w: Ec2World, res: Resource, ids: seq<Id>, o: Ec2Oracle)
    ensures var r := DeleteRun(w, res, ids, true, o);
      && r.1
      && r.0.volumes == w.volumes && r.0.snapshots == w.snapshots
      && AnnouncedIds(r.0.log) == AnnouncedIds(w.log) + ids
      && CalledIds(r.0.log) == CalledIds(w.log)
  {
    if ids != [] {
      var p, id := ids[..|ids| - 1], ids[|ids| - 1];
      DeleteRunDry(w, res, p, o);
      var log0 := DeleteRun(w, res, p, true, o).0.log;
      assert (log0 + [Announced(res, id)])[..|log0|] == log0;
      LastSplit(ids);
    }
  }

  /** A real run touches only its own kind of resource and never brings one
      back. */
  lemma {:induction false} DeleteRunFrame(w: Ec2World, res: Resource, ids: seq<Id>, o: Ec2Oracle)
    ensures var r := DeleteRun(w, res, ids, false, o);
      && (res == VolumeResource ==> r.0.snapshots == w.snapshots)
      && (res == SnapshotResource ==> r.0.volumes == w.volumes)
      && Live(r.0, res) <= Live(w, res)
  {
    if ids != [] {
      var p, id := ids[..|ids| - 1], ids[|ids| - 1];
      DeleteRunFrame(w, res, p, o);
      var r0 := DeleteRun(w, res, p, false, o);
      if r0.1 {
        var w1 := r0.0.(log := r0.0.log + [Announced(res, id)]);
        assert DeleteRun(w, res, ids, false, o) == DeleteCallRun(w1, res, id, o);
      }
    }
  }

  /** A real run goes through exactly when every id is deletable, and then
      removes exactly them. */
  lemma {:induction false} DeleteRunComplete(w: Ec2World, res: Resource, ids: seq<Id>, o: Ec2Oracle)
    ensures var r := DeleteRun(w, res, ids, false, o);
      && (r.1 <==> AllDeletable(w, res, ids, o))
      && (r.1 ==> Live(r.0, res) == Live(w, res) - Elements(ids))
  {
    if ids != [] {
      var p, id := ids[..|ids| - 1], ids[|ids| - 1];
      DeleteRunComplete(w, res, p, o);
      var r0 := DeleteRun(w, res, p, false, o);
      assert Elements(ids) == Elements(p) + {id} by {
        LastSplit(ids);
      }
      if r0.1 {
        DeletableStep(w, res, ids, o);
        var w1 := r0.0.(log := r0.0.log + [Announced(res, id)]);
        assert DeleteRun(w, res, ids, false, o) == DeleteCallRun(w1, res, id, o);
        assert Live(w1, res) == Live(w, res) - Elements(p);
      } else {
        assert !AllDeletable(w, res, ids, o) by {
          if AllDeletable(w, res, ids, o) {
            assert forall i | 0 <= i < |p| :: p[i] == ids[i];
            assert AllDeletable(w, res, p, o);
          }
        }
      }
    }
  }

  /** Outside dry_run the loop deletes only ids of its own kind; it
      completes exactly when the ids are all deletable, and then it has
      removed exactly them. */
  lemma DeleteRunReal(w: Ec2World, res: Resource, ids: seq<Id>, o: Ec2Oracle)
    ensures var r := DeleteRun(w, res, ids, false, o);
      && (res == VolumeResource ==> r.0.snapshots == w.snapshots)
      && (res == SnapshotResource ==> r.0.volumes == w.volumes)
      && Live(r.0, res) <= Live(w, res)
      && (r.1 <==> AllDeletable(w, res, ids, o))
      && (r.1 ==> Live(r.0, res) == Live(w, res) - Elements(ids))
  {
    DeleteRunFrame(w, res, ids, o);
    DeleteRunComplete(w, res, ids, o);
  }

  /** A completed real run called delete once per id, in order. */
  lemma {:induction false} DeleteRunCalls(w: Ec2World, res: Resource, ids: seq<Id>, o: Ec2Oracle)
    ensures var r := DeleteRun(w, res, ids, false, o);
      && AnnouncedIds(w.log) <= AnnouncedIds(r.0.log) && AnnouncedIds(r.0.log) <= AnnouncedIds(w.log) + ids
      && (r.1 ==> CalledIds(r.0.log) == CalledIds(w.log) + ids && AnnouncedIds(r.0.log) == AnnouncedIds(w.log) + ids)
  {
    if ids != [] {
      var p, id := ids[..|ids| - 1], ids[|ids| - 1];
      DeleteRunCalls(w, res, p, o);
      var r0 := DeleteRun(w, res, p, false, o);
      LastSplit(ids);
      if r0.1 {
        var c := DeleteCallRun(r0.0.(log := r0.0.log + [Announced(res, id)]), res, id, o);
        assert DeleteRun(w, res, ids, false, o) == c;
        DeleteStepLog(r0.0.log, res, id, c.1);
        assert c.0.log == r0.0.log + [Announced(res, id)] + [DeleteCall(res, id, c.1)];
      }
    }
  }

  /** One real pass logs the message and the call for its id. */
  lemma DeleteStepLog(log: seq<Ec2Event>, res: Resource, id: Id, ok: bool)
    ensures AnnouncedIds(log + [Announced(res, id)] + [DeleteCall(res, id, ok)]) == AnnouncedIds(log) + [id]
    ensures CalledIds(log + [Announced(res, id)] + [DeleteCall(res, id, ok)]) == CalledIds(log) + [id]
  {
    var log1 := log + [Announced(res, id)];
    assert log1[..|log|] == log;
    assert (log1 + [DeleteCall(res, id, ok)])[..|log1|] == log1;
  }

  lemma DeletableStep(w: Ec2World, res: Resource, ids: seq<Id>, o: Ec2Oracle)
    requires ids != [] && AllDeletable(w, res, ids[..|ids| - 1], o)
    ensures AllDeletable(w, res, ids, o) <==>
      var id := ids[|ids| - 1];
      id in Live(w, res) - Elements(ids[..|ids| - 1]) && id !in Refused(o, res)
  {
    var p, id := ids[..|ids| - 1], ids[|ids| - 1];
    assert forall i | 0 <= i < |p| :: p[i] == ids[i];
    if id in Elements(p) {
      var i :| 0 <= i < |p| && p[i] == id;
      assert ids[i] == ids[|ids| - 1];
    }
  }

  /** The test: a real run deletes the one volume it is given. */
  lemma DeleteOneVolume(id: Id)
    ensures DeleteRun(Ec2World({id}, {}, []), VolumeResource, [id], false, Ec2Oracle({}, {})).0.volumes == {}
  {
    assert [id][..0] == [];
    assert {id} - {id} == {};
  }
}
