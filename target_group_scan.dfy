/** The target-group classifier `scan_for_tgs_no_targets_or_lb` (in the older
    copy `get_tgs_no_targets_or_lb`): it builds a dictionary keyed by target
    group ARN from describe_target_groups and describe_target_health, then
    emits a group once for each of the two conditions it meets, "no
    registered targets" and "no load balancer". */
module TargetGroupScan {
  import opened Common
  import Dicts

  /** One element of describe_target_groups with the answer of
      describe_target_health for it, as counts. */
  datatype TargetGroupReport = TargetGroupReport(arn: Id, healthDescriptions: nat, loadBalancerArns: nat)

  /** What the ARN-keyed dictionary keeps per target group. */
  datatype TargetGroupFacts = TargetGroupFacts(healthDescriptions: nat, loadBalancerArns: nat)

  function Facts(r: TargetGroupReport): TargetGroupFacts {
    TargetGroupFacts(r.healthDescriptions, r.loadBalancerArns)
  }

  function Pairs(reports: seq<TargetGroupReport>): seq<(Id, TargetGroupFacts)> {
    if reports == [] then []
    else Pairs(reports[..|reports| - 1]) + [(reports[|reports| - 1].arn, Facts(reports[|reports| - 1]))]
  }

  /** The `unused_target_groups` dictionary comprehension. */
  function Index(reports: seq<TargetGroupReport>): seq<(Id, TargetGroupFacts)> {
    Dicts.FromPairs(Pairs(reports))
  }

  /** How many of the two conditions a group meets. */
  function Conditions(f: TargetGroupFacts): nat {
    (if f.healthDescriptions == 0 then 1 else 0) + (if f.loadBalancerArns == 0 then 1 else 0)
  }

  /** What one pass of the loop appends for one dictionary entry. */
  function Emit(e: (Id, TargetGroupFacts)): seq<Id> {
    (if e.1.healthDescriptions == 0 then [e.0] else []) + (if e.1.loadBalancerArns == 0 then [e.0] else [])
  }

  /** The entries' emissions, in dictionary order. */
  function Candidates(index: seq<(Id, TargetGroupFacts)>): seq<Id> {
    if index == [] then [] else Candidates(index[..|index| - 1]) + Emit(index[|index| - 1])
  }

  /** `scan_for_tgs_no_targets_or_lb`: the loop over the dictionary appending
      to `tgs`. */
  method ScanForTgsNoTargetsOrLb(reports: seq<TargetGroupReport>) returns (tgs: seq<Id>)
    ensures tgs == Candidates(Index(reports))
    ensures reports == [] ==> tgs == []
  {
    var unusedTargetGroups := Index(reports);
    tgs := [];
    for i := 0 to |unusedTargetGroups|
      invariant tgs == Candidates(unusedTargetGroups[..i])
    {
      assert unusedTargetGroups[..i + 1][..i] == unusedTargetGroups[..i];
      var entry := unusedTargetGroups[i];
      if entry.1.healthDescriptions == 0 {
        tgs := tgs + [entry.0];
      }
      if entry.1.loadBalancerArns == 0 {
        tgs := tgs + [entry.0];
      }
    }
    assert unusedTargetGroups[..|unusedTargetGroups|] == unusedTargetGroups;
  }

  /** The last report about a target group ARN. */
  function LastReport(reports: seq<TargetGroupReport>, arn: Id): Option<TargetGroupReport> {
    if reports == [] then None
    else if reports[|reports| - 1].arn == arn then Some(reports[|reports| - 1])
    else LastReport(reports[..|reports| - 1], arn)
  }

  function Arns(reports: seq<TargetGroupReport>): seq<Id> {
    if reports == [] then [] else Arns(reports[..|reports| - 1]) + [reports[|reports| - 1].arn]
  }

  /** Over a dictionary (distinct keys), the emissions contain each ARN
      exactly as often as its entry meets a condition, and never an ARN that
      is not a key. */
  lemma {:induction false} CandidateCount(index: seq<(Id, TargetGroupFacts)>, a: Id)
    requires Distinct(Dicts.Keys(index))
    ensures Count(Candidates(index), a) ==
      match Dicts.Lookup(index, a)
      case None => 0
      case Some(f) => Conditions(f)
  {
    if index != [] {
      var p, x := index[..|index| - 1], index[|index| - 1];
      LastSplit(index);
      Dicts.KeysAppend(p, [x]);
      Dicts.KeysLength(index);
      assert Dicts.Keys([x]) == [x.0];
      forall i, j | 0 <= i < j < |Dicts.Keys(p)|
        ensures Dicts.Keys(p)[i] != Dicts.Keys(p)[j]
      {
        assert Dicts.Keys(p)[i] == Dicts.Keys(index)[i] && Dicts.Keys(p)[j] == Dicts.Keys(index)[j];
      }
      CandidateCount(p, a);
      CountAppend(Candidates(p), Emit(x), a);
      CountAppend(if x.1.healthDescriptions == 0 then [x.0] else [], if x.1.loadBalancerArns == 0 then [x.0] else [], a);
      Dicts.LookupAppend(p, x, a);
      if x.0 == a {
        assert x.0 !in Dicts.Keys(p) by {
          forall i | 0 <= i < |Dicts.Keys(p)| ensures Dicts.Keys(p)[i] != x.0 {
            assert Dicts.Keys(p)[i] == Dicts.Keys(index)[i];
            assert x.0 == Dicts.Keys(index)[|index| - 1];
          }
        }
        Dicts.LookupAbsent(p, a);
      }
    }
  }

  lemma {:induction false} PairsLastValue(reports: seq<TargetGroupReport>, arn: Id)
    ensures Dicts.LastValue(Pairs(reports), arn) ==
      match LastReport(reports, arn)
      case None => None
      case Some(r) => Some(Facts(r))
  {
    if reports != [] {
      var p := reports[..|reports| - 1];
      assert Pairs(reports)[..|Pairs(reports)| - 1] == Pairs(p);
      PairsLastValue(p, arn);
    }
  }

  /** The classifier's promise: a target group is emitted once for having no
      health descriptions and once more for having no load balancer ARNs
      (twice if both), judged on the last description of its ARN; a group
      with targets and a load balancer, and an ARN never described, are not
      emitted at all. */
  lemma ScanCounts(reports: seq<TargetGroupReport>, arn: Id)
    ensures Count(Candidates(Index(reports)), arn) ==
      match LastReport(reports, arn)
      case None => 0
      case Some(r) => (if r.healthDescriptions == 0 then 1 else 0) + (if r.loadBalancerArns == 0 then 1 else 0)
  {
    Dicts.FromPairsKeys(Pairs(reports));
    CandidateCount(Index(reports), arn);
    Dicts.FromPairsLookup(Pairs(reports), arn);
    PairsLastValue(reports, arn);
  }

  lemma {:induction false} PairsKeys(reports: seq<TargetGroupReport>)
    ensures Dicts.Keys(Pairs(reports)) == Arns(reports)
  {
    if reports != [] {
      var p := reports[..|reports| - 1];
      PairsKeys(p);
      Dicts.KeysAppend(Pairs(p), [(reports[|reports| - 1].arn, Facts(reports[|reports| - 1]))]);
    }
  }

  /** When describe_target_groups lists each ARN once (as the service does),
      the dictionary holds the reports in their listed order, so the output
      follows the describe order. */
  lemma IndexFollowsDescribeOrder(reports: seq<TargetGroupReport>)
    requires Distinct(Arns(reports))
    ensures Index(reports) == Pairs(reports)
    ensures Dicts.Keys(Index(reports)) == Arns(reports)
  {
    PairsKeys(reports);
    Dicts.FromPairsDistinct(Pairs(reports));
  }
}
