# aws-cost-mutilator in Dafny

The tool finds AWS resources that cost money and do nothing, and optionally
deletes them. This project is a Dafny model of its core, with proofs about
that model.

- `get_lb_hourly_costs` builds the price table of load balancers. For each
  class (`network` and `application`) it maps a region to its hourly
  `pricePerUnit`, and the first "Hrs" item seen for a region wins.
- `scan_for_tgs_no_targets_or_lb` (named `get_tgs_no_targets_or_lb` in
  `lib.py`) lists every target group once for each condition it meets:
  "no registered targets" and "no load balancer".
- `scan_for_lbs_no_targets` (named `get_lbs_no_targets`) builds the ordered
  dictionary `lbs`. It holds every load balancer that has a target group
  without targets, with that balancer's monthly cost (hourly price × 730),
  its empty target groups and its populated ones, plus `total_monthly_cost`.
- Three procedures delete against the Elastic Load Balancing service:
  `delete_tgs`, `disable_lb_deletion_protection` and `delete_lbs`. The
  class `Orchestrator.ElbClient` models the service:
  - its state is the live load balancers, their deletion-protection flags,
    the live target groups, and which load balancers reference each group;
  - beside the state it keeps a log of every call and of every "deleted …"
    message;
  - failures the service rules do not explain come from an `Oracle` value
    the procedures receive.
- The EBS helpers:
  - the unused-volume scan and its per-GB rates;
  - the snapshot age filter;
  - the snapshot storage estimate at 0.05 per GB-month;
  - the deletion loops of volumes and snapshots, both gated by `dry_run`
    (class `Ebs.Ec2Client`).
- The S3 helpers:
  - `get_buckets` sorts buckets into "empty" and "old";
  - `get_bucket_cost` prices the stored bytes at 0.023 per GB-month.
- The IAM helper `get_unused_iam_roles`. It skips service roles and reports
  a role when CloudTrail has no event for it, or when its latest event is
  older than the limit.

`ec2.py` and `lib.py` define the load-balancer functions with the same
code: only comments and the names of the two scans differ. They share one
model, and the table cites whichever file has the lines a property comes
from.

How the model represents things:
- Money is `real`, so prices, the 730-hour month and per-GB rates are
  exact.
- Times are whole seconds, and "now" is a parameter.
- AWS responses arrive as already-parsed records, reduced to the fields the
  code reads.
- A Python dictionary built by a comprehension is a sequence of (key, value)
  entries with Python's insertion-order semantics (module `Dicts`).
- Where the code loops and mutates, the model is a `method` with a loop. It
  is proved equal to a function, and the properties are lemmas about that
  function.

Modules:
- `Common`: Option, Result, Count, Sum and the day length.
- `Dicts`.
- `Pricing`.
- `TargetGroupScan`.
- `LoadBalancerScan`.
- `Orchestrator`.
- `Ebs`.
- `S3Scan`.
- `IamScan`.

## Model

| member | source | states |
|---|---|---|
| Dicts.FromPairsKeys | aws_cost_mutilator/ec2.py:191-199 | the keys of a dictionary built by a comprehension are distinct, and are exactly the keys that occur among the pairs |
| Dicts.FromPairsLookup | aws_cost_mutilator/ec2.py:191-199 | each key of the dictionary holds the value of its last pair (reference `LastValue`) |
| Dicts.FromPairsDistinct | aws_cost_mutilator/ec2.py:242-249 | when the keys are distinct, the dictionary is the pairs themselves, in order |
| Dicts.PutKeys | aws_cost_mutilator/ec2.py:191-199 | assigning to a present key keeps the key order; a new key goes last |
| Dicts.PutLookup | aws_cost_mutilator/ec2.py:191-199 | after `d[k] = v`, k maps to v and every other key keeps its value |
| Pricing.GetLbHourlyCosts | aws_cost_mutilator/ec2.py:41-72 | the nested loop returns exactly the table `HourlyCosts` describes, or raises when an item lacks an OnDemand term or a price dimension |
| Pricing.FillClassTable | aws_cost_mutilator/ec2.py:48-70 | the inner loop over one response raises exactly when some item lacks an OnDemand term or a price dimension, and otherwise leaves that class's table `ClassTable` describes |
| Pricing.ClassTableFirstWins | aws_cost_mutilator/ec2.py:56-70 | a region is in a class's table if and only if some "Hrs" item names it, and it holds the pricePerUnit of the first such item |
| Pricing.NeverOverwritten | aws_cost_mutilator/lib.py:87-89 | a region's recorded price is kept, whatever items follow |
| Pricing.NonHourlyIgnored | aws_cost_mutilator/lib.py:72-79 | removing an item whose first dimension is not billed in "Hrs" leaves the table unchanged |
| Pricing.FirstHourlySkip | aws_cost_mutilator/lib.py:72-79 | a non-hourly item changes no region's first hourly price |
| Pricing.FirstHourlyPriceAppend | aws_cost_mutilator/ec2.py:69-70 | a later item sets a region's first hourly price only when the region has none yet |
| Pricing.HourlyCostsShape | aws_cost_mutilator/lib.py:56-89 | the builder succeeds if and only if every item has a first OnDemand term and a first price dimension. Its table then has exactly the keys `network` and `application`, each filled first-wins from its own response alone |
| TargetGroupScan.ScanForTgsNoTargetsOrLb | aws_cost_mutilator/ec2.py:188-213 | `tgs` is the emissions of the ARN-keyed dictionary's entries, in dictionary order; an account without target groups yields `[]` |
| TargetGroupScan.CandidateCount | aws_cost_mutilator/ec2.py:207-211 | in a dictionary with distinct keys, an ARN is emitted once per condition its entry meets (0, 1 or 2 times), and never when it is not a key |
| TargetGroupScan.ScanCounts | aws_cost_mutilator/ec2.py:191-211 | an ARN is emitted once for zero health descriptions and once for zero load-balancer ARNs, judged by its last describe entry: twice when it meets both, never when it meets neither, never when it is not described |
| TargetGroupScan.PairsLastValue | aws_cost_mutilator/lib.py:168-176 | the comprehension keeps, for each ARN, the facts of its last describe entry |
| TargetGroupScan.IndexFollowsDescribeOrder | aws_cost_mutilator/lib.py:168-182 | when ARNs are distinct, each group is examined once, in describe order |
| LoadBalancerScan.Aggregate | aws_cost_mutilator/ec2.py:230-279 | the dictionary built so far has distinct keys in insertion order, each with a value |
| LoadBalancerScan.RecordEmptyGroups | aws_cost_mutilator/ec2.py:251-262 | the first inner loop creates the entry (cost, first empty group) or appends to `empty_target_groups`, for the empty groups in dictionary order |
| LoadBalancerScan.RecordPopulatedGroups | aws_cost_mutilator/ec2.py:264-279 | the second inner loop creates `populated_target_groups` on its first use and appends the populated groups in order |
| LoadBalancerScan.AddEmptyStep | aws_cost_mutilator/ec2.py:256-262 | one more empty group either extends the entry's list or creates the entry at the end |
| LoadBalancerScan.AddPopulatedStep | aws_cost_mutilator/ec2.py:274-279 | one more populated group extends the optional list, creating it if absent |
| LoadBalancerScan.AggregateLoadBalancers | aws_cost_mutilator/ec2.py:232-279 | the outer loop builds `Aggregate`: the dictionary, or the error of the first failing price lookup |
| LoadBalancerScan.ScanForLbsNoTargets | aws_cost_mutilator/ec2.py:216-283 | the scan fetches prices unless they are omitted, returns the bare 0 total when no load balancer exists, and otherwise returns the dictionary and its total (`ScanWithPricing`) |
| LoadBalancerScan.GroupsPartition | aws_cost_mutilator/ec2.py:251-279 | every target group is listed as empty (zero health descriptions) or as populated; the lists keep listing order and their lengths add up |
| LoadBalancerScan.GroupsDisjoint | aws_cost_mutilator/ec2.py:242-279 | no target group is both empty and populated |
| LoadBalancerScan.AggregateErrIff | aws_cost_mutilator/lib.py:220-224 | the scan raises if and only if the price lookup fails for some load balancer, reported or not; the error names the first such load balancer |
| LoadBalancerScan.AggregateErrPersists | aws_cost_mutilator/ec2.py:235-238 | once a lookup has raised, later load balancers change nothing |
| LoadBalancerScan.IncludedArnsMember | aws_cost_mutilator/ec2.py:256-257 | an ARN is reported if and only if a load balancer with that ARN has an empty target group |
| LoadBalancerScan.AbsorbFresh | aws_cost_mutilator/ec2.py:251-279 | one outer pass either adds a new load balancer at the end with its summary, when it has an empty group, or changes nothing |
| LoadBalancerScan.AggregateEntries | aws_cost_mutilator/ec2.py:251-279 | the keys are exactly the load balancers with an empty group, in describe order. Each key holds its cost, exactly its empty groups in order, and `populated_target_groups` if and only if it has a populated group, listing exactly those |
| LoadBalancerScan.AggregateOrder | aws_cost_mutilator/ec2.py:256-260 | the key order is the describe order of the reported load balancers |
| LoadBalancerScan.AggregateKeys | aws_cost_mutilator/ec2.py:256-257 | every key is the ARN of a scanned load balancer |
| LoadBalancerScan.AggregateLookup | aws_cost_mutilator/ec2.py:256-279 | a scanned load balancer is a key if and only if it has an empty group, and then holds its summary |
| LoadBalancerScan.TotalIsSumOfIncluded | aws_cost_mutilator/ec2.py:281 | `total_monthly_cost` sums one monthly cost per reported load balancer, however many empty groups each has |
| LoadBalancerScan.OmitPricingZero | aws_cost_mutilator/ec2.py:239-240 | with pricing omitted the scan never raises, and every cost and the total are 0 |
| LoadBalancerScan.MonthlyCostFromCatalog | aws_cost_mutilator/ec2.py:236-238 | a monthly cost is the first pricePerUnit value of the first hourly catalog item for the type and region, times 730; without such an item the lookup raises |
| LoadBalancerScan.SingleEmptyGroupReported | aws_cost_mutilator/tests.py:339-341 | a load balancer with one group without targets, scanned with pricing omitted, is reported at cost 0 |
| LoadBalancerScan.ScanLbsReport | aws_cost_mutilator/ec2.py:224-283 | the scan raises if and only if a price lookup fails; otherwise it reports exactly the load balancers with an empty group, in order, with their summaries and the sum of their costs |
| LoadBalancerScan.NoneQualifies | aws_cost_mutilator/lib.py:237-271 | when no load balancer has an empty group (including when there are none), the result is just the total 0 |
| LoadBalancerScan.NoCostsWithoutIncluded | aws_cost_mutilator/lib.py:271 | nothing is summed when nothing is reported |
| LoadBalancerScan.PricingFetchedFirst | aws_cost_mutilator/lib.py:202-210 | with pricing on, a malformed catalog fails the scan even when there is no load balancer, and only a malformed catalog gives that error |
| Orchestrator.ElbClient.constructor | aws_cost_mutilator/ec2.py:98-99 | the client starts from the given service state with an empty log |
| Orchestrator.ElbClient.DescribeLoadBalancerAttributes | aws_cost_mutilator/ec2.py:105-113 | returns the deletion-protection flag, or raises for an unknown load balancer; only the log changes |
| Orchestrator.ElbClient.DisableLbDeletionProtection | aws_cost_mutilator/ec2.py:90-94 | after a successful call the load balancer is unprotected, and no load balancer or target group changes |
| Orchestrator.ElbClient.DeleteLoadBalancer | aws_cost_mutilator/ec2.py:119-122 | raises for a protected load balancer; a non-200 status changes nothing; success removes the load balancer |
| Orchestrator.ElbClient.WaitLoadBalancersDeleted | aws_cost_mutilator/ec2.py:127-131 | the waiter returns if and only if the load balancer is gone |
| Orchestrator.ElbClient.DeleteTargetGroup | aws_cost_mutilator/ec2.py:82 | raises while a live load balancer references the group; success removes it |
| Orchestrator.ElbClient.DeleteTgs | aws_cost_mutilator/ec2.py:75-87 | the loop ends in the state `DeleteTgsRun` gives: for each ARN, the call unless dry_run, with its failure caught, then the message |
| Orchestrator.ElbClient.AttemptDeleteLb | aws_cost_mutilator/ec2.py:104-125 | the try block runs describe, then disable when protected, then delete; the first call that raises ends the block |
| Orchestrator.ElbClient.DeleteLbsWith | aws_cost_mutilator/ec2.py:101-135 | the loop reaches the state `DeleteLbsRun` gives, and `completed` is false exactly where the waiter raised |
| Orchestrator.ElbClient.DeleteLbs | aws_cost_mutilator/ec2.py:97-137 | `delete_lbs` as written: `delete_tgs` runs without dry_run |
| Orchestrator.ElbClient.DeleteLbsForwardingDryRun | aws_cost_mutilator/ec2.py:133-135 | with dry_run forwarded, a dry run completes and leaves every load balancer, flag, target group and reference as it was |
| Orchestrator.TgStepLog | aws_cost_mutilator/ec2.py:79-85 | one pass logs a delete call only when not under dry_run, and always logs the message |
| Orchestrator.DeleteTgsLog | aws_cost_mutilator/ec2.py:79-85 | the log only grows. It gains no delete calls under dry_run, otherwise exactly one per ARN in list order whatever fails, and one message per ARN in every case |
| Orchestrator.DeleteTgsInfra | aws_cost_mutilator/lib.py:99-105 | `delete_tgs` changes nothing under dry_run. Otherwise it changes only target groups, and exactly the deletable ones are gone |
| Orchestrator.DeleteTgsTail | aws_cost_mutilator/ec2.py:79-85 | `delete_tgs` logs only target-group entries |
| Orchestrator.DeleteLbsAbortedStays | aws_cost_mutilator/ec2.py:128-131 | a waiter exception ends the run: later entries change nothing |
| Orchestrator.ReportLog | aws_cost_mutilator/ec2.py:133-135 | the end of a pass logs the message and then `delete_tgs` of the entry's empty groups |
| Orchestrator.AttemptWaitLog | aws_cost_mutilator/ec2.py:104-131 | the try block and the wait log only calls about the load balancer |
| Orchestrator.LbStepLog | aws_cost_mutilator/ec2.py:102-135 | a pass under dry_run never aborts. A completed pass adds its messages and target-group calls; an aborted pass adds none |
| Orchestrator.DeleteLbsLog | aws_cost_mutilator/lib.py:123-159 | a dry run completes. A completed run logs, per entry in order, its "deleted load balancer" message and its target-group calls and messages, even under dry_run; an aborted run logs a prefix of those |
| Orchestrator.LbStepDryRunInfra | aws_cost_mutilator/ec2.py:103 | a dry-run pass changes no load balancer, protection flag or reference |
| Orchestrator.DeleteLbsDryRunInfra | aws_cost_mutilator/ec2.py:103-135 | a dry run of `delete_lbs` changes at most target groups, and changes nothing when dry_run is forwarded |
| Orchestrator.DryRunChangesNothing | aws_cost_mutilator/ec2.py:133-135 | with dry_run forwarded, a dry run completes, changes nothing and makes no delete call of either kind |
| Orchestrator.AttemptDeleteCalls | aws_cost_mutilator/lib.py:127-148 | the try block logs one to three calls about the load balancer, describe first and in order. Disable happens if and only if describe succeeded and the load balancer is protected. Delete happens if and only if describe succeeded and the balancer was unprotected or disabling worked. No target group changes |
| Orchestrator.StepShapeOrdered | aws_cost_mutilator/ec2.py:104-135 | the try-block calls, the wait, and then, if the wait returned, the message and the target-group entries, in phase order |
| Orchestrator.ReportedTail | aws_cost_mutilator/ec2.py:133-135 | the message comes before all target-group entries |
| Orchestrator.DeletingStepOrder | aws_cost_mutilator/ec2.py:103-135 | for a load balancer being deleted, the log is describe, then disable (exactly when protected), then delete, then wait, all before any target-group call. The run aborts if and only if the balancer is live and was not removed: then the failed wait is last. Otherwise the balancer is gone and the message follows |
| Orchestrator.DeletingStepSplit | aws_cost_mutilator/ec2.py:103-135 | a deleting pass's log is the try block's calls, the wait, and, when the wait returned, the message and the target-group entries |
| Orchestrator.LbStepCalls | aws_cost_mutilator/ec2.py:103 | a pass calls about a load balancer only when not under dry_run and the entry has no `populated_target_groups`; only a failed wait aborts it |
| Orchestrator.DeleteLbsLbCalls | aws_cost_mutilator/ec2.py:102-135 | `delete_lbs` calls only about entries without `populated_target_groups`, and only when not under dry_run; an aborted run ends with a failed wait |
| Orchestrator.DeleteLbsTestScenario | aws_cost_mutilator/tests.py:96-121 | in the test's setup, the dry run keeps the load balancer and the group, but logs a refused delete of the group. The real run that follows deletes both |
| Orchestrator.DryRunDeletesTargetGroups | aws_cost_mutilator/ec2.py:135 | as written, a dry run issues `delete_target_group` calls; for a group no live load balancer references (a hand-built entry) the call goes through, the group is gone and the load balancer stays |
| Orchestrator.KeptGroupsSurvive | aws_cost_mutilator/ec2.py:79-85 | `delete_tgs` never removes a target group that a live load balancer references, and changes no load balancer or reference |
| Orchestrator.KeptLbGroupsStay | aws_cost_mutilator/ec2.py:103-135 | a real pass over an entry with `populated_target_groups` never aborts and changes no load balancer or reference. Every empty group the load balancer still references survives, yet each empty group gets its "deleted target group" message |
| Orchestrator.KeptLbGroupRefused | aws_cost_mutilator/__main__.py:266 | as written, with lb-A forwarding to empty tg-1 and populated tg-2, the real run completes and changes nothing: the delete of tg-1 is refused, and its message is logged all the same |
| Orchestrator.DetachFreesEmptyGroups | aws_cost_mutilator/__main__.py:266 | with the detach the prompt announces, a real pass over a kept load balancer deletes each of its empty groups that no other live load balancer uses and whose delete does not fail. Nothing else goes: the load balancer and every other group remain |
| Orchestrator.KeptLbDetachScenario | aws_cost_mutilator/__main__.py:266 | with the detach, the pass over lb-A deletes tg-1 and keeps lb-A and tg-2 |
| Orchestrator.FailedDeleteEndsBatch | aws_cost_mutilator/ec2.py:124-131 | as written, with two load balancers and a raising delete of the first, the run is cut short by the waiter: nothing is deleted and the second load balancer is never looked at |
| Orchestrator.LbStepOutcome | aws_cost_mutilator/ec2.py:102-135 | every pass closes exactly once, with its "deleted load balancer" message or with the failed wait, about its own load balancer |
| Orchestrator.CatchingRunClosesEveryEntry | aws_cost_mutilator/ec2.py:124-131 | with the waiter's exception caught, the run never stops early: every entry's pass runs and closes, in dictionary order |
| Orchestrator.CatchingRunAgrees | aws_cost_mutilator/ec2.py:101-135 | where the run as written completes, catching the waiter's exception leaves the same state and log |
| Orchestrator.CatchingRunDeletesLaterEntries | aws_cost_mutilator/ec2.py:124-131 | with the waiter's exception caught, the failed first load balancer and its group stay, and the second load balancer and then its group are deleted |
| Ebs.ScanForUnusedEbsVolumes | aws_cost_mutilator/ec2.py:286-321 | the scan raises with the id and type of an available volume whose type the rate table lacks. Otherwise it returns one report per available volume, in listing order, with its fields and MonthlyCost = Size × rate; `ScanTotal` gives the summed MonthlyCost |
| Ebs.GetOldSnapshots | aws_cost_mutilator/ec2.py:174-185 | the ids of exactly the snapshots that started more than days × 86400 s before `now`, in listing order |
| Ebs.AvailableMember | aws_cost_mutilator/ec2.py:312-313 | a volume is kept if and only if its State is "available" |
| Ebs.ScanVolumesSpec | aws_cost_mutilator/ec2.py:302-315 | the scan raises if and only if an available volume has a type the rate table lacks. Otherwise it reports each available volume in order, with MonthlyCost = Size × rate |
| Ebs.MonthlyCostsSum | aws_cost_mutilator/ec2.py:317-319 | the summed MonthlyCost is the sum of size × rate over the available volumes |
| Ebs.ScanTotal | aws_cost_mutilator/ec2.py:286-321 | the scan succeeds exactly when the rates are known, and its total is the available volumes' cost |
| Ebs.ScanOneVolume | aws_cost_mutilator/ec2.py:302-319 | the scan reports one available 1 GB gp2 volume (the volume `tests.py:350` creates) at 0.1 a month |
| Ebs.OldSnapshotsMember | aws_cost_mutilator/ec2.py:179-183 | an id is returned if and only if a snapshot with that id started more than `days` days before now; the result is no longer than the listing |
| Ebs.OldSnapshotsMonotone | aws_cost_mutilator/ec2.py:182 | a snapshot that is old at a longer limit is old at every shorter one |
| Ebs.EstimateSnapshotsCost | aws_cost_mutilator/ec2.py:149-163 | the loop's result is 0.05 × the summed VolumeSize, or the error of the first unknown id |
| Ebs.TotalSizeErrStays | aws_cost_mutilator/ec2.py:157-159 | after a failing lookup, later ids change nothing |
| Ebs.TotalSizeAppend | aws_cost_mutilator/ec2.py:156-159 | the size of two runs of ids is the sum of their sizes |
| Ebs.TotalSizeSpec | aws_cost_mutilator/ec2.py:156-159 | the sum succeeds if and only if every id is known, and a failure names an unknown id; the total is 0 if and only if every snapshot has size 0 |
| Ebs.EstimateSpec | aws_cost_mutilator/ec2.py:154-161 | the estimate succeeds if and only if every id is known. It is never negative, and it is 0 if and only if every snapshot is empty |
| Ebs.Ec2Client.constructor | aws_cost_mutilator/ec2.py:141 | the client starts from the given volumes and snapshots with an empty log |
| Ebs.Ec2Client.Delete | aws_cost_mutilator/ec2.py:146 | a delete call removes a live, unrefused id, and raises otherwise |
| Ebs.Ec2Client.DeleteAll | aws_cost_mutilator/ec2.py:142-146 | the loop reaches the state `DeleteRun` gives |
| Ebs.Ec2Client.DeleteEbsVolumes | aws_cost_mutilator/ec2.py:140-146 | under dry_run no volume changes; snapshots never change |
| Ebs.Ec2Client.DeleteEbsSnapshots | aws_cost_mutilator/ec2.py:166-171 | under dry_run no snapshot changes; volumes never change |
| Ebs.DeleteRunStops | aws_cost_mutilator/ec2.py:146 | an uncaught delete failure ends the loop: later ids change nothing |
| Ebs.DeleteRunDry | aws_cost_mutilator/ec2.py:145-146 | under dry_run every id is announced, no delete is called and nothing changes |
| Ebs.DeleteRunReal | aws_cost_mutilator/ec2.py:170-171 | a real run touches only its own kind of resource. It goes through if and only if the ids are distinct, live and not refused, and then it removes exactly them |
| Ebs.DeleteRunCalls | aws_cost_mutilator/ec2.py:168-171 | a completed real run announces and deletes each id once, in order |
| Ebs.DeleteOneVolume | aws_cost_mutilator/tests.py:371-375 | deleting the test's one volume leaves none |
| S3Scan.GetBucketsWith | aws_cost_mutilator/s3.py:10-30 | the loop's two lists are the `OldBuckets` and `EmptyBuckets` of the listing |
| S3Scan.GetBuckets | aws_cost_mutilator/s3.py:5-30 | `get_buckets` as written, judging age by the first listed object |
| S3Scan.GetBucketsByNewest | aws_cost_mutilator/s3.py:24-28 | `get_buckets` judging age by the newest object, as its variable name says |
| S3Scan.EmptyMember | aws_cost_mutilator/s3.py:19-22 | a name is in `empty` if and only if a bucket of that name has no objects |
| S3Scan.OldMember | aws_cost_mutilator/s3.py:24-28 | a name is in `old` if and only if a bucket of that name has objects and its judged time is strictly before the cutoff |
| S3Scan.OldBucketsAppend | aws_cost_mutilator/s3.py:16-28 | the "old" list follows the `list_buckets` order: a longer listing's old buckets are those of its first part, then those of the rest |
| S3Scan.EmptyBucketsAppend | aws_cost_mutilator/s3.py:16-22 | the "empty" list follows the `list_buckets` order in the same way |
| S3Scan.BucketsCount | aws_cost_mutilator/s3.py:20-28 | a name occurs in the two lists together at most as often as it is listed |
| S3Scan.BucketsDisjoint | aws_cost_mutilator/s3.py:20-28 | a bucket listed once is never in both lists |
| S3Scan.NewestIsMax | aws_cost_mutilator/s3.py:24-25 | a bucket's newest time is the latest modification time among its objects |
| S3Scan.OldByNewestIff | aws_cost_mutilator/s3.py:27-28 | judged by the newest object, a bucket is old if and only if all its objects predate the cutoff |
| S3Scan.FirstObjectNotNewest | aws_cost_mutilator/s3.py:24-28 | as written, a bucket is reported old when its first-listed object is old, even if another object is fresh |
| S3Scan.GetBucketsTestScenario | aws_cost_mutilator/tests.py:387-398 | a new bucket is empty; with an object written now, it is not old at a 365-day limit |
| S3Scan.AddPage | aws_cost_mutilator/s3.py:43-44 | the inner loop adds the sizes of a page's objects |
| S3Scan.GetBucketCost | aws_cost_mutilator/s3.py:33-50 | the cost is 0.023 × (bytes of all objects on all pages / 1024³) |
| S3Scan.PageBytesPositive | aws_cost_mutilator/s3.py:43-44 | a page adds bytes if and only if one of its objects has a byte |
| S3Scan.TotalBytesPositive | aws_cost_mutilator/s3.py:36-44 | the total is positive if and only if some object has a byte |
| S3Scan.TotalBytesAppend | aws_cost_mutilator/s3.py:38-44 | the bytes of two runs of pages add up |
| S3Scan.BucketCostSpec | aws_cost_mutilator/s3.py:38-48 | the cost is never negative, 0 if and only if no byte is stored, and unchanged by a page without "Contents" |
| IamScan.GetUnusedIamRoles | aws_cost_mutilator/iam.py:4-36 | the nested loop returns `UnusedRoles` of the roles of all pages, in order |
| IamScan.UnusedMember | aws_cost_mutilator/iam.py:14-34 | a name is reported if and only if a listed role of that name is not a service role and either has no event or its latest event predates the cutoff |
| IamScan.ReportedIff | aws_cost_mutilator/iam.py:14-34 | with unique role names, a role is reported if and only if its path does not start with `/aws-service-role/` and it either has no events or its last event is strictly before now − days |
| IamScan.ServiceRolesNeverReported | aws_cost_mutilator/iam.py:14-15 | a name only service roles carry is never reported |
| IamScan.UnusedRolesAppend | aws_cost_mutilator/iam.py:10-11 | the results of an earlier stretch of the listing come first |
| IamScan.UnusedRolesByPage | aws_cost_mutilator/iam.py:9-11 | the result over all pages is the page results, one after another |
| IamScan.ReportedAtMostOnce | aws_cost_mutilator/iam.py:24-34 | a name is reported no more often than it is listed |
| IamScan.UnusedMonotone | aws_cost_mutilator/iam.py:33 | every role reported at a cutoff is also reported at any later cutoff |
| IamScan.UnusedRolesScenario | aws_cost_mutilator/iam.py:10-34 | over two pages, a service role, a never-used role, a role last used 100 days ago and a role used now give, at 30 days, the never-used and the stale role |

## Left out

- The click command line in `__main__.py`: its prompts, JSON printing and
  exits. This includes its own oddities: the region passed as
  `omit_pricing`, and the swapped arguments of `delete_ebs_volumes`.
- `boto_session` in `lib.py`: a credentials check that is a foreign call.
- `json.loads` of price-list strings. Items arrive as parsed records, and
  a price dimension's `pricePerUnit` is the list of its values.
- Progress bars and `sleep`. Of the printed text, only the "deleted load
  balancer" and "deleted target group" messages in the ELB procedures and
  the "Deleting volume/snapshot" messages in the EBS loops are logged. The
  "failed", "disabling" and "waiting" lines are not.
- The waiter's polling (a 15 s delay, 100 attempts) is one call. It
  returns when the load balancer is gone and raises otherwise. The model
  does not include a deletion that finishes later.
- Binary floating point: money is exact `real`.
- `datetime.now()` and timezones: "now" is an integer parameter in seconds.
- The service's own failures (throttling, permissions, an attached volume)
  come from oracle sets, not from a model of AWS.
- KeyError and IndexError are modelled as `Err` results where the code
  would raise. This covers a missing price, an unknown volume type and an
  unknown snapshot id.
- In S3, a bucket without "Contents" is modelled as an empty object list,
  and only the first list_objects_v2 page (up to 1000 keys) feeds
  `get_buckets`, as in the code.
- IamScan.GetUnusedIamRoles: the role-name comparison at
  `aws_cost_mutilator/iam.py:12-13` has the body `pass` and no effect, so
  the model omits it.
- IamScan.GetUnusedIamRoles: CloudTrail's answer becomes one map from role
  name to the time of the latest event, which the lookup with
  `MaxResults=1` returns first. The method does not record which roles
  were looked up.
- The model does not say which roles have more than one event: only the
  one event the lookup returns matters.
- Pricing.FillClassTable: the inner loop of `get_lb_hourly_costs` writes
  `hourly_costs[response]` in place; the model runs it as its own method
  on that (empty) region table and stores the table it returns.
- `setup.py` and the moto-backed tests are not modelled. The tests'
  scenarios appear as lemmas instead.

## Findings

| source | as written | input that shows it | evidently intended | confidence | as-written member | corrected member |
|---|---|---|---|---|---|---|
| aws_cost_mutilator/ec2.py:135 | `delete_lbs` calls `delete_tgs` without `dry_run`, so a dry run issues `delete_target_group` calls. On fresh scan output they are refused, because the load balancer still uses the group (`DeleteLbsTestScenario`); a call goes through for a group no live load balancer uses, as with a hand-built entry (`tests.py:96-101`) or a listener changed after the scan | hand-built entry: lb-A with empty group tg-1 and populated group tg-2, where only tg-2 is referenced, run with dry_run=True: tg-1 is deleted | forward `dry_run`, as the "(dry run: True)" message and `tests.py:104-111` expect | not executed | Orchestrator.DryRunDeletesTargetGroups | Orchestrator.DryRunChangesNothing |
| aws_cost_mutilator/__main__.py:266 | the prompt says a load balancer with populated groups is detached from its empty groups, which are then deleted; `delete_lbs` (`ec2.py:133-135`) makes no listener or rule call, so every such delete is refused while the load balancer uses the group, yet "deleted target group" is printed | lb-A forwarding to tg-1 (no targets) and tg-2 (one target), run with dry_run=False: nothing is deleted | detach the load balancer from its empty groups before `delete_tgs` | not executed | Orchestrator.KeptLbGroupRefused | Orchestrator.KeptLbDetachScenario |
| aws_cost_mutilator/ec2.py:124-131 | a failing describe, disable or delete is caught, but the waiter sits outside the try block; for a load balancer still live it raises, nothing catches that, and `delete_lbs` ends for every later entry, although each resource's failure is meant to be handled on its own | lb-A and lb-B, each with one empty group only it uses, delete_load_balancer of lb-A raising, dry_run=False: the run stops after lb-A and nothing is deleted | catch the waiter's failure, leave that load balancer's target groups alone, and go on with the next entry | not executed | Orchestrator.FailedDeleteEndsBatch | Orchestrator.CatchingRunDeletesLaterEntries |
| aws_cost_mutilator/s3.py:24-27 | the age test reads `Contents[0]`, the first key in listing order, as the newest object | bucket "logs" with a.txt modified at time 0 and b.txt at day 10, now = day 10, days = 1: reported old | compare the latest LastModified of the bucket's objects | not executed | S3Scan.FirstObjectNotNewest | S3Scan.OldByNewestIff |

In the model, `Orchestrator.ElbClient.DeleteLbs` and `S3Scan.GetBuckets`
keep the code as written. `Orchestrator.ElbClient.DeleteLbsForwardingDryRun`
and `S3Scan.GetBucketsByNewest` are the corrected versions. `Orchestrator.LbStepDetaching`
is the corrected pass for a kept load balancer: it detaches, then deletes,
with dry_run forwarded; `Orchestrator.DetachFreesEmptyGroups` states what
it removes. `Orchestrator.DeleteLbsCatchingRun` is `delete_lbs` with the
waiter's exception caught; `Orchestrator.CatchingRunClosesEveryEntry`
states that it processes every entry.
