/** The deletion orchestrator `delete_tgs`, `disable_lb_deletion_protection`
    and `delete_lbs`. The Elastic Load Balancing service is a state (live
    load balancers, their deletion-protection flags, live target groups and
    which load balancers reference each target group) together with the log
    of every call made to it and of every "deleted ..." message printed.
    Failures the service rules do not explain (throttling, permissions) come
    from an oracle the procedures receive, so every run is determined by its
    inputs. */
module Orchestrator {
  import opened Common
  import Dicts
  import LoadBalancerScan

  /** Outcome of delete_load_balancer: HTTP 200, another status (only
      reported by the caller), or an exception. */
  datatype DeleteStatus = Accepted | NotAccepted | Raised

  datatype Event =
    | DescribeAttributes(lb: Id, succeeded: bool)
    | DisableProtection(lb: Id, succeeded: bool)
    | DeleteLoadBalancer(lb: Id, status: DeleteStatus)
    | WaitDeleted(lb: Id, succeeded: bool)
    | ReportedLb(lb: Id, dryRun: bool)
    | DeleteTargetGroup(tg: Id, succeeded: bool)
    | ReportedTg(tg: Id, dryRun: bool)

  /** The four kinds of log entry the properties talk about: calls about a
      load balancer, "deleted load balancer" messages, delete_target_group
      calls and "deleted target group" messages. */
  datatype Kind = LbCall | LbReport | TgCall | TgReport

  function KindOf(e: Event): Kind {
    match e
    case DescribeAttributes(_, _) => LbCall
    case DisableProtection(_, _) => LbCall
    case DeleteLoadBalancer(_, _) => LbCall
    case WaitDeleted(_, _) => LbCall
    case ReportedLb(_, _) => LbReport
    case DeleteTargetGroup(_, _) => TgCall
    case ReportedTg(_, _) => TgReport
  }

  /** The resource an entry is about. */
  function Subject(e: Event): Id {
    match e
    case DescribeAttributes(lb, _) => lb
    case DisableProtection(lb, _) => lb
    case DeleteLoadBalancer(lb, _) => lb
    case WaitDeleted(lb, _) => lb
    case ReportedLb(lb, _) => lb
    case DeleteTargetGroup(tg, _) => tg
    case ReportedTg(tg, _) => tg
  }

  /** Position of an entry in the life of one load balancer's deletion:
      describe, disable protection, delete, wait, report, then its target
      groups. */
  function Phase(e: Event): nat {
    match e
    case DescribeAttributes(_, _) => 0
    case DisableProtection(_, _) => 1
    case DeleteLoadBalancer(_, _) => 2
    case WaitDeleted(_, _) => 3
    case ReportedLb(_, _) => 4
    case DeleteTargetGroup(_, _) => 5
    case ReportedTg(_, _) => 5
  }

  /** The subjects of the log entries of one kind, in log order. */
  function Project(log: seq<Event>, k: Kind): seq<Id> {
    if log == [] then []
    else Project(log[..|log| - 1], k) + (if KindOf(log[|log| - 1]) == k then [Subject(log[|log| - 1])] else [])
  }

  datatype Infra = Infra(loadBalancers: set<Id>, protected: set<Id>, targetGroups: set<Id>, references: map<Id, set<Id>>)

  datatype World = World(infra: Infra, log: seq<Event>)

  /** Calls that fail for reasons outside the service rules modelled here. */
  datatype Oracle = Oracle(describeFails: set<Id>, modifyFails: set<Id>, deleteLbFails: set<Id>,
                           deleteLbNotAccepted: set<Id>, deleteTgFails: set<Id>)

  /** A target group is in use while a live load balancer references it;
      deleting it then raises ResourceInUse. */
  predicate InUse(infra: Infra, tg: Id) {
    tg in infra.references && infra.references[tg] * infra.loadBalancers != {}
  }

  // The service calls, as functions of the world.

  /** describe_load_balancer_attributes: the deletion-protection flag, or
      None where the call raises (unknown load balancer, or the oracle). */
  predicate DescribeOk(w: World, lb: Id, o: Oracle) {
    lb in w.infra.loadBalancers && lb !in o.describeFails
  }

  function DescribeCall(w: World, lb: Id, o: Oracle): (World, Option<bool>) {
    var ok := DescribeOk(w, lb, o);
    (World(w.infra, w.log + [DescribeAttributes(lb, ok)]), if ok then Some(lb in w.infra.protected) else None)
  }

  /** modify_load_balancer_attributes with deletion_protection.enabled = false. */
  function DisableCall(w: World, lb: Id, o: Oracle): (World, bool) {
    var ok := lb in w.infra.loadBalancers && lb !in o.modifyFails;
    (World(if ok then w.infra.(protected := w.infra.protected - {lb}) else w.infra, w.log + [DisableProtection(lb, ok)]), ok)
  }

  /** delete_load_balancer: raises for a protected load balancer; deleting
      one that is already gone succeeds and changes nothing. */
  function DeleteLbCall(w: World, lb: Id, o: Oracle): (World, DeleteStatus) {
    var status :=
      if lb in o.deleteLbFails || (lb in w.infra.loadBalancers && lb in w.infra.protected) then Raised
      else if lb in o.deleteLbNotAccepted then NotAccepted
      else Accepted;
    var infra := if status == Accepted then w.infra.(loadBalancers := w.infra.loadBalancers - {lb}) else w.infra;
    (World(infra, w.log + [DeleteLoadBalancer(lb, status)]), status)
  }

  /** The load_balancers_deleted waiter: returns once the load balancer is
      gone and raises otherwise. */
  function WaitCall(w: World, lb: Id): (World, bool) {
    var ok := lb !in w.infra.loadBalancers;
    (World(w.infra, w.log + [WaitDeleted(lb, ok)]), ok)
  }

  /** delete_target_group. */
  function DeleteTgCall(w: World, tg: Id, o: Oracle): (World, bool) {
    var ok := tg !in o.deleteTgFails && !InUse(w.infra, tg);
    (World(if ok then w.infra.(targetGroups := w.infra.targetGroups - {tg}) else w.infra, w.log + [DeleteTargetGroup(tg, ok)]), ok)
  }

  // The procedures, as functions of the world.

  /** One pass of `delete_tgs`: the call unless dry_run (its failure is caught),
      then the "deleted target group" message in every case. */
  function TgStep(w: World, tg: Id, dryRun: bool, o: Oracle): World {
    var w1 := if dryRun then w else DeleteTgCall(w, tg, o).0;
    World(w1.infra, w1.log + [ReportedTg(tg, dryRun)])
  }

  function DeleteTgsRun(w: World, tgs: seq<Id>, dryRun: bool, o: Oracle): World {
    if tgs == [] then w else TgStep(DeleteTgsRun(w, tgs[..|tgs| - 1], dryRun, o), tgs[|tgs| - 1], dryRun, o)
  }

  /** The try block of `delete_lbs`: describe, disable protection when the
      attributes report it enabled, delete; the first call that raises ends
      the block. */
  function AttemptDelete(w: World, lb: Id, o: Oracle): World {
    var d := DescribeCall(w, lb, o);
    if d.1.None? then d.0
    else
      var m := if d.1.value then DisableCall(d.0, lb, o) else (d.0, true);
      if !m.1 then m.0 else DeleteLbCall(m.0, lb, o).0
  }

  /** The world after a run, and whether an uncaught exception (the waiter's)
      ended it early. */
  datatype Run = Run(world: World, aborted: bool)

  /** One pass of `delete_lbs`: the deletion (only when not dry_run and the
      entry has no `populated_target_groups` key) and the wait; then the
      "deleted load balancer" message and `delete_tgs` of its empty target
      groups with `tgDryRun`. The source passes no dry_run there, so it runs
      with False. */
  function LbStep(w: World, lb: Id, entry: LoadBalancerScan.LbSummary, dryRun: bool, tgDryRun: bool, o: Oracle): Run {
    var waited := if !dryRun && entry.populatedTargetGroups.None? then WaitCall(AttemptDelete(w, lb, o), lb) else (w, true);
    if !waited.1 then Run(waited.0, true) else Run(ReportAndDeleteTgs(waited.0, lb, entry, dryRun, tgDryRun, o), false)
  }

  /** The end of one pass: the "deleted load balancer" message, then
      `delete_tgs` of the entry's empty target groups. */
  function ReportAndDeleteTgs(w: World, lb: Id, entry: LoadBalancerScan.LbSummary, dryRun: bool, tgDryRun: bool, o: Oracle): World {
    DeleteTgsRun(World(w.infra, w.log + [ReportedLb(lb, dryRun)]), entry.emptyTargetGroups, tgDryRun, o)
  }

  /** The dictionary `delete_lbs` receives, in iteration order. Its keys are
      distinct, so `lbs[lb_arn]` is the value paired with the key in hand. */
  type LbEntries = seq<(Id, LoadBalancerScan.LbSummary)>

  function DeleteLbsRun(w: World, lbs: LbEntries, dryRun: bool, tgDryRun: bool, o: Oracle): Run {
    if lbs == [] then Run(w, false)
    else
      var r := DeleteLbsRun(w, lbs[..|lbs| - 1], dryRun, tgDryRun, o);
      if r.aborted then r else LbStep(r.world, lbs[|lbs| - 1].0, lbs[|lbs| - 1].1, dryRun, tgDryRun, o)
  }

  /** The empty target groups of the entries, in order. */
  function Empties(lbs: LbEntries): seq<Id> {
    if lbs == [] then [] else Empties(lbs[..|lbs| - 1]) + lbs[|lbs| - 1].1.emptyTargetGroups
  }

  /** The Elastic Load Balancing client: the service state it changes and
      the log of calls and messages. */
  class ElbClient {
    var loadBalancers: set<Id>
    var protected: set<Id>
    var targetGroups: set<Id>
    var references: map<Id, set<Id>>
    var log: seq<Event>

    function State(): World
      reads this
    {
      World(Infra(loadBalancers, protected, targetGroups, references), log)
    }

    constructor(infra: Infra)
      ensures State() == World(infra, [])
    {
      loadBalancers, protected, targetGroups, references := infra.loadBalancers, infra.protected, infra.targetGroups, infra.references;
      log := [];
    }

    method DescribeLoadBalancerAttributes(lb: Id, o: Oracle) returns (protectionEnabled: Option<bool>)
      modifies this
      ensures (State(), protectionEnabled) == DescribeCall(old(State()), lb, o)
    {
      var ok := lb in loadBalancers && lb !in o.describeFails;
      log := log + [DescribeAttributes(lb, ok)];
      protectionEnabled := if ok then Some(lb in protected) else None;
    }

    /** `disable_lb_deletion_protection`: one modify_load_balancer_attributes
        call setting deletion_protection.enabled to false; `ok` is false where
        it raises. */
    method DisableLbDeletionProtection(lb: Id, o: Oracle) returns (ok: bool)
      modifies this
      ensures (State(), ok) == DisableCall(old(State()), lb, o)
      ensures ok ==> lb !in protected
      ensures loadBalancers == old(loadBalancers) && targetGroups == old(targetGroups)
    {
      ok := lb in loadBalancers && lb !in o.modifyFails;
      if ok {
        protected := protected - {lb};
      }
      log := log + [DisableProtection(lb, ok)];
    }

    method DeleteLoadBalancer(lb: Id, o: Oracle) returns (status: DeleteStatus)
      modifies this
      ensures (State(), status) == DeleteLbCall(old(State()), lb, o)
    {
      if lb in o.deleteLbFails || (lb in loadBalancers && lb in protected) {
        status := Raised;
      } else if lb in o.deleteLbNotAccepted {
        status := NotAccepted;
      } else {
        status := Accepted;
        loadBalancers := loadBalancers - {lb};
      }
      log := log + [Event.DeleteLoadBalancer(lb, status)];
    }

    method WaitLoadBalancersDeleted(lb: Id) returns (ok: bool)
      modifies this
      ensures (State(), ok) == WaitCall(old(State()), lb)
    {
      ok := lb !in loadBalancers;
      log := log + [WaitDeleted(lb, ok)];
    }

    method DeleteTargetGroup(tg: Id, o: Oracle) returns (ok: bool)
      modifies this
      ensures (State(), ok) == DeleteTgCall(old(State()), tg, o)
    {
      ok := tg !in o.deleteTgFails && !(tg in references && references[tg] * loadBalancers != {});
      if ok {
        targetGroups := targetGroups - {tg};
      }
      log := log + [Event.DeleteTargetGroup(tg, ok)];
    }

    /** `delete_tgs`: one delete_target_group call per ARN unless dry_run,
        failures caught, and the message for every ARN. */
    method DeleteTgs(tgs: seq<Id>, dryRun: bool, o: Oracle)
      modifies this
      ensures State() == DeleteTgsRun(old(State()), tgs, dryRun, o)
    {
      for i := 0 to |tgs|
        invariant State() == DeleteTgsRun(old(State()), tgs[..i], dryRun, o)
      {
        assert tgs[..i + 1][..i] == tgs[..i];
        var tgArn := tgs[i];
        if !dryRun {
          var _ := DeleteTargetGroup(tgArn, o);
        }
        log := log + [ReportedTg(tgArn, dryRun)];
      }
      assert tgs[..|tgs|] == tgs;
    }

    /** The try block of `delete_lbs` for one load balancer. */
    method AttemptDeleteLb(lbArn: Id, o: Oracle)
      modifies this
      ensures State() == AttemptDelete(old(State()), lbArn, o)
    {
      var lbAttributes := DescribeLoadBalancerAttributes(lbArn, o);
      if lbAttributes.None? {
        return;
      }
      if lbAttributes.value {
        var disabled := DisableLbDeletionProtection(lbArn, o);
        if !disabled {
          return;
        }
      }
      var _ := DeleteLoadBalancer(lbArn, o);
    }

    /** The loop of `delete_lbs`, passing `tgDryRun` to `delete_tgs`;
        `completed` is false where the waiter raised and ended the run. */
    method DeleteLbsWith(lbs: LbEntries, dryRun: bool, tgDryRun: bool, o: Oracle) returns (completed: bool)
      modifies this
      ensures Run(State(), !completed) == DeleteLbsRun(old(State()), lbs, dryRun, tgDryRun, o)
    {
      for i := 0 to |lbs|
        invariant Run(State(), false) == DeleteLbsRun(old(State()), lbs[..i], dryRun, tgDryRun, o)
      {
        assert lbs[..i + 1][..i] == lbs[..i];
        var lbArn, entry := lbs[i].0, lbs[i].1;
        if !dryRun && entry.populatedTargetGroups.None? {
          AttemptDeleteLb(lbArn, o);
          var gone := WaitLoadBalancersDeleted(lbArn);
          if !gone {
            assert lbs == lbs[..i + 1] + lbs[i + 1..];
            DeleteLbsAbortedStays(old(State()), lbs[..i + 1], lbs[i + 1..], dryRun, tgDryRun, o);
            return false;
          }
        }
        log := log + [ReportedLb(lbArn, dryRun)];
        DeleteTgs(entry.emptyTargetGroups, tgDryRun, o);
      }
      assert lbs[..|lbs|] == lbs;
      completed := true;
    }

    /** `delete_lbs` as written: `delete_tgs` of each entry's empty target
        groups runs without the dry_run flag. */
    method DeleteLbs(lbs: LbEntries, dryRun: bool, o: Oracle) returns (completed: bool)
      modifies this
      ensures Run(State(), !completed) == DeleteLbsRun(old(State()), lbs, dryRun, false, o)
    {
      completed := DeleteLbsWith(lbs, dryRun, false, o);
    }

    /** `delete_lbs` with dry_run forwarded to `delete_tgs`, as its dry-run
        message promises. */
    method DeleteLbsForwardingDryRun(lbs: LbEntries, dryRun: bool, o: Oracle) returns (completed: bool)
      modifies this
      ensures Run(State(), !completed) == DeleteLbsRun(old(State()), lbs, dryRun, dryRun, o)
      ensures dryRun ==> (completed && loadBalancers == old(loadBalancers) && protected == old(protected) &&
                          targetGroups == old(targetGroups) && references == old(references))
    {
      completed := DeleteLbsWith(lbs, dryRun, dryRun, o);
      if dryRun {
        DryRunChangesNothing(old(State()), lbs, o);
      }
    }
  }

  lemma {:induction false} DeleteLbsAbortedStays(w: World, a: LbEntries, b: LbEntries, dryRun: bool, tgDryRun: bool, o: Oracle)
    requires DeleteLbsRun(w, a, dryRun, tgDryRun, o).aborted
    ensures DeleteLbsRun(w, a + b, dryRun, tgDryRun, o) == DeleteLbsRun(w, a, dryRun, tgDryRun, o)
  {
    if b == [] {
      assert a + b == a;
    } else {
      assert (a + b)[..|a + b| - 1] == a + b[..|b| - 1];
      DeleteLbsAbortedStays(w, a, b[..|b| - 1], dryRun, tgDryRun, o);
    }
  }

  // Properties.

  lemma {:induction false} ProjectAppend(a: seq<Event>, b: seq<Event>, k: Kind)
    ensures Project(a + b, k) == Project(a, k) + Project(b, k)
  {
    if b == [] {
      assert a + b == a;
    } else {
      assert (a + b)[..|a + b| - 1] == a + b[..|b| - 1];
      ProjectAppend(a, b[..|b| - 1], k);
    }
  }

  lemma ProjectOne(log: seq<Event>, e: Event, k: Kind)
    ensures Project(log + [e], k) == Project(log, k) + (if KindOf(e) == k then [Subject(e)] else [])
  {
    assert (log + [e])[..|log|] == log;
  }

  /** One pass of `delete_tgs` adds at most the call and then the message. */
  lemma TgStepLog(w: World, t: Id, dryRun: bool, o: Oracle)
    ensures var r := TgStep(w, t, dryRun, o);
      && w.log <= r.log
      && Project(r.log, TgCall) == Project(w.log, TgCall) + (if dryRun then [] else [t])
      && Project(r.log, TgReport) == Project(w.log, TgReport) + [t]
      && Project(r.log, LbCall) == Project(w.log, LbCall)
      && Project(r.log, LbReport) == Project(w.log, LbReport)
  {
    TgStepKind(w, t, dryRun, o, TgCall);
    TgStepKind(w, t, dryRun, o, TgReport);
    TgStepKind(w, t, dryRun, o, LbCall);
    TgStepKind(w, t, dryRun, o, LbReport);
  }

  /** What `delete_tgs` adds to the log, kind by kind. */
  function TgAdds(tgs: seq<Id>, dryRun: bool, k: Kind): seq<Id> {
    match k
    case TgCall => if dryRun then [] else tgs
    case TgReport => tgs
    case _ => []
  }

  lemma TgAddsLast(tgs: seq<Id>, dryRun: bool, k: Kind)
    requires tgs != []
    ensures TgAdds(tgs, dryRun, k) == TgAdds(tgs[..|tgs| - 1], dryRun, k) + TgAdds([tgs[|tgs| - 1]], dryRun, k)
  {
    assert tgs == tgs[..|tgs| - 1] + [tgs[|tgs| - 1]];
  }

  /** TgStepLog for one kind of entry. */
  lemma TgStepKind(w: World, t: Id, dryRun: bool, o: Oracle, k: Kind)
    ensures Project(TgStep(w, t, dryRun, o).log, k) == Project(w.log, k) + TgAdds([t], dryRun, k)
  {
    if dryRun {
      TgStepKindDry(w, t, o, k);
    } else {
      TgStepKindReal(w, t, o, k);
    }
  }

  lemma TgStepKindDry(w: World, t: Id, o: Oracle, k: Kind)
    ensures Project(TgStep(w, t, true, o).log, k) == Project(w.log, k) + (if k == TgReport then [t] else [])
  {
    ProjectOne(w.log, ReportedTg(t, true), k);
  }

  lemma TgStepKindReal(w: World, t: Id, o: Oracle, k: Kind)
    ensures Project(TgStep(w, t, false, o).log, k) == Project(w.log, k) + (if k == TgCall || k == TgReport then [t] else [])
  {
    var c := DeleteTgCall(w, t, o);
    ProjectOne(w.log, DeleteTargetGroup(t, c.1), k);
    ProjectOne(c.0.log, ReportedTg(t, false), k);
  }

  /** DeleteTgsLog for one kind of entry. */
  lemma {:induction false} DeleteTgsKind(w: World, tgs: seq<Id>, dryRun: bool, o: Oracle, k: Kind)
    ensures Project(DeleteTgsRun(w, tgs, dryRun, o).log, k) == Project(w.log, k) + TgAdds(tgs, dryRun, k)
  {
    if tgs != [] {
      var p, t := tgs[..|tgs| - 1], tgs[|tgs| - 1];
      var prev, r := DeleteTgsRun(w, p, dryRun, o), DeleteTgsRun(w, tgs, dryRun, o);
      DeleteTgsKind(w, p, dryRun, o, k);
      TgStepKind(prev, t, dryRun, o, k);
      assert r == TgStep(prev, t, dryRun, o);
      TgAddsLast(tgs, dryRun, k);
      AddsCompose(Project(w.log, k), Project(prev.log, k), Project(r.log, k), TgAdds(p, dryRun, k), TgAdds([t], dryRun, k));
    }
  }

  /** The target groups one `delete_tgs` run removes: those whose call
      succeeds, judged on the state before the run (deleting target groups
      does not change which are in use). */
  function Removable(infra: Infra, tgs: seq<Id>, o: Oracle): set<Id> {
    set t | t in tgs && t !in o.deleteTgFails && !InUse(infra, t)
  }

  /** `delete_tgs`: under dry_run no delete_target_group call at all;
      otherwise exactly one call per ARN, in list order, going on after a
      failed one; a message for every ARN either way, and nothing about load
      balancers. */
  lemma DeleteTgsLog(w: World, tgs: seq<Id>, dryRun: bool, o: Oracle)
    ensures var r := DeleteTgsRun(w, tgs, dryRun, o);
      && w.log <= r.log
      && Project(r.log, TgCall) == Project(w.log, TgCall) + (if dryRun then [] else tgs)
      && Project(r.log, TgReport) == Project(w.log, TgReport) + tgs
      && Project(r.log, LbCall) == Project(w.log, LbCall)
      && Project(r.log, LbReport) == Project(w.log, LbReport)
  {
    DeleteTgsTail(w, tgs, dryRun, o);
    DeleteTgsKind(w, tgs, dryRun, o, TgCall);
    DeleteTgsKind(w, tgs, dryRun, o, TgReport);
    DeleteTgsKind(w, tgs, dryRun, o, LbCall);
    DeleteTgsKind(w, tgs, dryRun, o, LbReport);
  }

  /** `delete_tgs` changes nothing under dry_run; otherwise it changes only
      target groups, and exactly the removable ones are gone. */
  lemma {:induction false} DeleteTgsInfra(w: World, tgs: seq<Id>, dryRun: bool, o: Oracle)
    ensures var r := DeleteTgsRun(w, tgs, dryRun, o);
      && r.infra.loadBalancers == w.infra.loadBalancers
      && r.infra.protected == w.infra.protected
      && r.infra.references == w.infra.references
      && r.infra.targetGroups == (if dryRun then w.infra.targetGroups else w.infra.targetGroups - Removable(w.infra, tgs, o))
  {
    if tgs != [] {
      var p, t := tgs[..|tgs| - 1], tgs[|tgs| - 1];
      LastSplit(tgs);
      DeleteTgsInfra(w, p, dryRun, o);
      var prev := DeleteTgsRun(w, p, dryRun, o);
      if !dryRun {
        assert InUse(prev.infra, t) == InUse(w.infra, t);
        assert Removable(w.infra, tgs, o) == Removable(w.infra, p, o) + (if t !in o.deleteTgFails && !InUse(w.infra, t) then {t} else {});
      }
    }
  }

  /** What one completed pass of `delete_lbs` adds to the log, kind by
      kind, besides calls about its load balancer: the message, and
      `delete_tgs` of the entry's empty target groups with `tgDryRun`. */
  function StepAdds(x: (Id, LoadBalancerScan.LbSummary), tgDryRun: bool, k: Kind): seq<Id> {
    match k
    case LbCall => []
    case LbReport => [x.0]
    case TgCall => if tgDryRun then [] else x.1.emptyTargetGroups
    case TgReport => x.1.emptyTargetGroups
  }

  /** What a completed run of `delete_lbs` adds: a message per entry in
      dictionary order, and `delete_tgs` of every entry's empty target
      groups; calls about load balancers are counted apart. */
  function CompletedAdds(lbs: LbEntries, tgDryRun: bool, k: Kind): seq<Id> {
    match k
    case LbCall => []
    case LbReport => Dicts.Keys(lbs)
    case TgCall => if tgDryRun then [] else Empties(lbs)
    case TgReport => Empties(lbs)
  }

  lemma CompletedAddsStep(lbs: LbEntries, tgDryRun: bool, k: Kind)
    requires lbs != []
    ensures CompletedAdds(lbs, tgDryRun, k) == CompletedAdds(lbs[..|lbs| - 1], tgDryRun, k) + StepAdds(lbs[|lbs| - 1], tgDryRun, k)
  {
    var p, x := lbs[..|lbs| - 1], lbs[|lbs| - 1];
    LastSplit(lbs);
    Dicts.KeysAppend(p, [x]);
  }

  lemma ReportLog(w: World, lb: Id, entry: LoadBalancerScan.LbSummary, dryRun: bool, tgDryRun: bool, o: Oracle, k: Kind)
    ensures var r := ReportAndDeleteTgs(w, lb, entry, dryRun, tgDryRun, o);
      && w.log <= r.log
      && Project(r.log, k) == Project(w.log, k) + StepAdds((lb, entry), tgDryRun, k)
  {
    var w1 := World(w.infra, w.log + [ReportedLb(lb, dryRun)]);
    ProjectOne(w.log, ReportedLb(lb, dryRun), k);
    DeleteTgsLog(w1, entry.emptyTargetGroups, tgDryRun, o);
    var r := DeleteTgsRun(w1, entry.emptyTargetGroups, tgDryRun, o);
    assert r == ReportAndDeleteTgs(w, lb, entry, dryRun, tgDryRun, o);
    match k
    case LbCall =>
    case LbReport =>
    case TgCall =>
      assert Project(w1.log, k) == Project(w.log, k);
    case TgReport =>
      assert Project(w1.log, k) == Project(w.log, k);
  }

  lemma {:induction false} ProjectNone(log: seq<Event>, s: seq<Event>, k: Kind)
    requires forall i | 0 <= i < |s| :: KindOf(s[i]) != k
    ensures Project(log + s, k) == Project(log, k)
  {
    if s == [] {
      assert log + s == log;
    } else {
      var p := s[..|s| - 1];
      assert forall i | 0 <= i < |p| :: p[i] == s[i];
      assert (log + s)[..|log + s| - 1] == log + p;
      assert (log + s)[|log + s| - 1] == s[|s| - 1];
      ProjectNone(log, p, k);
    }
  }

  /** The try block and the wait log only calls about the load balancer. */
  lemma AttemptWaitLog(w: World, lb: Id, o: Oracle, k: Kind)
    requires k != LbCall
    ensures var a := WaitCall(AttemptDelete(w, lb, o), lb).0;
      && w.log <= a.log
      && Project(a.log, k) == Project(w.log, k)
  {
    AttemptDeleteCalls(w, lb, o);
    var d := AttemptDelete(w, lb, o);
    var s := d.log[|w.log|..] + [WaitDeleted(lb, lb !in d.infra.loadBalancers)];
    assert WaitCall(d, lb).0.log == w.log + s;
    forall i | 0 <= i < |s| ensures KindOf(s[i]) != k {
      assert Phase(s[i]) <= 3;
    }
    ProjectNone(w.log, s, k);
  }

  /** One pass of `delete_lbs`, kind by kind (calls about load balancers
      only under dry_run): a cut-short pass adds nothing, a completed one
      adds `StepAdds`; under dry_run the pass always completes. */
  lemma LbStepLog(w: World, x: (Id, LoadBalancerScan.LbSummary), dryRun: bool, tgDryRun: bool, o: Oracle, k: Kind)
    requires k != LbCall || dryRun
    ensures var r := LbStep(w, x.0, x.1, dryRun, tgDryRun, o);
      && w.log <= r.world.log
      && (dryRun ==> !r.aborted)
      && (r.aborted ==> Project(r.world.log, k) == Project(w.log, k))
      && (!r.aborted ==> Project(r.world.log, k) == Project(w.log, k) + StepAdds(x, tgDryRun, k))
  {
    if !dryRun && x.1.populatedTargetGroups.None? {
      var waited := WaitCall(AttemptDelete(w, x.0, o), x.0);
      AttemptWaitLog(w, x.0, o, k);
      if waited.1 {
        ReportLog(waited.0, x.0, x.1, dryRun, tgDryRun, o, k);
      }
    } else {
      ReportLog(w, x.0, x.1, dryRun, tgDryRun, o, k);
    }
  }

  /** `delete_lbs`, kind by kind (calls about load balancers only under
      dry_run): a completed run adds exactly `CompletedAdds`, every entry's
      message and `delete_tgs` of every empty target group (with no
      delete_target_group call only where `tgDryRun` holds); a run the waiter
      cut short has added a prefix of that; under dry_run the run always
      completes. */
  lemma {:induction false} DeleteLbsLog(w: World, lbs: LbEntries, dryRun: bool, tgDryRun: bool, o: Oracle, k: Kind)
    requires k != LbCall || dryRun
    ensures var r := DeleteLbsRun(w, lbs, dryRun, tgDryRun, o);
      && w.log <= r.world.log
      && (dryRun ==> !r.aborted)
      && (!r.aborted ==> Project(r.world.log, k) == Project(w.log, k) + CompletedAdds(lbs, tgDryRun, k))
      && (r.aborted ==> Project(r.world.log, k) <= Project(w.log, k) + CompletedAdds(lbs, tgDryRun, k))
  {
    if lbs != [] {
      var p, x := lbs[..|lbs| - 1], lbs[|lbs| - 1];
      DeleteLbsLog(w, p, dryRun, tgDryRun, o, k);
      CompletedAddsStep(lbs, tgDryRun, k);
      var r0 := DeleteLbsRun(w, p, dryRun, tgDryRun, o);
      var before := Project(w.log, k) + CompletedAdds(p, tgDryRun, k);
      assert before <= before + StepAdds(x, tgDryRun, k);
      if !r0.aborted {
        var r := LbStep(r0.world, x.0, x.1, dryRun, tgDryRun, o);
        assert DeleteLbsRun(w, lbs, dryRun, tgDryRun, o) == r;
        LbStepLog(r0.world, x, dryRun, tgDryRun, o, k);
        if !r.aborted {
          ProjectCompose(w.log, r0.world.log, r.world.log, k, CompletedAdds(p, tgDryRun, k), StepAdds(x, tgDryRun, k));
        }
      }
    }
  }

  /** Two steps' additions to a projection compose. */
  lemma ProjectCompose(log0: seq<Event>, log1: seq<Event>, log2: seq<Event>, k: Kind, a: seq<Id>, b: seq<Id>)
    requires log0 <= log1 && log1 <= log2
    requires Project(log1, k) == Project(log0, k) + a && Project(log2, k) == Project(log1, k) + b
    ensures log0 <= log2 && Project(log2, k) == Project(log0, k) + (a + b)
  {
    PrefixTrans(log0, log1, log2);
    AddsCompose(Project(log0, k), Project(log1, k), Project(log2, k), a, b);
  }

  lemma PrefixTrans(log0: seq<Event>, log1: seq<Event>, log2: seq<Event>)
    requires log0 <= log1 && log1 <= log2
    ensures log0 <= log2
  {
  }

  lemma AddsCompose(p0: seq<Id>, p1: seq<Id>, p2: seq<Id>, a: seq<Id>, b: seq<Id>)
    requires p1 == p0 + a && p2 == p1 + b
    ensures p2 == p0 + (a + b)
  {
  }

  /** A dry-run pass of `delete_lbs` changes at most target groups, and
      nothing with dry_run forwarded. */
  lemma LbStepDryRunInfra(w: World, lb: Id, entry: LoadBalancerScan.LbSummary, tgDryRun: bool, o: Oracle)
    ensures var r := LbStep(w, lb, entry, true, tgDryRun, o);
      && r.world.infra.loadBalancers == w.infra.loadBalancers
      && r.world.infra.protected == w.infra.protected
      && r.world.infra.references == w.infra.references
      && (tgDryRun ==> r.world.infra == w.infra)
  {
    var w1 := World(w.infra, w.log + [ReportedLb(lb, true)]);
    DeleteTgsInfra(w1, entry.emptyTargetGroups, tgDryRun, o);
  }

  /** `delete_lbs` under dry_run changes no load balancer, no protection
      flag and no reference; with dry_run forwarded it changes nothing. */
  lemma {:induction false} DeleteLbsDryRunInfra(w: World, lbs: LbEntries, tgDryRun: bool, o: Oracle)
    ensures var r := DeleteLbsRun(w, lbs, true, tgDryRun, o);
      && r.world.infra.loadBalancers == w.infra.loadBalancers
      && r.world.infra.protected == w.infra.protected
      && r.world.infra.references == w.infra.references
      && (tgDryRun ==> r.world.infra == w.infra)
  {
    if lbs != [] {
      var p, x := lbs[..|lbs| - 1], lbs[|lbs| - 1];
      DeleteLbsLog(w, p, true, tgDryRun, o, LbCall);
      DeleteLbsDryRunInfra(w, p, tgDryRun, o);
      LbStepDryRunInfra(DeleteLbsRun(w, p, true, tgDryRun, o).world, x.0, x.1, tgDryRun, o);
    }
  }

  /** With dry_run forwarded, a dry run changes nothing in the service and
      makes no delete call. */
  lemma DryRunChangesNothing(w: World, lbs: LbEntries, o: Oracle)
    ensures !DeleteLbsRun(w, lbs, true, true, o).aborted
    ensures DeleteLbsRun(w, lbs, true, true, o).world.infra == w.infra
    ensures Project(DeleteLbsRun(w, lbs, true, true, o).world.log, TgCall) == Project(w.log, TgCall)
    ensures Project(DeleteLbsRun(w, lbs, true, true, o).world.log, LbCall) == Project(w.log, LbCall)
  {
    DeleteLbsLog(w, lbs, true, true, o, TgCall);
    DeleteLbsLog(w, lbs, true, true, o, LbCall);
    DeleteLbsDryRunInfra(w, lbs, true, o);
  }

  // The calls one deletion makes, and their order.

  /** Log order within one load balancer's deletion: the phases of the calls
      about it strictly increase, and its target groups come last. */
  predicate PhaseOrdered(s: seq<Event>) {
    forall i, j | 0 <= i < j < |s| :: Phase(s[i]) < Phase(s[j]) || (Phase(s[i]) == 5 && Phase(s[j]) == 5)
  }

  predicate HasPhase(s: seq<Event>, ph: nat) {
    exists i | 0 <= i < |s| :: Phase(s[i]) == ph
  }

  /** Every entry before the target-group phase is about `lb`. */
  predicate AboutLb(s: seq<Event>, lb: Id) {
    forall i | 0 <= i < |s| && Phase(s[i]) < 5 :: Subject(s[i]) == lb
  }

  /** Reference definition, from the service rules: the try block removes a
      load balancer exactly when it is live, describing it succeeds,
      disabling its protection succeeds where it is on, and the delete call
      neither raises nor answers with another status. */
  predicate Removed(w: World, lb: Id, o: Oracle) {
    && lb in w.infra.loadBalancers
    && lb !in o.describeFails
    && (lb in w.infra.protected ==> lb !in o.modifyFails)
    && lb !in o.deleteLbFails
    && lb !in o.deleteLbNotAccepted
  }

  /** The try block: a describe call first; the disable call exactly when
      the describe succeeded and reported protection on; the delete call
      exactly when the describe succeeded and protection was off or the
      disable succeeded; all about `lb`, in that order. Only `lb` can go and
      only from the live set, and no target group changes. */
  lemma AttemptDeleteCalls(w: World, lb: Id, o: Oracle)
    ensures var a := AttemptDelete(w, lb, o);
      && w.log <= a.log
      && var calls := a.log[|w.log|..];
      && 1 <= |calls| <= 3
      && calls[0] == DescribeAttributes(lb, DescribeOk(w, lb, o))
      && PhaseOrdered(calls)
      && AboutLb(calls, lb)
      && (forall i | 0 <= i < |calls| :: Phase(calls[i]) <= 2)
      && (HasPhase(calls, 1) <==> DescribeOk(w, lb, o) && lb in w.infra.protected)
      && (HasPhase(calls, 2) <==> DescribeOk(w, lb, o) && (lb !in w.infra.protected || lb !in o.modifyFails))
      && a.infra.loadBalancers == w.infra.loadBalancers - (if Removed(w, lb, o) then {lb} else {})
      && a.infra.targetGroups == w.infra.targetGroups
      && a.infra.references == w.infra.references
  {
    AttemptDeleteInfra(w, lb, o);
    AttemptDeleteLog(w, lb, o);
  }

  /** The service state after the try block. */
  lemma AttemptDeleteInfra(w: World, lb: Id, o: Oracle)
    ensures var a := AttemptDelete(w, lb, o);
      && a.infra.loadBalancers == w.infra.loadBalancers - (if Removed(w, lb, o) then {lb} else {})
      && a.infra.targetGroups == w.infra.targetGroups
      && a.infra.references == w.infra.references
  {
  }

  /** The calls the try block logs. */
  lemma AttemptDeleteLog(w: World, lb: Id, o: Oracle)
    ensures var a := AttemptDelete(w, lb, o);
      && w.log <= a.log
      && var calls := a.log[|w.log|..];
      && 1 <= |calls| <= 3
      && calls[0] == DescribeAttributes(lb, DescribeOk(w, lb, o))
      && PhaseOrdered(calls)
      && AboutLb(calls, lb)
      && (forall i | 0 <= i < |calls| :: Phase(calls[i]) <= 2)
      && (HasPhase(calls, 1) <==> DescribeOk(w, lb, o) && lb in w.infra.protected)
      && (HasPhase(calls, 2) <==> DescribeOk(w, lb, o) && (lb !in w.infra.protected || lb !in o.modifyFails))
  {
    var d := DescribeCall(w, lb, o);
    var a := AttemptDelete(w, lb, o);
    var calls: seq<Event>;
    if d.1.None? {
      calls := [DescribeAttributes(lb, false)];
      TryShapeDescribe(lb);
    } else if d.1.value {
      var m := DisableCall(d.0, lb, o);
      if !m.1 {
        calls := [DescribeAttributes(lb, true), DisableProtection(lb, false)];
        LogTwo(w.log, calls[0], calls[1]);
        TryShapeDisable(lb);
      } else {
        calls := [DescribeAttributes(lb, true), DisableProtection(lb, true), Event.DeleteLoadBalancer(lb, DeleteLbCall(m.0, lb, o).1)];
        LogThree(w.log, calls[0], calls[1], calls[2]);
        TryShapeDisableDelete(lb, calls[2].status);
      }
    } else {
      calls := [DescribeAttributes(lb, true), Event.DeleteLoadBalancer(lb, DeleteLbCall(d.0, lb, o).1)];
      LogTwo(w.log, calls[0], calls[1]);
      TryShapeDelete(lb, calls[1].status);
    }
    assert a.log == w.log + calls;
    LogSuffix(w.log, calls);
  }

  /** What AttemptDeleteLog states about the calls alone. */
  predicate TryShaped(calls: seq<Event>, lb: Id, disabled: bool, deleted: bool) {
    && 1 <= |calls| <= 3
    && PhaseOrdered(calls)
    && AboutLb(calls, lb)
    && (forall i | 0 <= i < |calls| :: Phase(calls[i]) <= 2)
    && (HasPhase(calls, 1) <==> disabled)
    && (HasPhase(calls, 2) <==> deleted)
  }

  lemma TryShapeDescribe(lb: Id)
    ensures TryShaped([DescribeAttributes(lb, false)], lb, false, false)
  {
  }

  lemma TryShapeDisable(lb: Id)
    ensures TryShaped([DescribeAttributes(lb, true), DisableProtection(lb, false)], lb, true, false)
  {
    var calls := [DescribeAttributes(lb, true), DisableProtection(lb, false)];
    assert Phase(calls[1]) == 1;
  }

  lemma TryShapeDisableDelete(lb: Id, st: DeleteStatus)
    ensures TryShaped([DescribeAttributes(lb, true), DisableProtection(lb, true), Event.DeleteLoadBalancer(lb, st)], lb, true, true)
  {
    var calls := [DescribeAttributes(lb, true), DisableProtection(lb, true), Event.DeleteLoadBalancer(lb, st)];
    assert Phase(calls[1]) == 1 && Phase(calls[2]) == 2;
  }

  lemma TryShapeDelete(lb: Id, st: DeleteStatus)
    ensures TryShaped([DescribeAttributes(lb, true), Event.DeleteLoadBalancer(lb, st)], lb, false, true)
  {
    var calls := [DescribeAttributes(lb, true), Event.DeleteLoadBalancer(lb, st)];
    assert Phase(calls[1]) == 2;
  }

  lemma LogTwo(log: seq<Event>, e1: Event, e2: Event)
    ensures log + [e1] + [e2] == log + [e1, e2]
  {
  }

  lemma LogThree(log: seq<Event>, e1: Event, e2: Event, e3: Event)
    ensures log + [e1] + [e2] + [e3] == log + [e1, e2, e3]
  {
  }

  lemma LogSuffix(log: seq<Event>, calls: seq<Event>)
    ensures log <= log + calls && (log + calls)[|log|..] == calls
  {
  }

  lemma PhaseOrderedConcat(a: seq<Event>, b: seq<Event>)
    requires PhaseOrdered(a) && PhaseOrdered(b)
    requires forall i, j | 0 <= i < |a| && 0 <= j < |b| :: Phase(a[i]) < Phase(b[j]) || (Phase(a[i]) == 5 && Phase(b[j]) == 5)
    ensures PhaseOrdered(a + b)
  {
    forall i, j | 0 <= i < j < |a + b|
      ensures Phase((a + b)[i]) < Phase((a + b)[j]) || (Phase((a + b)[i]) == 5 && Phase((a + b)[j]) == 5)
    {
      if j < |a| {
        assert (a + b)[i] == a[i] && (a + b)[j] == a[j];
      } else if i < |a| {
        assert (a + b)[i] == a[i] && (a + b)[j] == b[j - |a|];
      } else {
        assert (a + b)[i] == b[i - |a|] && (a + b)[j] == b[j - |a|];
      }
    }
  }

  lemma HasPhaseConcat(a: seq<Event>, b: seq<Event>, ph: nat)
    ensures HasPhase(a + b, ph) <==> HasPhase(a, ph) || HasPhase(b, ph)
  {
    if HasPhase(a + b, ph) {
      var i :| 0 <= i < |a + b| && Phase((a + b)[i]) == ph;
      if i < |a| {
        assert a[i] == (a + b)[i];
      } else {
        assert b[i - |a|] == (a + b)[i];
      }
    }
    if HasPhase(a, ph) {
      var i :| 0 <= i < |a| && Phase(a[i]) == ph;
      assert (a + b)[i] == a[i];
    }
    if HasPhase(b, ph) {
      var i :| 0 <= i < |b| && Phase(b[i]) == ph;
      assert (a + b)[|a| + i] == b[i];
    }
  }

  lemma AboutLbConcat(a: seq<Event>, b: seq<Event>, lb: Id)
    requires AboutLb(a, lb) && AboutLb(b, lb)
    ensures AboutLb(a + b, lb)
  {
    forall i | 0 <= i < |a + b| && Phase((a + b)[i]) < 5
      ensures Subject((a + b)[i]) == lb
    {
      if i < |a| {
        assert (a + b)[i] == a[i];
      } else {
        assert (a + b)[i] == b[i - |a|];
      }
    }
  }

  /** `delete_tgs` logs nothing but target-group entries. */
  lemma {:induction false} DeleteTgsTail(w: World, tgs: seq<Id>, dryRun: bool, o: Oracle)
    ensures var r := DeleteTgsRun(w, tgs, dryRun, o);
      && w.log <= r.log
      && forall i | |w.log| <= i < |r.log| :: Phase(r.log[i]) == 5
  {
    if tgs != [] {
      var p := tgs[..|tgs| - 1];
      DeleteTgsTail(w, p, dryRun, o);
      var w0 := DeleteTgsRun(w, p, dryRun, o);
      var w1 := if dryRun then w0 else DeleteTgCall(w0, tgs[|tgs| - 1], o).0;
      assert Phase(ReportedTg(tgs[|tgs| - 1], dryRun)) == 5;
    }
  }

  /** The message and then the target-group entries. */
  lemma ReportedTail(lb: Id, tail: seq<Event>)
    requires forall i | 0 <= i < |tail| :: Phase(tail[i]) == 5
    ensures var rest := [ReportedLb(lb, false)] + tail;
      && PhaseOrdered(rest)
      && AboutLb(rest, lb)
      && HasPhase(rest, 4)
      && forall i | 0 <= i < |rest| :: Phase(rest[i]) >= 4
  {
    var rest := [ReportedLb(lb, false)] + tail;
    forall i | 0 <= i < |rest| ensures Phase(rest[i]) >= 4 && (Phase(rest[i]) < 5 ==> Subject(rest[i]) == lb) {
      if i > 0 {
        assert rest[i] == tail[i - 1];
      }
    }
    forall i, j | 0 <= i < j < |rest| ensures Phase(rest[i]) < Phase(rest[j]) || (Phase(rest[i]) == 5 && Phase(rest[j]) == 5) {
      assert rest[j] == tail[j - 1];
      if i > 0 {
        assert rest[i] == tail[i - 1];
      }
    }
    assert Phase(rest[0]) == 4;
  }

  /** The shape of a deleting pass's log entries: the try block's calls,
      the wait, and, when the wait returned, the message and the target-group
      entries. */
  lemma StepShapeOrdered(calls: seq<Event>, lb: Id, completed: bool, tail: seq<Event>)
    requires 1 <= |calls| && PhaseOrdered(calls) && AboutLb(calls, lb)
    requires forall i | 0 <= i < |calls| :: Phase(calls[i]) <= 2
    requires forall i | 0 <= i < |tail| :: Phase(tail[i]) == 5
    ensures var added := calls + [WaitDeleted(lb, completed)] + (if completed then [ReportedLb(lb, false)] + tail else []);
      && |added| >= 2
      && added[0] == calls[0]
      && PhaseOrdered(added)
      && AboutLb(added, lb)
      && (HasPhase(added, 1) <==> HasPhase(calls, 1))
      && (HasPhase(added, 2) <==> HasPhase(calls, 2))
      && HasPhase(added, 3)
      && (completed ==> HasPhase(added, 4))
      && (!completed ==> added[|added| - 1] == WaitDeleted(lb, false))
  {
    WaitAppended(calls, lb, completed);
    var head := calls + [WaitDeleted(lb, completed)];
    if completed {
      TailAppended(head, lb, tail);
    } else {
      assert head + [] == head;
    }
  }

  /** The try block's calls followed by the wait. */
  lemma WaitAppended(calls: seq<Event>, lb: Id, ok: bool)
    requires 1 <= |calls| && PhaseOrdered(calls) && AboutLb(calls, lb)
    requires forall i | 0 <= i < |calls| :: Phase(calls[i]) <= 2
    ensures var head := calls + [WaitDeleted(lb, ok)];
      && head[0] == calls[0]
      && PhaseOrdered(head)
      && AboutLb(head, lb)
      && (forall i | 0 <= i < |head| :: Phase(head[i]) <= 3)
      && (HasPhase(head, 1) <==> HasPhase(calls, 1))
      && (HasPhase(head, 2) <==> HasPhase(calls, 2))
      && HasPhase(head, 3)
  {
    var waitEv := WaitDeleted(lb, ok);
    PhaseOrderedConcat(calls, [waitEv]);
    AboutLbConcat(calls, [waitEv], lb);
    HasPhaseConcat(calls, [waitEv], 1);
    HasPhaseConcat(calls, [waitEv], 2);
    HasPhaseConcat(calls, [waitEv], 3);
    assert Phase([waitEv][0]) == 3;
    var head := calls + [waitEv];
    forall i | 0 <= i < |head| ensures Phase(head[i]) <= 3 {
      if i < |calls| {
        assert head[i] == calls[i];
      }
    }
  }

  /** The calls and the wait followed by the message and the target-group
      entries. */
  lemma TailAppended(head: seq<Event>, lb: Id, tail: seq<Event>)
    requires 1 <= |head| && PhaseOrdered(head) && AboutLb(head, lb)
    requires forall i | 0 <= i < |head| :: Phase(head[i]) <= 3
    requires forall i | 0 <= i < |tail| :: Phase(tail[i]) == 5
    ensures var added := head + ([ReportedLb(lb, false)] + tail);
      && added[0] == head[0]
      && PhaseOrdered(added)
      && AboutLb(added, lb)
      && (HasPhase(added, 1) <==> HasPhase(head, 1))
      && (HasPhase(added, 2) <==> HasPhase(head, 2))
      && (HasPhase(added, 3) <==> HasPhase(head, 3))
      && HasPhase(added, 4)
  {
    var rest := [ReportedLb(lb, false)] + tail;
    ReportedTail(lb, tail);
    PhaseOrderedConcat(head, rest);
    AboutLbConcat(head, rest, lb);
    HasPhaseConcat(head, rest, 1);
    HasPhaseConcat(head, rest, 2);
    HasPhaseConcat(head, rest, 3);
    HasPhaseConcat(head, rest, 4);
  }

  /** One pass of `delete_lbs` for an entry without `populated_target_groups`,
      not under dry_run: the try block's calls in order, then the wait in every
      case (the waiter is outside the try block); the pass is cut short exactly
      when the load balancer is still live, and then the failed wait is the
      last entry; otherwise the message and then only target-group entries
      follow. */
  lemma DeletingStepOrder(w: World, lb: Id, entry: LoadBalancerScan.LbSummary, tgDryRun: bool, o: Oracle)
    requires entry.populatedTargetGroups.None?
    ensures var r := LbStep(w, lb, entry, false, tgDryRun, o);
      && w.log <= r.world.log
      && var added := r.world.log[|w.log|..];
      && |added| >= 2
      && added[0] == DescribeAttributes(lb, DescribeOk(w, lb, o))
      && PhaseOrdered(added)
      && AboutLb(added, lb)
      && (HasPhase(added, 1) <==> DescribeOk(w, lb, o) && lb in w.infra.protected)
      && (HasPhase(added, 2) <==> DescribeOk(w, lb, o) && (lb !in w.infra.protected || lb !in o.modifyFails))
      && HasPhase(added, 3)
      && (r.aborted <==> lb in w.infra.loadBalancers && !Removed(w, lb, o))
      && (r.aborted ==> added[|added| - 1] == WaitDeleted(lb, false))
      && (!r.aborted ==> HasPhase(added, 4) && lb !in r.world.infra.loadBalancers)
  {
    AttemptDeleteCalls(w, lb, o);
    var calls, tail := DeletingStepSplit(w, lb, entry, tgDryRun, o);
    var r := LbStep(w, lb, entry, false, tgDryRun, o);
    StepShapeOrdered(calls, lb, !r.aborted, tail);
  }

  /** A deleting pass's log entries: the try block's, the wait, and, when the
      wait returned, the message and the target-group entries. */
  lemma DeletingStepSplit(w: World, lb: Id, entry: LoadBalancerScan.LbSummary, tgDryRun: bool, o: Oracle)
    returns (calls: seq<Event>, tail: seq<Event>)
    requires entry.populatedTargetGroups.None?
    ensures var a := AttemptDelete(w, lb, o);
      var r := LbStep(w, lb, entry, false, tgDryRun, o);
      && w.log <= a.log
      && calls == a.log[|w.log|..]
      && (r.aborted <==> lb in a.infra.loadBalancers)
      && w.log <= r.world.log
      && r.world.log[|w.log|..] == calls + [WaitDeleted(lb, !r.aborted)] + (if !r.aborted then [ReportedLb(lb, false)] + tail else [])
      && (forall i | 0 <= i < |tail| :: Phase(tail[i]) == 5)
      && (!r.aborted ==> r.world.infra.loadBalancers == a.infra.loadBalancers)
  {
    var a := AttemptDelete(w, lb, o);
    AttemptDeleteCalls(w, lb, o);
    calls := a.log[|w.log|..];
    var wt := WaitCall(a, lb);
    var r := LbStep(w, lb, entry, false, tgDryRun, o);
    SliceAppend(w.log, a.log, [WaitDeleted(lb, wt.1)]);
    if wt.1 {
      assert r.world == ReportAndDeleteTgs(wt.0, lb, entry, false, tgDryRun, o);
      tail := ReportingPassLog(wt.0, lb, entry, false, tgDryRun, o);
      DeleteTgsInfra(World(wt.0.infra, wt.0.log + [ReportedLb(lb, false)]), entry.emptyTargetGroups, tgDryRun, o);
      SliceConcat(w.log, wt.0.log, r.world.log);
    } else {
      tail := [];
      assert r.world.log[|w.log|..] == calls + [WaitDeleted(lb, false)] + [];
    }
  }

  lemma SliceAppend(x: seq<Event>, y: seq<Event>, e: seq<Event>)
    requires x <= y
    ensures x <= y + e && (y + e)[|x|..] == y[|x|..] + e
  {
  }

  lemma SliceConcat(x: seq<Event>, y: seq<Event>, z: seq<Event>)
    requires x <= y && y <= z
    ensures x <= z && z[|x|..] == y[|x|..] + z[|y|..]
  {
  }

  /** The load balancers a run of `delete_lbs` may describe, modify, delete
      or wait for: those whose entry has no `populated_target_groups` key. */
  function Touchable(lbs: LbEntries): set<Id> {
    set j | 0 <= j < |lbs| && lbs[j].1.populatedTargetGroups.None? :: lbs[j].0
  }

  lemma LbStepCalls(w: World, x: (Id, LoadBalancerScan.LbSummary), dryRun: bool, tgDryRun: bool, o: Oracle)
    ensures var r := LbStep(w, x.0, x.1, dryRun, tgDryRun, o);
      && w.log <= r.world.log
      && (forall i | |w.log| <= i < |r.world.log| && KindOf(r.world.log[i]) == LbCall ::
            !dryRun && x.1.populatedTargetGroups.None? && Subject(r.world.log[i]) == x.0)
      && (r.aborted ==> !dryRun && |r.world.log| > |w.log| && r.world.log[|r.world.log| - 1] == WaitDeleted(x.0, false))
  {
    var r := LbStep(w, x.0, x.1, dryRun, tgDryRun, o);
    if !dryRun && x.1.populatedTargetGroups.None? {
      DeletingStepOrder(w, x.0, x.1, tgDryRun, o);
      var added := r.world.log[|w.log|..];
      forall i | |w.log| <= i < |r.world.log| && KindOf(r.world.log[i]) == LbCall
        ensures Subject(r.world.log[i]) == x.0
      {
        assert r.world.log[i] == added[i - |w.log|];
        assert Phase(added[i - |w.log|]) < 5;
      }
    } else {
      var w1 := World(w.infra, w.log + [ReportedLb(x.0, dryRun)]);
      DeleteTgsTail(w1, x.1.emptyTargetGroups, tgDryRun, o);
      forall i | |w.log| <= i < |r.world.log| ensures KindOf(r.world.log[i]) != LbCall {
        if i == |w.log| {
          assert r.world.log[i] == w1.log[i];
        } else {
          assert Phase(r.world.log[i]) == 5;
        }
      }
    }
  }

  /** `delete_lbs` describes, modifies, deletes or waits for a load balancer
      only when dry_run is false and its entry has no
      `populated_target_groups` key; only a failed wait, then the last
      entry of the log, cuts a run short. */
  lemma {:induction false} DeleteLbsLbCalls(w: World, lbs: LbEntries, dryRun: bool, tgDryRun: bool, o: Oracle)
    ensures var r := DeleteLbsRun(w, lbs, dryRun, tgDryRun, o);
      && w.log <= r.world.log
      && (forall i | |w.log| <= i < |r.world.log| && KindOf(r.world.log[i]) == LbCall ::
            !dryRun && Subject(r.world.log[i]) in Touchable(lbs))
      && (r.aborted ==>
            (!dryRun && |r.world.log| > |w.log| &&
             r.world.log[|r.world.log| - 1].WaitDeleted? && !r.world.log[|r.world.log| - 1].succeeded))
  {
    if lbs != [] {
      var p, x := lbs[..|lbs| - 1], lbs[|lbs| - 1];
      DeleteLbsLbCalls(w, p, dryRun, tgDryRun, o);
      var r0 := DeleteLbsRun(w, p, dryRun, tgDryRun, o);
      assert Touchable(p) <= Touchable(lbs) by {
        forall a | a in Touchable(p) ensures a in Touchable(lbs) {
          var j :| 0 <= j < |p| && p[j].1.populatedTargetGroups.None? && p[j].0 == a;
          assert lbs[j] == p[j];
        }
      }
      if !r0.aborted {
        LbStepCalls(r0.world, x, dryRun, tgDryRun, o);
        if x.1.populatedTargetGroups.None? {
          assert x.0 in Touchable(lbs) by {
            assert lbs[|lbs| - 1] == x;
          }
        }
      }
    }
  }

  // The integration test of `delete_lbs`, and the dry-run finding.

  /** The test's account: one load balancer with a listener forwarding to
      one target group, and the entry the scan reports for it. */
  function TestInfra(elb: Id, tg: Id): Infra {
    Infra({elb}, {}, {tg}, map[tg := {elb}])
  }

  const NoFailures: Oracle := Oracle({}, {}, {}, {}, {})

  /** A dry run keeps both resources: the target-group delete it does issue
      fails because the live load balancer still uses the group. A second,
      real run deletes the load balancer and then the group, and completes. */
  lemma DeleteLbsTestScenario(elb: Id, tg: Id)
    ensures var lbs := [(elb, LoadBalancerScan.LbSummary(0.0, [tg], None))];
      var r1 := DeleteLbsRun(World(TestInfra(elb, tg), []), lbs, true, false, NoFailures);
      var r2 := DeleteLbsRun(r1.world, lbs, false, false, NoFailures);
      && !r1.aborted
      && r1.world.infra == TestInfra(elb, tg)
      && r1.world.log == [ReportedLb(elb, true), DeleteTargetGroup(tg, false), ReportedTg(tg, false)]
      && !r2.aborted
      && r2.world.infra.loadBalancers == {}
      && r2.world.infra.targetGroups == {}
  {
    var entry := LoadBalancerScan.LbSummary(0.0, [tg], None);
    var lbs := [(elb, entry)];
    var o := NoFailures;
    var w0 := World(TestInfra(elb, tg), []);
    assert lbs[..|lbs| - 1] == [];
    assert [tg][..|[tg]| - 1] == [];
    // The dry run.
    var w1 := World(w0.infra, [ReportedLb(elb, true)]);
    assert elb in w1.infra.references[tg] * w1.infra.loadBalancers;
    var t1 := DeleteTgCall(w1, tg, o);
    assert !t1.1 && t1.0 == World(w0.infra, w1.log + [DeleteTargetGroup(tg, false)]);
    var d1 := DeleteTgsRun(w1, [tg], false, o);
    TgsOne(w1, tg, false, o);
    assert d1 == World(w0.infra, [ReportedLb(elb, true), DeleteTargetGroup(tg, false), ReportedTg(tg, false)]);
    assert w0.log + [ReportedLb(elb, true)] == w1.log;
    assert ReportAndDeleteTgs(w0, elb, entry, true, false, o) == d1;
    var r1 := DeleteLbsRun(w0, lbs, true, false, o);
    LbsOne(w0, elb, entry, true, false, o);
    // The real run.
    var a := AttemptDelete(d1, elb, o);
    assert DescribeCall(d1, elb, o).1 == Some(false);
    assert a.infra == d1.infra.(loadBalancers := {elb} - {elb}) by {
      assert a == DeleteLbCall(DescribeCall(d1, elb, o).0, elb, o).0;
    }
    assert {elb} - {elb} == {};
    var wt := WaitCall(a, elb);
    assert wt.1;
    var w2 := World(wt.0.infra, wt.0.log + [ReportedLb(elb, false)]);
    assert w2.infra.references[tg] * w2.infra.loadBalancers == {};
    var d2 := DeleteTgsRun(w2, [tg], false, o);
    TgsOne(w2, tg, false, o);
    assert {tg} - {tg} == {};
    assert d2.infra.targetGroups == {};
    assert LbStep(d1, elb, entry, false, false, o) == Run(d2, false);
    LbsOne(d1, elb, entry, false, false, o);
  }

  lemma TgsOne(w: World, tg: Id, dryRun: bool, o: Oracle)
    ensures DeleteTgsRun(w, [tg], dryRun, o) == TgStep(w, tg, dryRun, o)
  {
    assert [tg][..0] == [];
  }

  lemma LbsOne(w: World, lb: Id, entry: LoadBalancerScan.LbSummary, dryRun: bool, tgDryRun: bool, o: Oracle)
    ensures DeleteLbsRun(w, [(lb, entry)], dryRun, tgDryRun, o) == LbStep(w, lb, entry, dryRun, tgDryRun, o)
  {
    assert [(lb, entry)][..0] == [];
  }

  /** As written, `delete_lbs` under dry_run still issues delete_target_group
      calls. One succeeds for a group no live load balancer uses: entries
      built by hand, or a listener changed after the scan. Here the load
      balancer stays and the group is gone. On fresh scan output the call is
      refused instead (`DeleteLbsTestScenario`). */
  lemma DryRunDeletesTargetGroups()
    ensures var lbs := [("lb-A", LoadBalancerScan.LbSummary(0.0, ["tg-1"], Some(["tg-2"])))];
      var w := World(Infra({"lb-A"}, {}, {"tg-1", "tg-2"}, map["tg-2" := {"lb-A"}]), []);
      var r := DeleteLbsRun(w, lbs, true, false, NoFailures);
      && r.world.infra.loadBalancers == {"lb-A"}
      && r.world.infra.targetGroups == {"tg-2"}
      && Project(r.world.log, TgCall) == ["tg-1"]
  {
    var entry := LoadBalancerScan.LbSummary(0.0, ["tg-1"], Some(["tg-2"]));
    var w := World(Infra({"lb-A"}, {}, {"tg-1", "tg-2"}, map["tg-2" := {"lb-A"}]), []);
    var w1 := World(w.infra, [ReportedLb("lb-A", true)]);
    LbsOne(w, "lb-A", entry, true, false, NoFailures);
    assert w.log + [ReportedLb("lb-A", true)] == w1.log;
    TgsOne(w1, "tg-1", false, NoFailures);
    assert !InUse(w1.infra, "tg-1");
    var t := DeleteTgCall(w1, "tg-1", NoFailures);
    assert t.1;
    assert {"tg-1", "tg-2"} - {"tg-1"} == {"tg-2"};
    assert t.0.log == [ReportedLb("lb-A", true), DeleteTargetGroup("tg-1", true)];
    var d := t.0.log + [ReportedTg("tg-1", false)];
    ProjectOne([], ReportedLb("lb-A", true), TgCall);
    ProjectOne([ReportedLb("lb-A", true)], DeleteTargetGroup("tg-1", true), TgCall);
    ProjectOne(t.0.log, ReportedTg("tg-1", false), TgCall);
  }

  // The kept load balancer: no detach before `delete_tgs`.

  /** The scan's view of lb-A: its listeners forward to tg-1, which has no
      healthy targets, and to tg-2, which has. */
  function KeptLbInfra(): Infra {
    Infra({"lb-A"}, {}, {"tg-1", "tg-2"}, map["tg-1" := {"lb-A"}, "tg-2" := {"lb-A"}])
  }

  function KeptLbEntry(): LoadBalancerScan.LbSummary {
    LoadBalancerScan.LbSummary(0.0, ["tg-1"], Some(["tg-2"]))
  }

  /** As written, a real pass over a load balancer that keeps populated
      target groups deletes none of its empty ones: the load balancer still
      references them, so every delete is refused. Each still gets its
      "deleted target group" message. */
  lemma KeptLbGroupsStay(w: World, lb: Id, entry: LoadBalancerScan.LbSummary, tgDryRun: bool, o: Oracle)
    requires entry.populatedTargetGroups.Some?
    ensures var r := LbStep(w, lb, entry, false, tgDryRun, o);
      && !r.aborted
      && r.world.infra.loadBalancers == w.infra.loadBalancers
      && r.world.infra.references == w.infra.references
      && (forall t | t in entry.emptyTargetGroups && t in w.infra.targetGroups && lb in w.infra.loadBalancers
            && t in w.infra.references && lb in w.infra.references[t] :: t in r.world.infra.targetGroups)
      && Project(r.world.log, TgReport) == Project(w.log, TgReport) + entry.emptyTargetGroups
  {
    assert LbStep(w, lb, entry, false, tgDryRun, o) == Run(ReportAndDeleteTgs(w, lb, entry, false, tgDryRun, o), false);
    KeptGroupsSurvive(World(w.infra, w.log + [ReportedLb(lb, false)]), lb, entry.emptyTargetGroups, tgDryRun, o);
    ReportLog(w, lb, entry, false, tgDryRun, o, TgReport);
  }

  /** `delete_tgs` removes no group that a given live load balancer uses. */
  lemma KeptGroupsSurvive(w: World, lb: Id, tgs: seq<Id>, dryRun: bool, o: Oracle)
    ensures var r := DeleteTgsRun(w, tgs, dryRun, o);
      && r.infra.loadBalancers == w.infra.loadBalancers
      && r.infra.references == w.infra.references
      && forall t | t in w.infra.targetGroups && lb in w.infra.loadBalancers
           && t in w.infra.references && lb in w.infra.references[t] :: t in r.infra.targetGroups
  {
    DeleteTgsInfra(w, tgs, dryRun, o);
    forall t | t in w.infra.targetGroups && lb in w.infra.loadBalancers
        && t in w.infra.references && lb in w.infra.references[t]
      ensures t !in Removable(w.infra, tgs, o)
    {
      assert lb in w.infra.references[t] * w.infra.loadBalancers;
    }
  }

  /** As written, on the scan's view of lb-A the real run completes and
      changes nothing: the delete of tg-1 is refused, yet its message is
      logged. */
  lemma KeptLbGroupRefused()
    ensures var r := DeleteLbsRun(World(KeptLbInfra(), []), [("lb-A", KeptLbEntry())], false, false, NoFailures);
      && !r.aborted
      && r.world.infra == KeptLbInfra()
      && r.world.log == [ReportedLb("lb-A", false), DeleteTargetGroup("tg-1", false), ReportedTg("tg-1", false)]
  {
    var w := World(KeptLbInfra(), []);
    var w1 := World(w.infra, [ReportedLb("lb-A", false)]);
    LbsOne(w, "lb-A", KeptLbEntry(), false, false, NoFailures);
    assert w.log + [ReportedLb("lb-A", false)] == w1.log;
    TgsOne(w1, "tg-1", false, NoFailures);
    assert "lb-A" in w1.infra.references["tg-1"] * w1.infra.loadBalancers;
  }

  /** The load balancer's listeners no longer forward to `tgs`. */
  function Detach(infra: Infra, lb: Id, tgs: seq<Id>): (r: Infra)
    ensures r.loadBalancers == infra.loadBalancers && r.protected == infra.protected
    ensures r.targetGroups == infra.targetGroups
    ensures r.references.Keys == infra.references.Keys
    ensures forall t | t in r.references :: lb !in r.references[t] || t !in tgs
  {
    infra.(references := map t | t in infra.references :: if t in tgs then infra.references[t] - {lb} else infra.references[t])
  }

  /** The end of one pass as the confirmation prompt describes it: the
      message, then, unless target groups run under dry_run, the load
      balancer is detached from its empty groups, then `delete_tgs` of them. */
  function DetachAndDeleteTgs(w: World, lb: Id, entry: LoadBalancerScan.LbSummary, dryRun: bool, tgDryRun: bool, o: Oracle): World {
    var w1 := World(w.infra, w.log + [ReportedLb(lb, dryRun)]);
    var w2 := if tgDryRun then w1 else World(Detach(w1.infra, lb, entry.emptyTargetGroups), w1.log);
    DeleteTgsRun(w2, entry.emptyTargetGroups, tgDryRun, o)
  }

  /** One pass of `delete_lbs` with the detach and with dry_run forwarded. */
  function LbStepDetaching(w: World, lb: Id, entry: LoadBalancerScan.LbSummary, dryRun: bool, o: Oracle): Run {
    var waited := if !dryRun && entry.populatedTargetGroups.None? then WaitCall(AttemptDelete(w, lb, o), lb) else (w, true);
    if !waited.1 then Run(waited.0, true) else Run(DetachAndDeleteTgs(waited.0, lb, entry, dryRun, dryRun, o), false)
  }

  /** With the detach, a real pass over a kept load balancer deletes each of
      its empty groups that no other live load balancer uses, and only
      those: the load balancer and every other target group remain. */
  lemma DetachFreesEmptyGroups(w: World, lb: Id, entry: LoadBalancerScan.LbSummary, o: Oracle)
    requires entry.populatedTargetGroups.Some?
    ensures var r := LbStepDetaching(w, lb, entry, false, o);
      && !r.aborted
      && r.world.infra.loadBalancers == w.infra.loadBalancers
      && (forall t | t in w.infra.targetGroups && t !in entry.emptyTargetGroups :: t in r.world.infra.targetGroups)
      && (forall t | t in entry.emptyTargetGroups && t !in o.deleteTgFails
            && (t in w.infra.references ==> w.infra.references[t] * w.infra.loadBalancers <= {lb}) :: t !in r.world.infra.targetGroups)
      && r.world.infra.targetGroups <= w.infra.targetGroups
  {
    var w1 := World(w.infra, w.log + [ReportedLb(lb, false)]);
    var w2 := World(Detach(w1.infra, lb, entry.emptyTargetGroups), w1.log);
    DeleteTgsInfra(w2, entry.emptyTargetGroups, false, o);
    forall t | t in entry.emptyTargetGroups && t !in o.deleteTgFails
        && (t in w.infra.references ==> w.infra.references[t] * w.infra.loadBalancers <= {lb})
      ensures t in Removable(w2.infra, entry.emptyTargetGroups, o)
    {
      if t in w2.infra.references {
        assert w2.infra.references[t] == w.infra.references[t] - {lb};
      }
    }
  }

  /** With the detach, the scan's view of lb-A ends as the confirmation
      prompt promises: tg-1 is deleted, lb-A and tg-2 remain. */
  lemma KeptLbDetachScenario()
    ensures var r := LbStepDetaching(World(KeptLbInfra(), []), "lb-A", KeptLbEntry(), false, NoFailures);
      && !r.aborted
      && r.world.infra.loadBalancers == {"lb-A"}
      && r.world.infra.targetGroups == {"tg-2"}
  {
    var infra := KeptLbInfra();
    DetachFreesEmptyGroups(World(infra, []), "lb-A", KeptLbEntry(), NoFailures);
    assert infra.references["tg-1"] * infra.loadBalancers <= {"lb-A"};
    assert "tg-1" in KeptLbEntry().emptyTargetGroups;
  }

  // The waiter's exception ends the batch.

  /** Two load balancers, each with one empty target group that only it
      uses; the delete of lb-A raises. */
  function TwoLbInfra(): Infra {
    Infra({"lb-A", "lb-B"}, {}, {"tg-1", "tg-2"}, map["tg-1" := {"lb-A"}, "tg-2" := {"lb-B"}])
  }

  function TwoLbEntries(): LbEntries {
    [("lb-A", LoadBalancerScan.LbSummary(0.0, ["tg-1"], None)), ("lb-B", LoadBalancerScan.LbSummary(0.0, ["tg-2"], None))]
  }

  const LbADeleteFails: Oracle := Oracle({}, {}, {"lb-A"}, {}, {})

  /** As written, the failed delete of lb-A is caught, but the waiter that
      follows it outside the try block raises, and nothing catches that: the
      run ends before lb-B is looked at, and nothing is deleted. */
  lemma FailedDeleteEndsBatch()
    ensures var r := DeleteLbsRun(World(TwoLbInfra(), []), TwoLbEntries(), false, false, LbADeleteFails);
      && r.aborted
      && r.world.infra == TwoLbInfra()
      && r.world.log == [DescribeAttributes("lb-A", true), DeleteLoadBalancer("lb-A", Raised), WaitDeleted("lb-A", false)]
  {
    var lbs, o := TwoLbEntries(), LbADeleteFails;
    var w := World(TwoLbInfra(), []);
    LbsOne(w, "lb-A", lbs[0].1, false, false, o);
    assert lbs[..1] == [lbs[0]];
    assert DeleteLbsRun(w, lbs[..1], false, false, o).aborted;
    DeleteLbsAbortedStays(w, lbs[..1], lbs[1..], false, false, o);
    assert lbs[..1] + lbs[1..] == lbs;
  }

  /** `delete_lbs` with the waiter's exception caught: a pass whose wait
      raised leaves its load balancer's target groups alone, and the run
      goes on with the next entry. A pass cut short has logged nothing
      after the failed wait, so the run continues from the world it left. */
  function DeleteLbsCatchingRun(w: World, lbs: LbEntries, dryRun: bool, tgDryRun: bool, o: Oracle): World {
    if lbs == [] then w
    else LbStep(DeleteLbsCatchingRun(w, lbs[..|lbs| - 1], dryRun, tgDryRun, o), lbs[|lbs| - 1].0, lbs[|lbs| - 1].1, dryRun, tgDryRun, o).world
  }

  /** The entry that closes one pass: its "deleted load balancer" message,
      or the failed wait that cut it short. */
  predicate IsOutcome(e: Event) {
    e.ReportedLb? || (e.WaitDeleted? && !e.succeeded)
  }

  /** The load balancers whose passes closed, in log order. */
  function Outcomes(log: seq<Event>): seq<Id> {
    if log == [] then []
    else Outcomes(log[..|log| - 1]) + (if IsOutcome(log[|log| - 1]) then [Subject(log[|log| - 1])] else [])
  }

  lemma {:induction false} OutcomesAppend(a: seq<Event>, b: seq<Event>)
    ensures Outcomes(a + b) == Outcomes(a) + Outcomes(b)
  {
    if b == [] {
      assert a + b == a;
    } else {
      assert (a + b)[..|a + b| - 1] == a + b[..|b| - 1];
      OutcomesAppend(a, b[..|b| - 1]);
    }
  }

  lemma {:induction false} OutcomesNone(s: seq<Event>)
    requires forall i | 0 <= i < |s| :: Phase(s[i]) <= 2 || Phase(s[i]) == 5
    ensures Outcomes(s) == []
  {
    if s != [] {
      var p := s[..|s| - 1];
      assert forall i | 0 <= i < |p| :: p[i] == s[i];
      OutcomesNone(p);
    }
  }

  lemma OutcomesPrefix(log: seq<Event>, full: seq<Event>)
    requires log <= full
    ensures Outcomes(full) == Outcomes(log) + Outcomes(full[|log|..])
  {
    assert log + full[|log|..] == full;
    OutcomesAppend(log, full[|log|..]);
  }

  /** The entries a deleting pass adds close it once. */
  lemma DeletingPassOutcome(calls: seq<Event>, lb: Id, completed: bool, tail: seq<Event>)
    requires forall i | 0 <= i < |calls| :: Phase(calls[i]) <= 2
    requires forall i | 0 <= i < |tail| :: Phase(tail[i]) == 5
    ensures Outcomes(calls + [WaitDeleted(lb, completed)] + (if completed then [ReportedLb(lb, false)] + tail else [])) == [lb]
  {
    OutcomesNone(calls);
    if completed {
      WaitReturnedOutcome(calls, lb, tail);
    } else {
      WaitRaisedOutcome(calls, lb);
    }
  }

  lemma WaitRaisedOutcome(calls: seq<Event>, lb: Id)
    requires Outcomes(calls) == []
    ensures Outcomes(calls + [WaitDeleted(lb, false)] + []) == [lb]
  {
    var head := calls + [WaitDeleted(lb, false)];
    assert head + [] == head;
    assert head[..|head| - 1] == calls;
  }

  lemma WaitReturnedOutcome(calls: seq<Event>, lb: Id, tail: seq<Event>)
    requires Outcomes(calls) == []
    requires forall i | 0 <= i < |tail| :: Phase(tail[i]) == 5
    ensures Outcomes(calls + [WaitDeleted(lb, true)] + ([ReportedLb(lb, false)] + tail)) == [lb]
  {
    var head := calls + [WaitDeleted(lb, true)];
    assert head[..|head| - 1] == calls;
    ReportingPassOutcome(lb, false, tail);
    OutcomesAppend(head, [ReportedLb(lb, false)] + tail);
  }

  /** The entries a pass that deletes no load balancer adds close it once. */
  lemma ReportingPassOutcome(lb: Id, dryRun: bool, tail: seq<Event>)
    requires forall i | 0 <= i < |tail| :: Phase(tail[i]) == 5
    ensures Outcomes([ReportedLb(lb, dryRun)] + tail) == [lb]
  {
    OutcomesNone(tail);
    assert Outcomes([ReportedLb(lb, dryRun)]) == [lb];
    OutcomesAppend([ReportedLb(lb, dryRun)], tail);
  }

  /** The end of a pass: the message, then only target-group entries. */
  lemma ReportingPassLog(w: World, lb: Id, entry: LoadBalancerScan.LbSummary, dryRun: bool, tgDryRun: bool, o: Oracle)
    returns (tail: seq<Event>)
    ensures var r := ReportAndDeleteTgs(w, lb, entry, dryRun, tgDryRun, o);
      && w.log <= r.log
      && r.log[|w.log|..] == [ReportedLb(lb, dryRun)] + tail
      && forall i | 0 <= i < |tail| :: Phase(tail[i]) == 5
  {
    var w1 := World(w.infra, w.log + [ReportedLb(lb, dryRun)]);
    var r := DeleteTgsRun(w1, entry.emptyTargetGroups, tgDryRun, o);
    DeleteTgsTail(w1, entry.emptyTargetGroups, tgDryRun, o);
    tail := r.log[|w1.log|..];
    forall i | 0 <= i < |tail| ensures Phase(tail[i]) == 5 {
      assert tail[i] == r.log[|w1.log| + i];
    }
    assert r.log[|w.log|..] == [ReportedLb(lb, dryRun)] + tail;
  }

  /** Every pass closes exactly once, with the message or with the failed
      wait, and the closing entry is about its own load balancer. */
  lemma LbStepOutcome(w: World, x: (Id, LoadBalancerScan.LbSummary), dryRun: bool, tgDryRun: bool, o: Oracle)
    ensures var r := LbStep(w, x.0, x.1, dryRun, tgDryRun, o);
      && w.log <= r.world.log
      && Outcomes(r.world.log) == Outcomes(w.log) + [x.0]
  {
    var r := LbStep(w, x.0, x.1, dryRun, tgDryRun, o);
    if !dryRun && x.1.populatedTargetGroups.None? {
      var calls, tail := DeletingStepSplit(w, x.0, x.1, tgDryRun, o);
      AttemptDeleteCalls(w, x.0, o);
      DeletingPassOutcome(calls, x.0, !r.aborted, tail);
    } else {
      assert r.world == ReportAndDeleteTgs(w, x.0, x.1, dryRun, tgDryRun, o);
      var tail := ReportingPassLog(w, x.0, x.1, dryRun, tgDryRun, o);
      ReportingPassOutcome(x.0, dryRun, tail);
    }
    OutcomesPrefix(w.log, r.world.log);
  }

  /** With the waiter's exception caught the run never stops early: every
      entry's pass runs and closes, in dictionary order. */
  lemma {:induction false} CatchingRunClosesEveryEntry(w: World, lbs: LbEntries, dryRun: bool, tgDryRun: bool, o: Oracle)
    ensures var r := DeleteLbsCatchingRun(w, lbs, dryRun, tgDryRun, o);
      && w.log <= r.log
      && Outcomes(r.log) == Outcomes(w.log) + Dicts.Keys(lbs)
  {
    if lbs != [] {
      var p, x := lbs[..|lbs| - 1], lbs[|lbs| - 1];
      CatchingRunClosesEveryEntry(w, p, dryRun, tgDryRun, o);
      var w0 := DeleteLbsCatchingRun(w, p, dryRun, tgDryRun, o);
      LbStepOutcome(w0, x, dryRun, tgDryRun, o);
      LastSplit(lbs);
      Dicts.KeysAppend(p, [x]);
      assert Dicts.Keys([x]) == [x.0];
    }
  }

  /** Where the run as written completes, catching the waiter's exception
      changes nothing. */
  lemma {:induction false} CatchingRunAgrees(w: World, lbs: LbEntries, dryRun: bool, tgDryRun: bool, o: Oracle)
    ensures !DeleteLbsRun(w, lbs, dryRun, tgDryRun, o).aborted ==>
      DeleteLbsCatchingRun(w, lbs, dryRun, tgDryRun, o) == DeleteLbsRun(w, lbs, dryRun, tgDryRun, o).world
  {
    if lbs != [] {
      CatchingRunAgrees(w, lbs[..|lbs| - 1], dryRun, tgDryRun, o);
    }
  }

  /** With the waiter's exception caught, the failed delete of lb-A leaves
      lb-A and its group tg-1 in place, and the run goes on to delete lb-B
      and then tg-2. */
  lemma CatchingRunDeletesLaterEntries()
    ensures var r := DeleteLbsCatchingRun(World(TwoLbInfra(), []), TwoLbEntries(), false, false, LbADeleteFails);
      && r.infra.loadBalancers == {"lb-A"}
      && r.infra.targetGroups == {"tg-1"}
  {
    var lbs, o := TwoLbEntries(), LbADeleteFails;
    var w := World(TwoLbInfra(), []);
    assert lbs[..1] == [lbs[0]];
    assert lbs[..1][..0] == [];
    var w1 := LbStep(w, "lb-A", lbs[0].1, false, false, o).world;
    assert DeleteLbsCatchingRun(w, lbs[..1], false, false, o) == w1;
    assert w1.infra == w.infra;
    // The pass over lb-B.
    var a := AttemptDelete(w1, "lb-B", o);
    AttemptDeleteInfra(w1, "lb-B", o);
    assert Removed(w1, "lb-B", o);
    assert a.infra.loadBalancers == {"lb-A"};
    var wt := WaitCall(a, "lb-B");
    assert wt.1;
    var w2 := World(wt.0.infra, wt.0.log + [ReportedLb("lb-B", false)]);
    TgsOne(w2, "tg-2", false, o);
    assert !InUse(w2.infra, "tg-2");
    assert {"tg-1", "tg-2"} - {"tg-2"} == {"tg-1"};
  }
}
