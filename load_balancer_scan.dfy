/** The load-balancer aggregator `scan_for_lbs_no_targets` (in the older copy
    `get_lbs_no_targets`): for every load balancer, its monthly cost and its
    target groups split into empty ones (no health descriptions) and
    populated ones; a load balancer is reported only when it has an empty
    target group, and the total monthly cost sums the reported ones. */
module LoadBalancerScan {
  import opened Common
  import Dicts
  import Pricing

  /** Average hours in a month used to turn an hourly price into a monthly one. */
  const HOURS_PER_MONTH: real := 730.0

  /** One element of describe_load_balancers: its ARN, its Type ("network",
      "application", ...), and, in listing order, each of its target groups
      (describe_target_groups filtered by the load balancer) with the number
      of health descriptions describe_target_health returns for it. */
  datatype LoadBalancerReport = LoadBalancerReport(arn: Id, lbType: string, targetGroups: seq<(Id, nat)>)

  /** The value stored under a load balancer's ARN. `populated_target_groups`
      is an optional key of the source's dictionary, hence the Option. */
  datatype LbSummary = LbSummary(monthlyCost: real, emptyTargetGroups: seq<Id>, populatedTargetGroups: Option<seq<Id>>)

  /** The returned dictionary: load-balancer entries in insertion order and
      the `total_monthly_cost` key. */
  datatype ScanResult = ScanResult(order: seq<Id>, entries: map<Id, LbSummary>, totalMonthlyCost: real)

  /** PricingFailed: `get_lb_hourly_costs` raised. PriceMissing: the price
      lookup for the load balancer's Type and the region raised (KeyError or
      IndexError). */
  datatype ScanError = PricingFailed | PriceMissing(lbArn: Id)

  /** The `lbs` dictionary while it is being built. */
  datatype Entries = Entries(order: seq<Id>, byArn: map<Id, LbSummary>)

  predicate Valid(acc: Entries) {
    Distinct(acc.order) && (forall k | k in acc.order :: k in acc.byArn) && (forall k | k in acc.byArn :: k in acc.order)
  }

  /** The monthly cost of a load balancer, None where the lookup raises;
      `prices` is None under omit_pricing. */
  function MonthlyCost(prices: Option<Pricing.PriceTable>, lbType: string, region: string): Option<real> {
    match prices
    case None => Some(0.0)
    case Some(t) =>
      if lbType in t && region in t[lbType] && |t[lbType][region]| > 0 then Some(t[lbType][region][0] * HOURS_PER_MONTH)
      else None
  }

  /** ARNs of the target groups without health descriptions, in order. */
  function EmptyGroups(tgs: seq<(Id, nat)>): seq<Id> {
    if tgs == [] then []
    else EmptyGroups(tgs[..|tgs| - 1]) + (if tgs[|tgs| - 1].1 == 0 then [tgs[|tgs| - 1].0] else [])
  }

  /** ARNs of the target groups with health descriptions, in order. */
  function PopulatedGroups(tgs: seq<(Id, nat)>): seq<Id> {
    if tgs == [] then []
    else PopulatedGroups(tgs[..|tgs| - 1]) + (if tgs[|tgs| - 1].1 != 0 then [tgs[|tgs| - 1].0] else [])
  }

  /** The first inner loop after the given empty groups: create the entry,
      or extend its `empty_target_groups`. */
  function AddEmpty(acc: Entries, arn: Id, cost: real, empty: seq<Id>): Entries {
    if empty == [] then acc
    else if arn in acc.byArn then
      Entries(acc.order, acc.byArn[arn := acc.byArn[arn].(emptyTargetGroups := acc.byArn[arn].emptyTargetGroups + empty)])
    else Entries(acc.order + [arn], acc.byArn[arn := LbSummary(cost, empty, None)])
  }

  /** The second inner loop after the given populated groups, run only for a
      load balancer that has an entry. */
  function AddPopulated(acc: Entries, arn: Id, populated: seq<Id>): Entries {
    if arn !in acc.byArn || populated == [] then acc
    else
      var s := acc.byArn[arn];
      Entries(acc.order, acc.byArn[arn := s.(populatedTargetGroups := Some(s.populatedTargetGroups.GetOr([]) + populated))])
  }

  /** One pass of the outer loop. */
  function Absorb(acc: Entries, lb: LoadBalancerReport, cost: real): Entries {
    var tgs := Dicts.FromPairs(lb.targetGroups);
    AddPopulated(AddEmpty(acc, lb.arn, cost, EmptyGroups(tgs)), lb.arn, PopulatedGroups(tgs))
  }

  /** The `lbs` dictionary after the given load balancers, or the error the
      first failing price lookup raises. */
  function Aggregate(prices: Option<Pricing.PriceTable>, region: string, lbs: seq<LoadBalancerReport>): (r: Result<Entries, ScanError>)
    ensures r.Ok? ==> Valid(r.value)
  {
    if lbs == [] then Ok(Entries([], map[]))
    else
      match Aggregate(prices, region, lbs[..|lbs| - 1])
      case Err(e) => Err(e)
      case Ok(acc) =>
        var lb := lbs[|lbs| - 1];
        match MonthlyCost(prices, lb.lbType, region)
        case None => Err(PriceMissing(lb.arn))
        case Some(c) => AbsorbValid(acc, lb, c); Ok(Absorb(acc, lb, c))
  }

  /** Every pass of the outer loop keeps the dictionary's insertion order
      and its keys in step. */
  lemma AbsorbValid(acc: Entries, lb: LoadBalancerReport, cost: real)
    requires Valid(acc)
    ensures Valid(Absorb(acc, lb, cost))
  {
    var tgs := Dicts.FromPairs(lb.targetGroups);
    var e := AddEmpty(acc, lb.arn, cost, EmptyGroups(tgs));
    AddEmptyValid(acc, lb.arn, cost, EmptyGroups(tgs));
    assert Valid(AddPopulated(e, lb.arn, PopulatedGroups(tgs)));
  }

  lemma AddEmptyValid(acc: Entries, arn: Id, cost: real, empty: seq<Id>)
    requires Valid(acc)
    ensures Valid(AddEmpty(acc, arn, cost, empty))
  {
    if empty != [] && arn !in acc.byArn {
      var order := acc.order + [arn];
      forall i, j | 0 <= i < j < |order| ensures order[i] != order[j] {
        if j == |acc.order| {
          assert order[i] == acc.order[i];
        } else {
          assert order[i] == acc.order[i] && order[j] == acc.order[j];
        }
      }
    }
  }

  /** `sum([lbs[lb]["monthly_cost"] for lb in lbs])` */
  function TotalCost(order: seq<Id>, byArn: map<Id, LbSummary>): real
    requires forall k | k in order :: k in byArn
  {
    if order == [] then 0.0
    else TotalCost(order[..|order| - 1], byArn) + byArn[order[|order| - 1]].monthlyCost
  }

  /** The scan once the price table (or its omission) is known. */
  function ScanLbs(prices: Option<Pricing.PriceTable>, region: string, lbs: seq<LoadBalancerReport>): Result<ScanResult, ScanError> {
    if lbs == [] then Ok(ScanResult([], map[], 0.0))
    else
      match Aggregate(prices, region, lbs)
      case Err(e) => Err(e)
      case Ok(acc) => Ok(ScanResult(acc.order, acc.byArn, TotalCost(acc.order, acc.byArn)))
  }

  /** The whole scan: the price table is fetched first unless omitted. */
  function ScanWithPricing(region: string, omitPricing: bool, network: seq<Pricing.PriceItem>,
                           application: seq<Pricing.PriceItem>, lbs: seq<LoadBalancerReport>): Result<ScanResult, ScanError> {
    if omitPricing then ScanLbs(None, region, lbs)
    else
      match Pricing.HourlyCosts(network, application)
      case Err(_) => Err(PricingFailed)
      case Ok(t) => ScanLbs(Some(t), region, lbs)
  }

  lemma {:induction false} AggregateErrPersists(prices: Option<Pricing.PriceTable>, region: string,
                                                a: seq<LoadBalancerReport>, b: seq<LoadBalancerReport>)
    requires Aggregate(prices, region, a).Err?
    ensures Aggregate(prices, region, a + b) == Aggregate(prices, region, a)
  {
    if b == [] {
      assert a + b == a;
    } else {
      assert (a + b)[..|a + b| - 1] == a + b[..|b| - 1];
      AggregateErrPersists(prices, region, a, b[..|b| - 1]);
    }
  }

  /** One more empty group extends the entry the first inner loop has built. */
  lemma AddEmptyStep(acc: Entries, arn: Id, cost: real, empty: seq<Id>, tg: Id)
    ensures AddEmpty(acc, arn, cost, empty + [tg]) ==
      var cur := AddEmpty(acc, arn, cost, empty);
      if arn in cur.byArn then
        Entries(cur.order, cur.byArn[arn := cur.byArn[arn].(emptyTargetGroups := cur.byArn[arn].emptyTargetGroups + [tg])])
      else Entries(cur.order + [arn], cur.byArn[arn := LbSummary(cost, [tg], None)])
  {
    if empty == [] {
      assert empty + [tg] == [tg];
    } else if arn in acc.byArn {
      assert acc.byArn[arn].emptyTargetGroups + (empty + [tg]) == acc.byArn[arn].emptyTargetGroups + empty + [tg];
    }
  }

  /** One more populated group extends the entry the second inner loop has built. */
  lemma AddPopulatedStep(acc: Entries, arn: Id, populated: seq<Id>, tg: Id)
    requires arn in acc.byArn
    ensures AddPopulated(acc, arn, populated + [tg]) ==
      var cur := AddPopulated(acc, arn, populated);
      var s := cur.byArn[arn];
      Entries(cur.order, cur.byArn[arn := s.(populatedTargetGroups := Some(s.populatedTargetGroups.GetOr([]) + [tg]))])
  {
    if populated == [] {
      assert populated + [tg] == [tg];
    } else {
      var g := acc.byArn[arn].populatedTargetGroups.GetOr([]);
      assert g + (populated + [tg]) == g + populated + [tg];
    }
  }

  /** The first inner loop of `scan_for_lbs_no_targets`: each target group
      without health descriptions creates the load balancer's entry (with its
      monthly cost) or is appended to its `empty_target_groups`. */
  method RecordEmptyGroups(order0: seq<Id>, lbs0: map<Id, LbSummary>, lbArn: Id, lbCostValue: real,
                           lbTargetGroups: seq<(Id, nat)>)
    returns (order: seq<Id>, lbs: map<Id, LbSummary>)
    ensures Entries(order, lbs) == AddEmpty(Entries(order0, lbs0), lbArn, lbCostValue, EmptyGroups(lbTargetGroups))
  {
    order, lbs := order0, lbs0;
    for j := 0 to |lbTargetGroups|
      invariant Entries(order, lbs) == AddEmpty(Entries(order0, lbs0), lbArn, lbCostValue, EmptyGroups(lbTargetGroups[..j]))
    {
      assert lbTargetGroups[..j + 1][..j] == lbTargetGroups[..j];
      var tgArn := lbTargetGroups[j].0;
      assert EmptyGroups(lbTargetGroups[..j + 1]) ==
        EmptyGroups(lbTargetGroups[..j]) + (if lbTargetGroups[j].1 == 0 then [tgArn] else []);
      AddEmptyStep(Entries(order0, lbs0), lbArn, lbCostValue, EmptyGroups(lbTargetGroups[..j]), tgArn);
      if lbTargetGroups[j].1 != 0 {
        assert EmptyGroups(lbTargetGroups[..j + 1]) == EmptyGroups(lbTargetGroups[..j]);
      }
      if lbTargetGroups[j].1 == 0 {
        assert EmptyGroups(lbTargetGroups[..j + 1]) == EmptyGroups(lbTargetGroups[..j]) + [tgArn];
        if lbArn !in lbs {
          order := order + [lbArn];
          lbs := lbs[lbArn := LbSummary(lbCostValue, [tgArn], None)];
        } else {
          lbs := lbs[lbArn := lbs[lbArn].(emptyTargetGroups := lbs[lbArn].emptyTargetGroups + [tgArn])];
        }
      }
    }
    assert lbTargetGroups[..|lbTargetGroups|] == lbTargetGroups;
  }

  /** The second inner loop, for a load balancer that has an entry: each
      target group with health descriptions is appended to its
      `populated_target_groups`, the key being created on first use. */
  method RecordPopulatedGroups(order: seq<Id>, lbs0: map<Id, LbSummary>, lbArn: Id, lbTargetGroups: seq<(Id, nat)>)
    returns (lbs: map<Id, LbSummary>)
    requires lbArn in lbs0
    ensures Entries(order, lbs) == AddPopulated(Entries(order, lbs0), lbArn, PopulatedGroups(lbTargetGroups))
  {
    lbs := lbs0;
    for j := 0 to |lbTargetGroups|
      invariant lbArn in lbs
      invariant Entries(order, lbs) == AddPopulated(Entries(order, lbs0), lbArn, PopulatedGroups(lbTargetGroups[..j]))
    {
      assert lbTargetGroups[..j + 1][..j] == lbTargetGroups[..j];
      var tgArn := lbTargetGroups[j].0;
      assert PopulatedGroups(lbTargetGroups[..j + 1]) ==
        PopulatedGroups(lbTargetGroups[..j]) + (if lbTargetGroups[j].1 != 0 then [tgArn] else []);
      AddPopulatedStep(Entries(order, lbs0), lbArn, PopulatedGroups(lbTargetGroups[..j]), tgArn);
      if lbTargetGroups[j].1 == 0 {
        assert PopulatedGroups(lbTargetGroups[..j + 1]) == PopulatedGroups(lbTargetGroups[..j]);
      }
      if lbTargetGroups[j].1 != 0 {
        assert PopulatedGroups(lbTargetGroups[..j + 1]) == PopulatedGroups(lbTargetGroups[..j]) + [tgArn];
        if lbs[lbArn].populatedTargetGroups.None? {
          assert lbs[lbArn].populatedTargetGroups.GetOr([]) + [tgArn] == [tgArn];
          lbs := lbs[lbArn := lbs[lbArn].(populatedTargetGroups := Some([tgArn]))];
        } else {
          lbs := lbs[lbArn := lbs[lbArn].(populatedTargetGroups := Some(lbs[lbArn].populatedTargetGroups.value + [tgArn]))];
        }
      }
    }
    assert lbTargetGroups[..|lbTargetGroups|] == lbTargetGroups;
  }

  /** The outer loop of `scan_for_lbs_no_targets` over describe_load_balancers,
      leaving the `lbs` dictionary, or the error of the first price lookup
      that raises. */
  method AggregateLoadBalancers(prices: Option<Pricing.PriceTable>, region: string, loadBalancers: seq<LoadBalancerReport>)
    returns (r: Result<Entries, ScanError>)
    ensures r == Aggregate(prices, region, loadBalancers)
  {
    var order: seq<Id> := [];
    var lbs: map<Id, LbSummary> := map[];
    for i := 0 to |loadBalancers|
      invariant Aggregate(prices, region, loadBalancers[..i]) == Ok(Entries(order, lbs))
    {
      var lb := loadBalancers[i];
      var lbArn := lb.arn;
      ghost var acc := Entries(order, lbs);
      var lbCostValue: real;
      if prices.Some? {
        var hourlyCosts := prices.value;
        if !(lb.lbType in hourlyCosts && region in hourlyCosts[lb.lbType] && |hourlyCosts[lb.lbType][region]| > 0) {
          AggregatePrefixErr(prices, region, loadBalancers, i);
          return Err(PriceMissing(lbArn));
        }
        lbCostValue := hourlyCosts[lb.lbType][region][0] * HOURS_PER_MONTH;
      } else {
        lbCostValue := 0.0;
      }
      AggregatePrefixStep(prices, region, loadBalancers, i, acc, lbCostValue);
      var lbTargetGroups := Dicts.FromPairs(lb.targetGroups);
      order, lbs := RecordEmptyGroups(order, lbs, lbArn, lbCostValue, lbTargetGroups);
      if lbArn in lbs {
        lbs := RecordPopulatedGroups(order, lbs, lbArn, lbTargetGroups);
      }
      assert Entries(order, lbs) == Absorb(acc, lb, lbCostValue);
    }
    assert loadBalancers[..|loadBalancers|] == loadBalancers;
    r := Ok(Entries(order, lbs));
  }

  /** The outer loop's specification, one load balancer further. */
  lemma AggregatePrefixStep(prices: Option<Pricing.PriceTable>, region: string, lbs: seq<LoadBalancerReport>, i: nat,
                            acc: Entries, cost: real)
    requires i < |lbs|
    requires Aggregate(prices, region, lbs[..i]) == Ok(acc)
    requires MonthlyCost(prices, lbs[i].lbType, region) == Some(cost)
    ensures Aggregate(prices, region, lbs[..i + 1]) == Ok(Absorb(acc, lbs[i], cost))
  {
    assert lbs[..i + 1][..i] == lbs[..i];
  }

  /** A failing price lookup ends the whole scan with its error. */
  lemma AggregatePrefixErr(prices: Option<Pricing.PriceTable>, region: string, lbs: seq<LoadBalancerReport>, i: nat)
    requires i < |lbs|
    requires Aggregate(prices, region, lbs[..i]).Ok?
    requires MonthlyCost(prices, lbs[i].lbType, region).None?
    ensures Aggregate(prices, region, lbs) == Err(PriceMissing(lbs[i].arn))
  {
    assert lbs[..i + 1][..i] == lbs[..i];
    assert lbs == lbs[..i + 1] + lbs[i + 1..];
    AggregateErrPersists(prices, region, lbs[..i + 1], lbs[i + 1..]);
  }

  /** `scan_for_lbs_no_targets`: fetch the price table unless omitted, stop
      at once when there is no load balancer, then fill the `lbs`
      dictionary load balancer by load balancer and target group by target
      group, and add the total. */
  method ScanForLbsNoTargets(region: string, omitPricing: bool, network: seq<Pricing.PriceItem>,
                             application: seq<Pricing.PriceItem>, loadBalancers: seq<LoadBalancerReport>)
    returns (r: Result<ScanResult, ScanError>)
    ensures r == ScanWithPricing(region, omitPricing, network, application, loadBalancers)
  {
    var prices: Option<Pricing.PriceTable> := None;
    if !omitPricing {
      var hourlyCosts := Pricing.GetLbHourlyCosts(network, application);
      if hourlyCosts.Err? {
        return Err(PricingFailed);
      }
      prices := Some(hourlyCosts.value);
    }
    if |loadBalancers| == 0 {
      return Ok(ScanResult([], map[], 0.0));
    }
    var entries := AggregateLoadBalancers(prices, region, loadBalancers);
    if entries.Err? {
      return Err(entries.error);
    }
    r := Ok(ScanResult(entries.value.order, entries.value.byArn, TotalCost(entries.value.order, entries.value.byArn)));
  }

  // Reference definitions of what the scan reports, per load balancer.

  /** A load balancer is reported when one of its target groups is empty. */
  predicate Included(lb: LoadBalancerReport) {
    EmptyGroups(Dicts.FromPairs(lb.targetGroups)) != []
  }

  /** What the scan records for a reported load balancer costing `cost`. */
  function Summary(lb: LoadBalancerReport, cost: real): LbSummary {
    var tgs := Dicts.FromPairs(lb.targetGroups);
    LbSummary(cost, EmptyGroups(tgs), if PopulatedGroups(tgs) == [] then None else Some(PopulatedGroups(tgs)))
  }

  /** describe_load_balancers lists each load balancer once. */
  predicate DistinctArns(lbs: seq<LoadBalancerReport>) {
    forall i, j | 0 <= i < j < |lbs| :: lbs[i].arn != lbs[j].arn
  }

  /** ARNs of the reported load balancers, in describe order. */
  function IncludedArns(lbs: seq<LoadBalancerReport>): seq<Id> {
    if lbs == [] then []
    else IncludedArns(lbs[..|lbs| - 1]) + (if Included(lbs[|lbs| - 1]) then [lbs[|lbs| - 1].arn] else [])
  }

  /** Monthly costs of the reported load balancers, in describe order. */
  function IncludedCosts(prices: Option<Pricing.PriceTable>, region: string, lbs: seq<LoadBalancerReport>): seq<real> {
    if lbs == [] then []
    else
      var lb := lbs[|lbs| - 1];
      IncludedCosts(prices, region, lbs[..|lbs| - 1]) + (if Included(lb) then [MonthlyCost(prices, lb.lbType, region).GetOr(0.0)] else [])
  }

  /** The two inner loops split a load balancer's target groups: every group
      is empty or populated, never both, and each list keeps the listing order. */
  lemma GroupsPartition(tgs: seq<(Id, nat)>)
    ensures |EmptyGroups(tgs)| + |PopulatedGroups(tgs)| == |tgs|
    ensures forall t :: t in EmptyGroups(tgs) <==> exists i | 0 <= i < |tgs| :: tgs[i] == (t, 0)
    ensures forall t :: t in PopulatedGroups(tgs) <==> exists i | 0 <= i < |tgs| :: tgs[i].0 == t && tgs[i].1 != 0
  {
    GroupsCount(tgs);
    GroupsSelect(tgs);
    forall t
      ensures t in EmptyGroups(tgs) <==> exists i | 0 <= i < |tgs| :: tgs[i] == (t, 0)
    {
      SelectMember(tgs, NoHealth, TgArn, t);
      if t in EmptyGroups(tgs) {
        var i :| 0 <= i < |tgs| && TgArn(tgs[i]) == t && NoHealth(tgs[i]);
        assert tgs[i] == (t, 0);
      }
    }
    forall t
      ensures t in PopulatedGroups(tgs) <==> exists i | 0 <= i < |tgs| :: tgs[i].0 == t && tgs[i].1 != 0
    {
      SelectMember(tgs, HasHealth, TgArn, t);
    }
  }

  function TgArn(tg: (Id, nat)): Id {
    tg.0
  }

  predicate NoHealth(tg: (Id, nat)) {
    tg.1 == 0
  }

  predicate HasHealth(tg: (Id, nat)) {
    tg.1 != 0
  }

  /** Both inner loops keep the groups of their kind in listing order. */
  lemma {:induction false} GroupsSelect(tgs: seq<(Id, nat)>)
    ensures EmptyGroups(tgs) == Select(tgs, NoHealth, TgArn)
    ensures PopulatedGroups(tgs) == Select(tgs, HasHealth, TgArn)
  {
    if tgs != [] {
      GroupsSelect(tgs[..|tgs| - 1]);
    }
  }

  /** Every target group lands in exactly one of the two lists. */
  lemma {:induction false} GroupsCount(tgs: seq<(Id, nat)>)
    ensures |EmptyGroups(tgs)| + |PopulatedGroups(tgs)| == |tgs|
  {
    if tgs != [] {
      GroupsCount(tgs[..|tgs| - 1]);
    }
  }

  /** Within the ARN-keyed dictionary of a load balancer's target groups, no
      group is listed both as empty and as populated. */
  lemma GroupsDisjoint(lb: LoadBalancerReport)
    ensures var tgs := Dicts.FromPairs(lb.targetGroups);
      forall t | t in EmptyGroups(tgs) :: t !in PopulatedGroups(tgs)
  {
    var tgs := Dicts.FromPairs(lb.targetGroups);
    Dicts.FromPairsKeys(lb.targetGroups);
    GroupsPartition(tgs);
    forall t | t in EmptyGroups(tgs)
      ensures t !in PopulatedGroups(tgs)
    {
      var i :| 0 <= i < |tgs| && tgs[i] == (t, 0);
      forall j | 0 <= j < |tgs| && tgs[j].0 == t
        ensures tgs[j].1 == 0
      {
        Dicts.KeysAt(tgs, i);
        Dicts.KeysAt(tgs, j);
        assert i == j;
      }
    }
  }

  /** The scan raises exactly when the price lookup of some load balancer
      fails, and then it names the first such load balancer: the lookup is
      made for every load balancer, reported or not. */
  lemma {:induction false} AggregateErrIff(prices: Option<Pricing.PriceTable>, region: string, lbs: seq<LoadBalancerReport>)
    ensures Aggregate(prices, region, lbs).Err? <==>
      exists i | 0 <= i < |lbs| :: MonthlyCost(prices, lbs[i].lbType, region).None?
    ensures Aggregate(prices, region, lbs).Err? ==>
      exists i | 0 <= i < |lbs| :: MonthlyCost(prices, lbs[i].lbType, region).None? &&
        (forall j | 0 <= j < i :: MonthlyCost(prices, lbs[j].lbType, region).Some?) &&
        Aggregate(prices, region, lbs).error == PriceMissing(lbs[i].arn)
  {
    if lbs != [] {
      var p, x := lbs[..|lbs| - 1], lbs[|lbs| - 1];
      AggregateErrIff(prices, region, p);
      if Aggregate(prices, region, p).Err? {
        var i :| 0 <= i < |p| && MonthlyCost(prices, p[i].lbType, region).None? &&
          (forall j | 0 <= j < i :: MonthlyCost(prices, p[j].lbType, region).Some?) &&
          Aggregate(prices, region, p).error == PriceMissing(p[i].arn);
        assert lbs[i] == p[i];
        assert forall j | 0 <= j < i :: lbs[j] == p[j];
      } else if MonthlyCost(prices, x.lbType, region).None? {
        assert forall j | 0 <= j < |p| :: lbs[j] == p[j];
      } else {
        forall i | 0 <= i < |lbs|
          ensures MonthlyCost(prices, lbs[i].lbType, region).Some?
        {
          if i < |p| {
            assert lbs[i] == p[i];
          }
        }
      }
    }
  }

  function ArnOf(lb: LoadBalancerReport): Id {
    lb.arn
  }

  lemma {:induction false} IncludedArnsSelect(lbs: seq<LoadBalancerReport>)
    ensures IncludedArns(lbs) == Select(lbs, Included, ArnOf)
  {
    if lbs != [] {
      IncludedArnsSelect(lbs[..|lbs| - 1]);
    }
  }

  lemma IncludedArnsMember(lbs: seq<LoadBalancerReport>, a: Id)
    ensures a in IncludedArns(lbs) <==> exists i | 0 <= i < |lbs| :: lbs[i].arn == a && Included(lbs[i])
  {
    IncludedArnsSelect(lbs);
    SelectMember(lbs, Included, ArnOf, a);
  }

  /** One pass of the outer loop for a load balancer not yet in the dictionary
      adds its summary at the end when it is reported, and nothing otherwise. */
  lemma AbsorbFresh(acc: Entries, lb: LoadBalancerReport, cost: real)
    requires lb.arn !in acc.byArn
    ensures Absorb(acc, lb, cost) ==
      if Included(lb) then Entries(acc.order + [lb.arn], acc.byArn[lb.arn := Summary(lb, cost)]) else acc
  {
    var q := PopulatedGroups(Dicts.FromPairs(lb.targetGroups));
    assert [] + q == q;
  }

  /** With the ARNs distinct (as describe_load_balancers lists them), the
      `lbs` dictionary holds exactly the reported load balancers, in describe
      order: a load balancer is a key iff one of its target groups is empty;
      then it records its monthly cost, exactly its empty groups in order, and
      a `populated_target_groups` key iff it has a group with targets,
      listing exactly those in order. */
  lemma {:induction false} AggregateEntries(prices: Option<Pricing.PriceTable>, region: string, lbs: seq<LoadBalancerReport>)
    requires DistinctArns(lbs)
    requires Aggregate(prices, region, lbs).Ok?
    ensures var acc := Aggregate(prices, region, lbs).value;
      && acc.order == IncludedArns(lbs)
      && (forall a :: a in acc.byArn <==> a in IncludedArns(lbs))
      && (forall i | 0 <= i < |lbs| :: lbs[i].arn in acc.byArn <==> Included(lbs[i]))
      && (forall i | 0 <= i < |lbs| && Included(lbs[i]) ::
            acc.byArn[lbs[i].arn] == Summary(lbs[i], MonthlyCost(prices, lbs[i].lbType, region).GetOr(0.0)))
  {
    AggregateOrder(prices, region, lbs);
    forall i | 0 <= i < |lbs|
      ensures var acc := Aggregate(prices, region, lbs).value;
        && (lbs[i].arn in acc.byArn <==> Included(lbs[i]))
        && (Included(lbs[i]) ==> acc.byArn[lbs[i].arn] == Summary(lbs[i], MonthlyCost(prices, lbs[i].lbType, region).GetOr(0.0)))
    {
      AggregateLookup(prices, region, lbs, i);
    }
  }

  lemma {:induction false} AggregateOrder(prices: Option<Pricing.PriceTable>, region: string, lbs: seq<LoadBalancerReport>)
    requires DistinctArns(lbs)
    requires Aggregate(prices, region, lbs).Ok?
    ensures Aggregate(prices, region, lbs).value.order == IncludedArns(lbs)
  {
    if lbs != [] {
      AggregateFresh(prices, region, lbs);
      AggregateOrder(prices, region, lbs[..|lbs| - 1]);
    }
  }

  /** One pass of the outer loop over a distinct-ARN scan, spelled out: the
      last load balancer is appended with its summary when it is reported. */
  lemma AggregateFresh(prices: Option<Pricing.PriceTable>, region: string, lbs: seq<LoadBalancerReport>)
    requires lbs != [] && DistinctArns(lbs)
    requires Aggregate(prices, region, lbs).Ok?
    ensures DistinctArns(lbs[..|lbs| - 1])
    ensures Aggregate(prices, region, lbs[..|lbs| - 1]).Ok?
    ensures var acc, x := Aggregate(prices, region, lbs[..|lbs| - 1]).value, lbs[|lbs| - 1];
      && x.arn !in acc.byArn
      && Aggregate(prices, region, lbs).value ==
           if Included(x) then Entries(acc.order + [x.arn], acc.byArn[x.arn := Summary(x, MonthlyCost(prices, x.lbType, region).GetOr(0.0))])
           else acc
  {
    var p, x := lbs[..|lbs| - 1], lbs[|lbs| - 1];
    assert forall i | 0 <= i < |p| :: lbs[i] == p[i];
    assert DistinctArns(p);
    var acc := Aggregate(prices, region, p).value;
    FreshArn(prices, region, lbs);
    AbsorbFresh(acc, x, MonthlyCost(prices, x.lbType, region).value);
  }

  /** The last load balancer of a distinct-ARN scan is new to the dictionary
      the earlier ones built. */
  lemma FreshArn(prices: Option<Pricing.PriceTable>, region: string, lbs: seq<LoadBalancerReport>)
    requires lbs != [] && DistinctArns(lbs)
    requires Aggregate(prices, region, lbs[..|lbs| - 1]).Ok?
    ensures lbs[|lbs| - 1].arn !in Aggregate(prices, region, lbs[..|lbs| - 1]).value.byArn
  {
    var p, x := lbs[..|lbs| - 1], lbs[|lbs| - 1];
    var acc := Aggregate(prices, region, p).value;
    forall i | 0 <= i < |p| ensures p[i].arn != x.arn {
      assert lbs[i] == p[i];
    }
    AggregateKeys(prices, region, p, x.arn);
  }

  /** Every key of the dictionary is the ARN of a scanned load balancer. */
  lemma {:induction false} AggregateKeys(prices: Option<Pricing.PriceTable>, region: string, lbs: seq<LoadBalancerReport>, a: Id)
    requires Aggregate(prices, region, lbs).Ok?
    ensures a in Aggregate(prices, region, lbs).value.byArn ==> exists i | 0 <= i < |lbs| :: lbs[i].arn == a
  {
    if lbs != [] {
      var p, lb := lbs[..|lbs| - 1], lbs[|lbs| - 1];
      var acc := Aggregate(prices, region, p).value;
      var c := MonthlyCost(prices, lb.lbType, region).value;
      assert Aggregate(prices, region, lbs).value == Absorb(acc, lb, c);
      AbsorbKeys(acc, lb, c);
      AggregateKeys(prices, region, p, a);
      if a in acc.byArn {
        var i :| 0 <= i < |p| && p[i].arn == a;
        assert lbs[i] == p[i];
      }
    }
  }

  /** One pass of the outer loop adds no key but its load balancer's ARN. */
  lemma AbsorbKeys(acc: Entries, lb: LoadBalancerReport, cost: real)
    ensures Absorb(acc, lb, cost).byArn.Keys <= acc.byArn.Keys + {lb.arn}
  {
  }

  lemma AggregateLookup(prices: Option<Pricing.PriceTable>, region: string, lbs: seq<LoadBalancerReport>, i: nat)
    requires DistinctArns(lbs)
    requires Aggregate(prices, region, lbs).Ok?
    requires i < |lbs|
    ensures var acc := Aggregate(prices, region, lbs).value;
      && (lbs[i].arn in acc.byArn <==> Included(lbs[i]))
      && (Included(lbs[i]) ==> acc.byArn[lbs[i].arn] == Summary(lbs[i], MonthlyCost(prices, lbs[i].lbType, region).GetOr(0.0)))
  {
    AggregateRecords(prices, region, lbs, i, lbs[i], MonthlyCost(prices, lbs[i].lbType, region).GetOr(0.0));
  }

  /** The induction behind AggregateLookup, with the load balancer and its
      cost named. */
  lemma {:induction false} AggregateRecords(prices: Option<Pricing.PriceTable>, region: string, lbs: seq<LoadBalancerReport>,
                                            i: nat, y: LoadBalancerReport, cy: real)
    requires DistinctArns(lbs)
    requires Aggregate(prices, region, lbs).Ok?
    requires i < |lbs| && lbs[i] == y && cy == MonthlyCost(prices, y.lbType, region).GetOr(0.0)
    ensures y.arn in Aggregate(prices, region, lbs).value.byArn <==> Included(y)
    ensures Included(y) ==> Aggregate(prices, region, lbs).value.byArn[y.arn] == Summary(y, cy)
  {
    var p, x := lbs[..|lbs| - 1], lbs[|lbs| - 1];
    AggregateFresh(prices, region, lbs);
    var acc, r := Aggregate(prices, region, p).value, Aggregate(prices, region, lbs).value;
    var cx := MonthlyCost(prices, x.lbType, region).GetOr(0.0);
    if i < |p| {
      assert p[i] == y;
      AggregateRecords(prices, region, p, i, y, cy);
      assert y.arn != x.arn;
      RecordKept(acc, r, x, cx, y, cy);
    } else {
      RecordNew(acc, r, x, cx);
    }
  }

  /** A reported load balancer `y` keeps its summary when a different one is
      absorbed. */
  lemma RecordKept(acc: Entries, r: Entries, x: LoadBalancerReport, cx: real, y: LoadBalancerReport, cy: real)
    requires r == if Included(x) then Entries(acc.order + [x.arn], acc.byArn[x.arn := Summary(x, cx)]) else acc
    requires y.arn != x.arn
    requires y.arn in acc.byArn <==> Included(y)
    requires Included(y) ==> acc.byArn[y.arn] == Summary(y, cy)
    ensures y.arn in r.byArn <==> Included(y)
    ensures Included(y) ==> r.byArn[y.arn] == Summary(y, cy)
  {
  }

  /** The absorbed load balancer is a key exactly when it is reported. */
  lemma RecordNew(acc: Entries, r: Entries, x: LoadBalancerReport, cx: real)
    requires x.arn !in acc.byArn
    requires r == if Included(x) then Entries(acc.order + [x.arn], acc.byArn[x.arn := Summary(x, cx)]) else acc
    ensures x.arn in r.byArn <==> Included(x)
    ensures Included(x) ==> r.byArn[x.arn] == Summary(x, cx)
  {
  }

  lemma {:induction false} IncludedArnsIn(prices: Option<Pricing.PriceTable>, region: string,
                                          lbs: seq<LoadBalancerReport>, m: map<Id, LbSummary>)
    requires forall i | 0 <= i < |lbs| && Included(lbs[i]) :: lbs[i].arn in m
    ensures forall k | k in IncludedArns(lbs) :: k in m
  {
    forall k | k in IncludedArns(lbs) ensures k in m {
      IncludedArnsMember(lbs, k);
    }
  }

  lemma {:induction false} TotalCostOfIncluded(prices: Option<Pricing.PriceTable>, region: string,
                                               lbs: seq<LoadBalancerReport>, m: map<Id, LbSummary>)
    requires forall i | 0 <= i < |lbs| && Included(lbs[i]) ::
      lbs[i].arn in m && m[lbs[i].arn].monthlyCost == MonthlyCost(prices, lbs[i].lbType, region).GetOr(0.0)
    ensures forall k | k in IncludedArns(lbs) :: k in m
    ensures TotalCost(IncludedArns(lbs), m) == Sum(IncludedCosts(prices, region, lbs))
  {
    IncludedArnsIn(prices, region, lbs, m);
    if lbs != [] {
      var p, x := lbs[..|lbs| - 1], lbs[|lbs| - 1];
      assert forall i | 0 <= i < |p| :: p[i] == lbs[i];
      TotalCostOfIncluded(prices, region, p, m);
      var o := IncludedArns(lbs);
      if Included(x) {
        assert o == IncludedArns(p) + [x.arn];
        assert o[..|o| - 1] == IncludedArns(p);
        assert TotalCost(o, m) == TotalCost(IncludedArns(p), m) + m[x.arn].monthlyCost;
        var cs := IncludedCosts(prices, region, lbs);
        assert cs == IncludedCosts(prices, region, p) + [MonthlyCost(prices, x.lbType, region).GetOr(0.0)];
        assert cs[..|cs| - 1] == IncludedCosts(prices, region, p);
      } else {
        assert o == IncludedArns(p);
        assert IncludedCosts(prices, region, lbs) == IncludedCosts(prices, region, p);
      }
    }
  }

  /** `total_monthly_cost` is the sum of the monthly costs of the reported
      load balancers, one term per load balancer however many empty groups
      it has. */
  lemma TotalIsSumOfIncluded(prices: Option<Pricing.PriceTable>, region: string, lbs: seq<LoadBalancerReport>)
    requires DistinctArns(lbs)
    ensures ScanLbs(prices, region, lbs).Ok? ==>
      ScanLbs(prices, region, lbs).value.totalMonthlyCost == Sum(IncludedCosts(prices, region, lbs))
  {
    if lbs != [] && Aggregate(prices, region, lbs).Ok? {
      AggregateEntries(prices, region, lbs);
      var acc := Aggregate(prices, region, lbs).value;
      TotalCostOfIncluded(prices, region, lbs, acc.byArn);
    }
  }

  /** Without pricing the scan never raises, every monthly cost is 0 and so
      is the total. */
  lemma {:induction false} OmitPricingZero(region: string, lbs: seq<LoadBalancerReport>)
    ensures Aggregate(None, region, lbs).Ok?
    ensures forall k | k in Aggregate(None, region, lbs).value.byArn :: Aggregate(None, region, lbs).value.byArn[k].monthlyCost == 0.0
    ensures ScanLbs(None, region, lbs).Ok? && ScanLbs(None, region, lbs).value.totalMonthlyCost == 0.0
  {
    if lbs != [] {
      var p, x := lbs[..|lbs| - 1], lbs[|lbs| - 1];
      OmitPricingZero(region, p);
      var prev := Aggregate(None, region, p).value;
      AbsorbCosts(prev, x, 0.0);
      var acc := Aggregate(None, region, lbs).value;
      assert acc == Absorb(prev, x, 0.0);
      TotalCostZero(acc.order, acc.byArn);
    }
  }

  /** A pass of the outer loop keeps the cost of every entry and gives a new
      entry the load balancer's cost. */
  lemma AbsorbCosts(acc: Entries, lb: LoadBalancerReport, cost: real)
    ensures var r := Absorb(acc, lb, cost);
      forall k | k in r.byArn :: (k in acc.byArn && r.byArn[k].monthlyCost == acc.byArn[k].monthlyCost) || r.byArn[k].monthlyCost == cost
  {
    var tgs := Dicts.FromPairs(lb.targetGroups);
    AddCosts(acc, lb.arn, cost, EmptyGroups(tgs), PopulatedGroups(tgs));
  }

  lemma AddCosts(acc: Entries, arn: Id, cost: real, empty: seq<Id>, populated: seq<Id>)
    ensures var r := AddPopulated(AddEmpty(acc, arn, cost, empty), arn, populated);
      forall k | k in r.byArn :: (k in acc.byArn && r.byArn[k].monthlyCost == acc.byArn[k].monthlyCost) || r.byArn[k].monthlyCost == cost
  {
  }

  lemma {:induction false} TotalCostZero(order: seq<Id>, m: map<Id, LbSummary>)
    requires forall k | k in order :: k in m && m[k].monthlyCost == 0.0
    ensures TotalCost(order, m) == 0.0
  {
    if order != [] {
      TotalCostZero(order[..|order| - 1], m);
    }
  }

  /** The monthly cost of a network or application load balancer is 730
      times the first pricePerUnit value of the first hourly catalog item of
      its class and region; any other Type, or a region without an hourly
      item, makes the lookup raise. */
  lemma MonthlyCostFromCatalog(network: seq<Pricing.PriceItem>, application: seq<Pricing.PriceItem>,
                               lbType: string, region: string)
    requires Pricing.HourlyCosts(network, application).Ok?
    ensures var t := Pricing.HourlyCosts(network, application).value;
      var first := if lbType == Pricing.NETWORK then Pricing.FirstHourlyPrice(network, region)
                   else if lbType == Pricing.APPLICATION then Pricing.FirstHourlyPrice(application, region)
                   else None;
      MonthlyCost(Some(t), lbType, region) ==
        if first.Some? && |first.value| > 0 then Some(first.value[0] * HOURS_PER_MONTH) else None
  {
    Pricing.ClassTableFirstWins(network, region);
    Pricing.ClassTableFirstWins(application, region);
  }

  /** The load balancer of the integration test: one target group without
      targets, scanned with pricing omitted, is reported with cost 0. */
  lemma SingleEmptyGroupReported(region: string, lbArn: Id, lbType: string, tgArn: Id)
    ensures ScanWithPricing(region, true, [], [], [LoadBalancerReport(lbArn, lbType, [(tgArn, 0)])]) ==
      Ok(ScanResult([lbArn], map[lbArn := LbSummary(0.0, [tgArn], None)], 0.0))
  {
    var lb := LoadBalancerReport(lbArn, lbType, [(tgArn, 0)]);
    var tgs: seq<(Id, nat)> := [(tgArn, 0)];
    assert lb.targetGroups[..0] == [];
    assert Dicts.FromPairs(lb.targetGroups) == tgs;
    assert tgs[..0] == [];
    assert EmptyGroups(tgs) == [tgArn];
    assert PopulatedGroups(tgs) == [];
    var m := map[lbArn := LbSummary(0.0, [tgArn], None)];
    AbsorbFresh(Entries([], map[]), lb, 0.0);
    assert [] + [lbArn] == [lbArn];
    assert [lb][..0] == [];
    assert Aggregate(None, region, [lb]) == Ok(Entries([lbArn], m));
    assert [lbArn][..0] == [];
    assert TotalCost([lbArn], m) == 0.0;
  }

  /** Once the price table (or its omission) is known, the scan fails iff
      some load balancer's price lookup fails; otherwise it reports exactly
      the load balancers with an empty target group, in describe order, each
      with its summary, and the sum of their monthly costs. */
  lemma ScanLbsReport(prices: Option<Pricing.PriceTable>, region: string, lbs: seq<LoadBalancerReport>)
    requires DistinctArns(lbs)
    ensures var r := ScanLbs(prices, region, lbs);
      && (r.Err? <==> exists i | 0 <= i < |lbs| :: MonthlyCost(prices, lbs[i].lbType, region).None?)
      && (r.Ok? ==>
            && r.value.order == IncludedArns(lbs)
            && (forall a :: a in r.value.entries <==> a in IncludedArns(lbs))
            && (forall i | 0 <= i < |lbs| :: lbs[i].arn in r.value.entries <==> Included(lbs[i]))
            && (forall i | 0 <= i < |lbs| && Included(lbs[i]) ::
                  r.value.entries[lbs[i].arn] == Summary(lbs[i], MonthlyCost(prices, lbs[i].lbType, region).GetOr(0.0)))
            && r.value.totalMonthlyCost == Sum(IncludedCosts(prices, region, lbs)))
  {
    AggregateErrIff(prices, region, lbs);
    TotalIsSumOfIncluded(prices, region, lbs);
    if lbs != [] && Aggregate(prices, region, lbs).Ok? {
      AggregateEntries(prices, region, lbs);
    }
  }

  /** When no load balancer has an empty target group (none at all, or all
      with targets), the result is the bare total 0. */
  lemma NoneQualifies(prices: Option<Pricing.PriceTable>, region: string, lbs: seq<LoadBalancerReport>)
    requires DistinctArns(lbs)
    requires forall i | 0 <= i < |lbs| :: !Included(lbs[i])
    ensures ScanLbs(prices, region, lbs).Ok? ==> ScanLbs(prices, region, lbs).value == ScanResult([], map[], 0.0)
  {
    if lbs != [] && Aggregate(prices, region, lbs).Ok? {
      AggregateEntries(prices, region, lbs);
      TotalIsSumOfIncluded(prices, region, lbs);
      var acc := Aggregate(prices, region, lbs).value;
      forall a ensures a !in IncludedArns(lbs) {
        IncludedArnsMember(lbs, a);
      }
      assert acc.order == [];
      assert acc.byArn == map[];
      NoCostsWithoutIncluded(prices, region, lbs);
    }
  }

  /** With pricing, a malformed catalog makes the scan fail before any load
      balancer is looked at, even when there is none. */
  lemma PricingFetchedFirst(region: string, network: seq<Pricing.PriceItem>,
                            application: seq<Pricing.PriceItem>, lbs: seq<LoadBalancerReport>)
    ensures ScanWithPricing(region, false, network, application, lbs) == Err(PricingFailed) <==>
      (exists i | 0 <= i < |network| :: !Pricing.WellFormed(network[i])) ||
      (exists i | 0 <= i < |application| :: !Pricing.WellFormed(application[i]))
  {
    if Pricing.HourlyCosts(network, application).Ok? {
      AggregateErrIff(Some(Pricing.HourlyCosts(network, application).value), region, lbs);
    }
  }

  lemma {:induction false} NoCostsWithoutIncluded(prices: Option<Pricing.PriceTable>, region: string, lbs: seq<LoadBalancerReport>)
    requires forall i | 0 <= i < |lbs| :: !Included(lbs[i])
    ensures IncludedCosts(prices, region, lbs) == []
  {
    if lbs != [] {
      var p := lbs[..|lbs| - 1];
      assert forall i | 0 <= i < |p| :: p[i] == lbs[i];
      NoCostsWithoutIncluded(prices, region, p);
    }
  }
}
