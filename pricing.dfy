/** The price-table builder `get_lb_hourly_costs`: the hourly unit price of
    each load-balancer class (network, application) per region, taken from
    the price-list products the pricing catalog returns for the product
    families "Load Balancer-Network" and "Load Balancer-Application".
    Products arrive already parsed; each is reduced to what the builder reads. */
module Pricing {
  import opened Common

  /** One price dimension: its billing unit and the values of its
      pricePerUnit dictionary (currency to amount) in listing order. */
  datatype PriceDimension = PriceDimension(unit: string, pricePerUnit: seq<real>)

  /** One OnDemand term: its price dimensions in listing order. */
  datatype OnDemandTerm = OnDemandTerm(priceDimensions: seq<PriceDimension>)

  /** One price-list product: the regionCode attribute and the OnDemand terms
      in listing order. */
  datatype PriceItem = PriceItem(regionCode: string, onDemand: seq<OnDemandTerm>)

  /** Region to pricePerUnit values, for one load-balancer class. */
  type RegionPrices = map<string, seq<real>>

  /** Load-balancer class ("network", "application") to its region prices. */
  type PriceTable = map<string, RegionPrices>

  /** Indexing the first key of an empty OnDemand or priceDimensions
      dictionary raises. */
  datatype PricingError = MissingPriceTerm

  const NETWORK: string := "network"
  const APPLICATION: string := "application"
  const HOURLY_UNIT: string := "Hrs"

  /** The only dimension the builder looks at: the first price dimension of
      the first OnDemand term, None where one of the two lists is empty. */
  function Examined(item: PriceItem): Option<PriceDimension> {
    if |item.onDemand| == 0 || |item.onDemand[0].priceDimensions| == 0 then None
    else Some(item.onDemand[0].priceDimensions[0])
  }

  predicate WellFormed(item: PriceItem) {
    Examined(item).Some?
  }

  predicate AllWellFormed(items: seq<PriceItem>) {
    forall i | 0 <= i < |items| :: WellFormed(items[i])
  }

  /** An item billed per hour; items billed per GB and the like are skipped. */
  predicate Hourly(item: PriceItem) {
    Examined(item).Some? && Examined(item).value.unit == HOURLY_UNIT
  }

  /** One pass of the inner loop: an hourly item records its price unless its
      region already has one. */
  function Absorb(t: RegionPrices, item: PriceItem): RegionPrices {
    if Hourly(item) && item.regionCode !in t then t[item.regionCode := Examined(item).value.pricePerUnit]
    else t
  }

  /** The region table the inner loop has built after the given items. */
  function ClassTable(items: seq<PriceItem>): RegionPrices {
    if items == [] then map[] else Absorb(ClassTable(items[..|items| - 1]), items[|items| - 1])
  }

  /** Reference definition: the pricePerUnit of the first hourly item of the
      region, if there is one. */
  function FirstHourlyPrice(items: seq<PriceItem>, region: string): Option<seq<real>> {
    if items == [] then None
    else if Hourly(items[0]) && items[0].regionCode == region then Some(Examined(items[0]).value.pricePerUnit)
    else FirstHourlyPrice(items[1..], region)
  }

  /** What `get_lb_hourly_costs` returns or raises for the two responses. */
  function HourlyCosts(network: seq<PriceItem>, application: seq<PriceItem>): Result<PriceTable, PricingError> {
    if AllWellFormed(network) && AllWellFormed(application) then
      Ok(map[NETWORK := ClassTable(network), APPLICATION := ClassTable(application)])
    else Err(MissingPriceTerm)
  }

  /** `get_lb_hourly_costs`: the outer loop over the two responses; the
      inner loop, which writes only the response's own region table, is
      FillClassTable. */
  method GetLbHourlyCosts(network: seq<PriceItem>, application: seq<PriceItem>)
    returns (r: Result<PriceTable, PricingError>)
    ensures r == HourlyCosts(network, application)
  {
    var hourlyCosts: PriceTable := map[NETWORK := map[], APPLICATION := map[]];
    var responses: seq<(string, seq<PriceItem>)> := [(NETWORK, network), (APPLICATION, application)];
    assert responses[0].0 != responses[1].0 by {
      assert NETWORK[0] != APPLICATION[0];
    }
    for k := 0 to |responses|
      invariant hourlyCosts.Keys == {NETWORK, APPLICATION}
      invariant forall j | 0 <= j < k :: AllWellFormed(responses[j].1)
      invariant forall j | 0 <= j < k :: hourlyCosts[responses[j].0] == ClassTable(responses[j].1)
      invariant forall j | k <= j < |responses| :: hourlyCosts[responses[j].0] == map[]
    {
      var family, products := responses[k].0, responses[k].1;
      var filled := FillClassTable(hourlyCosts[family], products);
      if filled.Err? {
        assert products == network || products == application;
        return Err(MissingPriceTerm);
      }
      hourlyCosts := hourlyCosts[family := filled.value];
    }
    assert responses[0] == (NETWORK, network) && responses[1] == (APPLICATION, application);
    assert hourlyCosts == map[NETWORK := ClassTable(network), APPLICATION := ClassTable(application)];
    r := Ok(hourlyCosts);
  }

  /** The inner loop over one response's products, starting from the
      response's (empty) region table: it raises on the first item without
      an OnDemand term or price dimension, and otherwise fills the table
      first-wins. */
  method FillClassTable(table: RegionPrices, products: seq<PriceItem>)
    returns (r: Result<RegionPrices, PricingError>)
    requires table == map[]
    ensures r == if AllWellFormed(products) then Ok(ClassTable(products)) else Err(MissingPriceTerm)
  {
    var regions := table;
    for i := 0 to |products|
      invariant forall j | 0 <= j < i :: WellFormed(products[j])
      invariant regions == ClassTable(products[..i])
    {
      var data := products[i];
      if |data.onDemand| == 0 || |data.onDemand[0].priceDimensions| == 0 {
        assert !WellFormed(products[i]);
        return Err(MissingPriceTerm);
      }
      ClassTableStep(products, i);
      var dimension := data.onDemand[0].priceDimensions[0];
      if dimension.unit != HOURLY_UNIT {
        continue;
      }
      var region := data.regionCode;
      var ppu := dimension.pricePerUnit;
      if region !in regions {
        regions := regions[region := ppu];
      }
    }
    assert products[..|products|] == products;
    r := Ok(regions);
  }

  lemma ClassTableStep(items: seq<PriceItem>, i: nat)
    requires i < |items|
    ensures ClassTable(items[..i + 1]) == Absorb(ClassTable(items[..i]), items[i])
  {
    assert items[..i + 1][..i] == items[..i];
  }

  lemma {:induction false} FirstHourlyPriceAppend(items: seq<PriceItem>, x: PriceItem, region: string)
    ensures FirstHourlyPrice(items + [x], region) ==
      if FirstHourlyPrice(items, region).Some? then FirstHourlyPrice(items, region)
      else if Hourly(x) && x.regionCode == region then Some(Examined(x).value.pricePerUnit)
      else None
  {
    if items == [] {
      assert items + [x] == [x];
    } else {
      assert (items + [x])[1..] == items[1..] + [x];
      FirstHourlyPriceAppend(items[1..], x, region);
    }
  }

  /** First-wins: a region is in the table exactly when some hourly item
      names it, and it holds the price of the FIRST such item. */
  lemma {:induction false} ClassTableFirstWins(items: seq<PriceItem>, region: string)
    ensures region in ClassTable(items) <==> FirstHourlyPrice(items, region).Some?
    ensures region in ClassTable(items) ==> ClassTable(items)[region] == FirstHourlyPrice(items, region).value
  {
    if items != [] {
      var p, x := items[..|items| - 1], items[|items| - 1];
      LastSplit(items);
      ClassTableFirstWins(p, region);
      FirstHourlyPriceAppend(p, x, region);
    }
  }

  /** A price recorded for a region is never overwritten by later items. */
  lemma {:induction false} NeverOverwritten(a: seq<PriceItem>, b: seq<PriceItem>, region: string)
    requires region in ClassTable(a)
    ensures region in ClassTable(a + b) && ClassTable(a + b)[region] == ClassTable(a)[region]
  {
    if b == [] {
      assert a + b == a;
    } else {
      var p := b[..|b| - 1];
      assert (a + b)[..|a + b| - 1] == a + p;
      NeverOverwritten(a, p, region);
    }
  }

  /** An item that is not billed per hour contributes nothing: removing it
      from the response leaves the table as it was. */
  lemma {:induction false} NonHourlyIgnored(a: seq<PriceItem>, x: PriceItem, b: seq<PriceItem>)
    requires !Hourly(x)
    ensures ClassTable(a + [x] + b) == ClassTable(a + b)
  {
    forall region | true
      ensures FirstHourlyPrice(a + [x] + b, region) == FirstHourlyPrice(a + b, region)
    {
      FirstHourlySkip(a, x, b, region);
    }
    forall region | true
      ensures region in ClassTable(a + [x] + b) <==> region in ClassTable(a + b)
      ensures region in ClassTable(a + b) ==> ClassTable(a + [x] + b)[region] == ClassTable(a + b)[region]
    {
      ClassTableFirstWins(a + [x] + b, region);
      ClassTableFirstWins(a + b, region);
    }
  }

  lemma {:induction false} FirstHourlySkip(a: seq<PriceItem>, x: PriceItem, b: seq<PriceItem>, region: string)
    requires !Hourly(x)
    ensures FirstHourlyPrice(a + [x] + b, region) == FirstHourlyPrice(a + b, region)
  {
    if a == [] {
      assert a + [x] + b == [x] + b && ([x] + b)[1..] == b && a + b == b;
    } else {
      assert (a + [x] + b)[1..] == a[1..] + [x] + b;
      assert (a + b)[1..] == a[1..] + b;
      FirstHourlySkip(a[1..], x, b, region);
    }
  }

  /** The table raises exactly when some product lacks an OnDemand term or a
      price dimension; otherwise it has exactly the two class keys, each
      filled from its own family's response alone, first-wins per region. */
  lemma HourlyCostsShape(network: seq<PriceItem>, application: seq<PriceItem>, region: string)
    ensures HourlyCosts(network, application).Ok? <==>
      (forall i | 0 <= i < |network| :: WellFormed(network[i])) &&
      (forall i | 0 <= i < |application| :: WellFormed(application[i]))
    ensures HourlyCosts(network, application).Ok? ==>
      var t := HourlyCosts(network, application).value;
      && t.Keys == {NETWORK, APPLICATION}
      && (region in t[NETWORK] <==> FirstHourlyPrice(network, region).Some?)
      && (region in t[NETWORK] ==> t[NETWORK][region] == FirstHourlyPrice(network, region).value)
      && (region in t[APPLICATION] <==> FirstHourlyPrice(application, region).Some?)
      && (region in t[APPLICATION] ==> t[APPLICATION][region] == FirstHourlyPrice(application, region).value)
  {
    ClassTableFirstWins(network, region);
    ClassTableFirstWins(application, region);
  }
}
