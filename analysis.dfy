/** The classifiers of the analysis endpoints: the price-range histogram of
    price_range_distribution, the heat-map normalisation of
    district_heat_map, the ROI assessment of roi_analysis and the market
    forecast of market_trend_forecast. ORM aggregates (counts of recent deals,
    average prices) are inputs, and Python floats are exact reals. */
module Analysis {
  import opened Wrappers
  import opened Numbers
  import opened Store
  import opened Common
  import opened Rounding
  import HouseSerializers
  import HouseViews
  import Text

  // ------------------------------------------------------------ percentages

  /** count / total * 100 when there is a total, else 0 (before rounding). */
  function Share(count: nat, total: nat): real
  {
    if total > 0 then count as real / total as real * 100.0 else 0.0
  }

  /** The percentage a row reports: the share rounded to two places. */
  function Percentage(count: nat, total: nat): real
  {
    RoundTo(Share(count, total), 100)
  }

  /** A share is 0 without a total, and otherwise between 0 and 100 for a
      count within the total, 100 exactly for the whole; the reported
      percentage keeps these bounds and lies within 0.005 of the share. */
  lemma ShareBounds(count: nat, total: nat)
    ensures total == 0 ==> Share(count, total) == 0.0 && Percentage(count, total) == 0.0
    ensures count <= total ==> 0.0 <= Share(count, total) <= 100.0
    ensures count <= total ==> 0.0 <= Percentage(count, total) <= 100.0
    ensures total > 0 ==> Share(total, total) == 100.0 && Percentage(total, total) == 100.0
    ensures Share(count, total) - 0.005 < Percentage(count, total) <= Share(count, total) + 0.005
  {
    if total > 0 && count <= total {
      assert count as real / total as real <= 1.0;
    }
    if count <= total {
      RoundBounded(Share(count, total), 100);
    }
    if total > 0 {
      assert Share(total, total) == 100.0;
      RoundBounded(100.0, 100);
    }
    RoundClose(Share(count, total), 100);
  }

  // ------------------------------------------------------------ price_range_distribution

  /** A price range in units of ten thousand yuan: [lo, hi), open above when
      hi is None. */
  datatype PriceRange = PriceRange(lo: int, hi: Option<int>, tag: string)

  const PriceRanges: seq<PriceRange> := [
    PriceRange(0, Some(100), "100万以下"),
    PriceRange(100, Some(200), "100-200万"),
    PriceRange(200, Some(300), "200-300万"),
    PriceRange(300, Some(500), "300-500万"),
    PriceRange(500, Some(1000), "500-1000万"),
    PriceRange(1000, None, "1000万以上")]

  /** price__gte=lo and, for a bounded range, price__lt=hi. */
  predicate InRange(p: real, r: PriceRange)
  {
    p >= r.lo as real && (r.hi.None? || p < r.hi.value as real)
  }

  /** The range a non-negative price falls in. */
  function BucketOf(p: real): (k: nat)
    requires p >= 0.0
    ensures k < |PriceRanges| && InRange(p, PriceRanges[k])
  {
    if p < 100.0 then 0
    else if p < 200.0 then 1
    else if p < 300.0 then 2
    else if p < 500.0 then 3
    else if p < 1000.0 then 4
    else 5
  }

  /** The ranges are disjoint and cover the non-negative prices: a
      non-negative price is in exactly its own range, a negative one in none. */
  lemma BucketsPartition(p: real)
    ensures p >= 0.0 ==> forall k :: 0 <= k < |PriceRanges| ==> (InRange(p, PriceRanges[k]) <==> k == BucketOf(p))
    ensures p < 0.0 ==> forall k :: 0 <= k < |PriceRanges| ==> !InRange(p, PriceRanges[k])
  {
  }

  /** The prices of the queryset, oldest house first: the available houses
      below id `bound`, of one district when a district id is given. */
  function QuerysetPrices(t: Tables, district: Option<nat>, bound: nat): (r: seq<real>)
    ensures |r| <= bound
  {
    if bound == 0 then []
    else
      var rest := QuerysetPrices(t, district, bound - 1);
      var k := bound - 1;
      if k in t.houses && t.houses[k].status == "available"
        && (district.None? || t.houses[k].districtId == district.value)
      then rest + [HouseSerializers.Real(t.houses[k].price)]
      else rest
  }

  /** The number of prices in a range. */
  function CountIn(prices: seq<real>, r: PriceRange): (n: nat)
    ensures n <= |prices|
  {
    if prices == [] then 0
    else CountIn(prices[..|prices| - 1], r) + (if InRange(prices[|prices| - 1], r) then 1 else 0)
  }

  /** The number of non-negative prices. */
  function NonNegative(prices: seq<real>): (n: nat)
    ensures n <= |prices|
  {
    if prices == [] then 0
    else NonNegative(prices[..|prices| - 1]) + (if prices[|prices| - 1] >= 0.0 then 1 else 0)
  }

  /** The counts of the first k ranges added up. */
  function Tally(prices: seq<real>, k: nat): nat
    requires k <= |PriceRanges|
  {
    if k == 0 then 0 else Tally(prices, k - 1) + CountIn(prices, PriceRanges[k - 1])
  }

  /** The number of the first k ranges that hold a price. */
  function Hits(p: real, k: nat): nat
    requires k <= |PriceRanges|
  {
    if k == 0 then 0 else Hits(p, k - 1) + (if InRange(p, PriceRanges[k - 1]) then 1 else 0)
  }

  /** A price is in one range when it is non-negative, else in none. */
  lemma HitsOnce(p: real)
    ensures Hits(p, |PriceRanges|) == if p >= 0.0 then 1 else 0
  {
    BucketsPartition(p);
    assert Hits(p, 1) == (if InRange(p, PriceRanges[0]) then 1 else 0);
    assert Hits(p, 2) == Hits(p, 1) + (if InRange(p, PriceRanges[1]) then 1 else 0);
    assert Hits(p, 3) == Hits(p, 2) + (if InRange(p, PriceRanges[2]) then 1 else 0);
    assert Hits(p, 4) == Hits(p, 3) + (if InRange(p, PriceRanges[3]) then 1 else 0);
    assert Hits(p, 5) == Hits(p, 4) + (if InRange(p, PriceRanges[4]) then 1 else 0);
  }

  /** Appending a price adds its hits to the tally. */
  lemma {:induction false} TallyStep(init: seq<real>, p: real, k: nat)
    requires k <= |PriceRanges|
    ensures Tally(init + [p], k) == Tally(init, k) + Hits(p, k)
  {
    if k > 0 {
      TallyStep(init, p, k - 1);
      assert (init + [p])[..|init + [p]| - 1] == init;
    }
  }

  lemma {:induction false} TallyEmpty(k: nat)
    requires k <= |PriceRanges|
    ensures Tally([], k) == 0
  {
    if k > 0 {
      TallyEmpty(k - 1);
    }
  }

  /** The six counts add up to the number of non-negative prices: every such
      price is counted once and a negative one never. */
  lemma {:induction false} TallyCoversNonNegative(prices: seq<real>)
    ensures Tally(prices, |PriceRanges|) == NonNegative(prices)
  {
    if prices == [] {
      TallyEmpty(|PriceRanges|);
    } else {
      var init := prices[..|prices| - 1];
      var p := prices[|prices| - 1];
      TallyCoversNonNegative(init);
      assert prices == init + [p];
      TallyStep(init, p, |PriceRanges|);
      HitsOnce(p);
      assert NonNegative(prices) == NonNegative(init) + (if p >= 0.0 then 1 else 0);
      assert Tally(prices, |PriceRanges|) == Tally(init, |PriceRanges|) + Hits(p, |PriceRanges|);
    }
  }

  /** One row of the distribution. */
  datatype RangeRow = RangeRow(range: string, count: nat, percentage: real)

  /** price_range_distribution: one row per range in their order, with the
      range's count among the queryset's prices and its share of the total. */
  method PriceRangeDistribution(t: Tables, district: Option<nat>) returns (rows: seq<RangeRow>, total: nat)
    ensures total == |QuerysetPrices(t, district, t.nextId)|
    ensures |rows| == |PriceRanges|
    ensures forall k :: 0 <= k < |rows| ==>
      var c := CountIn(QuerysetPrices(t, district, t.nextId), PriceRanges[k]);
      rows[k] == RangeRow(PriceRanges[k].tag, c, Percentage(c, total))
  {
    var prices := QuerysetPrices(t, district, t.nextId);
    total := |prices|;
    rows := [];
    var k := 0;
    while k < |PriceRanges|
      invariant 0 <= k <= |PriceRanges| && |rows| == k
      invariant forall j :: 0 <= j < k ==>
        rows[j] == RangeRow(PriceRanges[j].tag, CountIn(prices, PriceRanges[j]), Percentage(CountIn(prices, PriceRanges[j]), total))
    {
      var count := CountIn(prices, PriceRanges[k]);
      rows := rows + [RangeRow(PriceRanges[k].tag, count, Percentage(count, total))];
      k := k + 1;
    }
  }

  /** The rows' counts add up to the total when no price is negative, so the
      ranges together account for every available house. */
  lemma DistributionAccountsForAll(t: Tables, district: Option<nat>)
    requires forall i :: 0 <= i < |QuerysetPrices(t, district, t.nextId)| ==> QuerysetPrices(t, district, t.nextId)[i] >= 0.0
    ensures Tally(QuerysetPrices(t, district, t.nextId), |PriceRanges|) == |QuerysetPrices(t, district, t.nextId)|
  {
    var prices := QuerysetPrices(t, district, t.nextId);
    TallyCoversNonNegative(prices);
    AllNonNegative(prices);
  }

  lemma {:induction false} AllNonNegative(prices: seq<real>)
    requires forall i :: 0 <= i < |prices| ==> prices[i] >= 0.0
    ensures NonNegative(prices) == |prices|
  {
    if prices != [] {
      AllNonNegative(prices[..|prices| - 1]);
    }
  }

  // ------------------------------------------------------------ district_heat_map

  /** What the heat map reads for one district: its available houses, its
      deals of the last thirty days and the average price of its available
      houses (None when it has none). */
  datatype DistrictActivity = DistrictActivity(
    id: nat, name: string, availableCount: nat, transactionCount: nat, avgPrice: Option<real>)

  datatype HeatRow = HeatRow(
    districtId: nat, districtName: string, heatIndex: real,
    availableCount: nat, transactionCount: nat, avgPrice: real, heatPercentage: real)

  /** available * 0.3 + deals * 5 + average / 50 * 0.2. */
  function HeatIndex(a: DistrictActivity): (h: real)
    ensures a.avgPrice.GetOr(0.0) >= 0.0 ==> h >= 0.0
    ensures a.availableCount > 0 && a.avgPrice.GetOr(0.0) >= 0.0 ==> h > 0.0
  {
    a.availableCount as real * 0.3 + a.transactionCount as real * 5.0 + a.avgPrice.GetOr(0.0) / 50.0 * 0.2
  }

  function Heats(ds: seq<DistrictActivity>): (hs: seq<real>)
    ensures |hs| == |ds| && forall i :: 0 <= i < |ds| ==> hs[i] == HeatIndex(ds[i])
  {
    seq(|ds|, i requires 0 <= i < |ds| => HeatIndex(ds[i]))
  }

  /** The running maximum that starts at 0. */
  function MaxHeat(hs: seq<real>): (m: real)
    ensures m >= 0.0
    ensures forall i :: 0 <= i < |hs| ==> hs[i] <= m
    ensures m == 0.0 || exists i :: 0 <= i < |hs| && hs[i] == m
  {
    if hs == [] then 0.0
    else
      var m := MaxHeat(hs[..|hs| - 1]);
      var h := hs[|hs| - 1];
      assert forall i :: 0 <= i < |hs| - 1 ==> hs[i] == hs[..|hs| - 1][i];
      if h > m then h else m
  }

  /** The heat percentage as the view computes it: the index after rounding
      to two places, divided by the unrounded maximum, times 100, rounded to
      one place; 0 when the maximum is 0. */
  function HeatPercentage(heat: real, maxHeat: real): real
  {
    if maxHeat > 0.0 then RoundTo(RoundTo(heat, 100) / maxHeat * 100.0, 10) else 0.0
  }

  /** The row of a district before normalisation. */
  function HeatRowOf(a: DistrictActivity): HeatRow
  {
    HeatRow(a.id, a.name, RoundTo(HeatIndex(a), 100), a.availableCount, a.transactionCount,
      RoundTo(a.avgPrice.GetOr(0.0), 100), 0.0)
  }

  /** district_heat_map: the rows in district order (the final sort by heat is
      not modelled), each normalised against the largest unrounded index. */
  method HeatMap(ds: seq<DistrictActivity>) returns (rows: seq<HeatRow>)
    ensures |rows| == |ds|
    ensures forall i :: 0 <= i < |ds| ==>
      rows[i] == HeatRowOf(ds[i]).(heatPercentage := HeatPercentage(HeatIndex(ds[i]), MaxHeat(Heats(ds))))
  {
    var maxHeat;
    rows, maxHeat := HeatRows(ds);
    rows := Normalise(ds, rows, maxHeat);
  }

  /** The first loop: a row per district and the largest index. */
  method HeatRows(ds: seq<DistrictActivity>) returns (rows: seq<HeatRow>, maxHeat: real)
    ensures |rows| == |ds| && forall j :: 0 <= j < |ds| ==> rows[j] == HeatRowOf(ds[j])
    ensures maxHeat == MaxHeat(Heats(ds))
  {
    rows := [];
    maxHeat := 0.0;
    var hs := Heats(ds);
    var i := 0;
    while i < |ds|
      invariant 0 <= i <= |ds| && |rows| == i
      invariant maxHeat == MaxHeat(hs[..i])
      invariant forall j :: 0 <= j < i ==> rows[j] == HeatRowOf(ds[j])
    {
      var heat := HeatIndex(ds[i]);
      MaxHeatStep(hs, i);
      if heat > maxHeat {
        maxHeat := heat;
      }
      RowsSnoc(ds, rows, i);
      rows := rows + [HeatRowOf(ds[i])];
      i := i + 1;
    }
    assert hs[..|ds|] == hs;
  }

  /** One more row keeps the rows in step with the districts. */
  lemma RowsSnoc(ds: seq<DistrictActivity>, rows: seq<HeatRow>, i: nat)
    requires i < |ds| && |rows| == i
    requires forall j :: 0 <= j < i ==> rows[j] == HeatRowOf(ds[j])
    ensures forall j :: 0 <= j < i + 1 ==> (rows + [HeatRowOf(ds[i])])[j] == HeatRowOf(ds[j])
  {
  }

  /** The running maximum over one more index. */
  lemma MaxHeatStep(hs: seq<real>, i: nat)
    requires i < |hs|
    ensures MaxHeat(hs[..i + 1]) == if hs[i] > MaxHeat(hs[..i]) then hs[i] else MaxHeat(hs[..i])
  {
    assert hs[..i + 1][..i] == hs[..i];
  }

  /** The second loop: each row gets its percentage. */
  method Normalise(ds: seq<DistrictActivity>, rows0: seq<HeatRow>, maxHeat: real) returns (rows: seq<HeatRow>)
    requires |rows0| == |ds| && forall j :: 0 <= j < |ds| ==> rows0[j] == HeatRowOf(ds[j])
    ensures |rows| == |ds|
    ensures forall k :: 0 <= k < |ds| ==>
      rows[k] == HeatRowOf(ds[k]).(heatPercentage := HeatPercentage(HeatIndex(ds[k]), maxHeat))
  {
    rows := rows0;
    var j := 0;
    while j < |rows|
      invariant 0 <= j <= |rows| == |ds|
      invariant forall k :: 0 <= k < j ==>
        rows[k] == HeatRowOf(ds[k]).(heatPercentage := HeatPercentage(HeatIndex(ds[k]), maxHeat))
      invariant forall k :: j <= k < |rows| ==> rows[k] == HeatRowOf(ds[k])
    {
      rows := rows[j := rows[j].(heatPercentage := HeatPercentage(HeatIndex(ds[j]), maxHeat))];
      j := j + 1;
    }
  }

  /** Without any heat every percentage is 0. */
  lemma NoHeatNoPercentage(ds: seq<DistrictActivity>, i: nat)
    requires i < |ds| && forall k :: 0 <= k < |ds| ==> HeatIndex(ds[k]) <= 0.0
    ensures HeatPercentage(HeatIndex(ds[i]), MaxHeat(Heats(ds))) == 0.0
  {
    assert forall k :: 0 <= k < |ds| ==> Heats(ds)[k] <= 0.0;
  }

  /** The intended normalisation: the unrounded index over the maximum,
      times 100, rounded to one place. */
  function NormalisedHeat(heat: real, maxHeat: real): real
  {
    if maxHeat > 0.0 then RoundTo(heat / maxHeat * 100.0, 10) else 0.0
  }

  /** With the unrounded index every percentage lies in [0, 100], and the
      hottest district gets exactly 100. */
  lemma NormalisedHeatBounded(ds: seq<DistrictActivity>, i: nat)
    requires i < |ds| && forall k :: 0 <= k < |ds| ==> ds[k].avgPrice.GetOr(0.0) >= 0.0
    ensures 0.0 <= NormalisedHeat(HeatIndex(ds[i]), MaxHeat(Heats(ds))) <= 100.0
    ensures MaxHeat(Heats(ds)) > 0.0 && HeatIndex(ds[i]) == MaxHeat(Heats(ds)) ==>
      NormalisedHeat(HeatIndex(ds[i]), MaxHeat(Heats(ds))) == 100.0
  {
    var m := MaxHeat(Heats(ds));
    var h := HeatIndex(ds[i]);
    assert Heats(ds)[i] == h;
    if m > 0.0 {
      NormalisedBounded(h, m);
    }
  }

  /** One percentage: in [0, 100] for an index within the maximum. */
  lemma NormalisedBounded(h: real, m: real)
    requires 0.0 <= h <= m && m > 0.0
    ensures 0.0 <= NormalisedHeat(h, m) <= 100.0
    ensures h == m ==> NormalisedHeat(h, m) == 100.0
  {
    DivAtMostOne(h, m);
    var x := h / m * 100.0;
    if h == m {
      DivSelf(m);
    }
    assert 0.0 <= x <= 100.0;
    RoundBounded(x, 10);
  }

  lemma DivSelf(m: real)
    requires m > 0.0
    ensures m / m == 1.0
  {
  }

  lemma DivAtMostOne(h: real, m: real)
    requires 0.0 <= h <= m && m > 0.0
    ensures 0.0 <= h / m <= 1.0
  {
  }

  /** The view rounds the index before dividing by the unrounded maximum, so
      the hottest district can exceed 100: one district with one available
      house at 302 (ten thousand yuan) and no recent deal has index 1.508,
      shown as 1.51, and a percentage of 100.1. */
  lemma HeatPercentageOvershoots()
    ensures var d := DistrictActivity(1, "朝阳", 1, 0, Some(302.0));
      && HeatIndex(d) == 1.508
      && MaxHeat(Heats([d])) == 1.508
      && HeatPercentage(HeatIndex(d), MaxHeat(Heats([d]))) == 100.1
      && NormalisedHeat(HeatIndex(d), MaxHeat(Heats([d]))) == 100.0
  {
    var d := DistrictActivity(1, "朝阳", 1, 0, Some(302.0));
    assert HeatIndex(d) == 1.508;
    assert Heats([d]) == [1.508];
    assert MaxHeat([1.508]) == 1.508 by {
      assert [1.508][..0] == [];
    }
    assert (1.508 * 100.0 + 0.5).Floor == 151;
    assert RoundTo(1.508, 100) == 1.51;
    var x := 1.51 / 1.508 * 100.0;
    assert 1001.0 <= x * 10.0 + 0.5 < 1002.0;
    assert (x * 10.0 + 0.5).Floor == 1001;
    assert (1.508 / 1.508 * 100.0 * 10.0 + 0.5).Floor == 1000;
  }

  // ------------------------------------------------------------ roi_analysis

  const AgentsOnly := "此功能仅限经纪人使用"
  const MissingRoiParams := "缺少必要参数：购入价格和月租金"
  const NotNumbers := "参数必须是数字"

  /** The role check of the two agent-only endpoints, behind the viewset's
      IsAuthenticated: only the role counts, not is_staff. */
  function AgentGuard(p: Principal): (r: Option<Response>)
    ensures r.None? <==> p.Member? && p.user.role in ["agent", "admin"]
    ensures p.Anonymous? ==> r == Some(Unauthenticated)
    ensures p.Member? && r.Some? ==> r.value == ErrorResponse(AgentsOnly, 403)
  {
    if p.Anonymous? then Some(Unauthenticated)
    else if p.user.role !in ["agent", "admin"] then Some(ErrorResponse(AgentsOnly, 403))
    else None
  }

  /** The guard is not IsAgentOrAdmin: a staff member whose role is "user"
      passes that permission but is refused here. */
  lemma AgentGuardIgnoresStaff(id: nat, u: User)
    requires u.role == "user" && u.staff
    ensures IsAgentOrAdmin(Member(id, u)) && AgentGuard(Member(id, u)).Some?
  {
  }

  /** float(value): a number, a ValueError, or a TypeError with its text. */
  datatype FloatArg = Num(x: real) | BadValue | BadType(text: string)

  function ToFloat(j: Json): (r: FloatArg)
    ensures j.JInt? ==> r == Num(j.i as real)
    ensures j.JStr? ==> (r.Num? <==> ParseDec(j.s).Some?) && !r.BadType?
    ensures j.JNull? || j.JList? || j.JObj? ==> r.BadType?
  {
    match j
    case JInt(i) => Num(i as real)
    case JNum(d) => Num(HouseSerializers.Real(d))
    case JBool(b) => Num(if b then 1.0 else 0.0)
    case JStr(s) =>
      (match ParseDec(s)
       case Some(d) => Num(HouseSerializers.Real(d))
       case None => BadValue)
    case JNull => BadType("float() argument must be a string or a real number, not 'NoneType'")
    case JList(_) => BadType("float() argument must be a string or a real number, not 'list'")
    case JObj(_) => BadType("float() argument must be a string or a real number, not 'dict'")
  }

  /** The first conversion that fails, in argument order. */
  function FirstFailure(args: seq<FloatArg>): (r: Option<FloatArg>)
    ensures r.None? <==> forall i :: 0 <= i < |args| ==> args[i].Num?
    ensures r.Some? ==> !r.value.Num? && exists i :: (0 <= i < |args| && args[i] == r.value
      && forall j :: 0 <= j < i ==> args[j].Num?)
  {
    if args == [] then None
    else if !args[0].Num? then Some(args[0])
    else
      var r := FirstFailure(args[1..]);
      assert r.Some? ==> exists i :: 0 <= i < |args| && args[i] == r.value && forall j :: 0 <= j < i ==> args[j].Num? by {
        if r.Some? {
          var i :| 0 <= i < |args[1..]| && args[1..][i] == r.value && forall j :: 0 <= j < i ==> args[1..][j].Num?;
          assert args[i + 1] == r.value;
        }
      }
      r
  }

  /** A price-reasonability verdict: its text and its level. */
  datatype Assessment = Assessment(text: string, level: string)

  /** The verdict for a house against its district's average price. */
  function PriceAssessment(diffPercent: real): Assessment
  {
    if diffPercent < -10.0 then Assessment("价格偏低，投资价值较高", "excellent")
    else if diffPercent < 0.0 then Assessment("价格略低于市场均价，具有投资价值", "good")
    else if diffPercent < 10.0 then Assessment("价格接近市场均价，投资需谨慎评估", "fair")
    else Assessment("价格偏高，投资风险较大", "poor")
  }

  /** The verdict from the net ROI when no house is named. */
  function RoiAssessment(netRoi: real): Assessment
  {
    if netRoi > 5.0 then Assessment("投资回报率优秀（>5%）", "excellent")
    else if netRoi > 3.0 then Assessment("投资回报率良好（3-5%）", "good")
    else if netRoi > 2.0 then Assessment("投资回报率一般（2-3%）", "fair")
    else Assessment("投资回报率偏低（<2%）", "poor")
  }

  const UnknownHouse := Assessment("无法评估（房源不存在）", "unknown")

  /** excellent, good, fair, poor as 3, 2, 1, 0. */
  function Rank(a: Assessment): int
  {
    if a.level == "excellent" then 3 else if a.level == "good" then 2 else if a.level == "fair" then 1 else 0
  }

  /** The verdicts are ordered: a cheaper house relative to its district never
      rates worse, a higher net ROI never rates worse; the bounds of each band
      are as the view writes them (strict below for prices, strict above for
      ROI). */
  lemma AssessmentsMonotone(d1: real, d2: real)
    ensures d1 <= d2 ==> Rank(PriceAssessment(d1)) >= Rank(PriceAssessment(d2))
    ensures d1 <= d2 ==> Rank(RoiAssessment(d1)) <= Rank(RoiAssessment(d2))
    ensures PriceAssessment(-10.0).level == "good" && PriceAssessment(0.0).level == "fair"
      && PriceAssessment(10.0).level == "poor"
    ensures RoiAssessment(5.0).level == "good" && RoiAssessment(3.0).level == "fair"
      && RoiAssessment(2.0).level == "poor"
  {
  }

  /** The house part of the result: the district's name and average price
      and the difference from it in percent. */
  datatype DistrictPart = DistrictPart(name: string, avgPrice: real, diffPercent: real)

  datatype RoiReport = RoiReport(
    grossRoi: real, netRoi: real, payback: Option<real>,
    annualIncome: real, annualCost: real, netAnnualIncome: real,
    purchasePrice: real, monthlyRent: real, assessment: Assessment, district: Option<DistrictPart>)

  /** An endpoint's outcome: an error envelope, or the success envelope
      around a report. */
  datatype Outcome<T> = Answer(response: Response) | Report(report: T)

  /** (price - average) / average * 100 when the average is truthy, else 0. */
  function DiffPercent(price: real, avg: Option<real>): real
  {
    if avg.Some? && avg.value != 0.0 then (price - avg.value) / avg.value * 100.0 else 0.0
  }

  /** The figures of the report from the four numbers, before rounding: a
      year of rent against a year of fees and other costs, the ROI as
      percentages of the purchase price in yuan, and the years to pay it
      back, which exist only for a positive net income. */
  function ExactRoi(price: real, rent: real, fee: real, other: real): (r: RoiReport)
    requires price != 0.0
    ensures r.purchasePrice == price && r.monthlyRent == rent && r.district.None?
    ensures r.annualIncome == rent * 12.0 && r.annualCost == (fee + other) * 12.0
    ensures r.netAnnualIncome == r.annualIncome - r.annualCost
    ensures r.grossRoi * price * 100.0 == r.annualIncome && r.netRoi * price * 100.0 == r.netAnnualIncome
    ensures r.payback.Some? <==> r.netAnnualIncome > 0.0
    ensures r.payback.Some? ==> r.payback.value * r.netAnnualIncome == price * 10000.0
    ensures r.payback.Some? ==> (r.payback.value > 0.0 <==> price > 0.0)
    ensures r.assessment == RoiAssessment(r.netRoi)
  {
    var income := rent * 12.0;
    var cost := (fee + other) * 12.0;
    var net := income - cost;
    var yuan := price * 10000.0;
    var netRoi := net / yuan * 100.0;
    RoiReport(income / yuan * 100.0, netRoi, if net > 0.0 then Some(yuan / net) else None,
      income, cost, net, price, rent, RoiAssessment(netRoi), None)
  }

  /** The report as the view sends it: each figure of the exact report
      rounded to two places and the payback to one, while the verdict stays
      the one on the unrounded net ROI. So every figure lies within half a
      unit of its last place of the exact one, a payback is reported exactly
      when the exact net income is positive, and a positive reported net
      income always comes with a payback. */
  function RoiFigures(price: real, rent: real, fee: real, other: real): (r: RoiReport)
    requires price != 0.0
    ensures var e := ExactRoi(price, rent, fee, other);
      && r.purchasePrice == price && r.monthlyRent == rent && r.district.None?
      && r.grossRoi == RoundTo(e.grossRoi, 100) && r.netRoi == RoundTo(e.netRoi, 100)
      && r.annualIncome == RoundTo(e.annualIncome, 100) && r.annualCost == RoundTo(e.annualCost, 100)
      && r.netAnnualIncome == RoundTo(e.netAnnualIncome, 100)
      && (r.payback.Some? <==> e.payback.Some?)
      && (r.payback.Some? ==> r.payback.value == RoundTo(e.payback.value, 10))
      && r.assessment == RoiAssessment(e.netRoi)
    ensures var e := ExactRoi(price, rent, fee, other);
      && e.netRoi - 0.005 < r.netRoi <= e.netRoi + 0.005
      && e.grossRoi - 0.005 < r.grossRoi <= e.grossRoi + 0.005
      && e.netAnnualIncome - 0.005 < r.netAnnualIncome <= e.netAnnualIncome + 0.005
      && (r.payback.Some? ==> e.payback.value - 0.05 < r.payback.value <= e.payback.value + 0.05)
    ensures r.netAnnualIncome > 0.0 ==> r.payback.Some?
    ensures r.payback.Some? ==> r.netAnnualIncome >= 0.0
  {
    var e := ExactRoi(price, rent, fee, other);
    RoundClose(e.netRoi, 100);
    RoundClose(e.grossRoi, 100);
    RoundClose(e.netAnnualIncome, 100);
    RoundClose(e.payback.GetOr(0.0), 10);
    RoundSign(e.netAnnualIncome);
    e.(grossRoi := RoundTo(e.grossRoi, 100), netRoi := RoundTo(e.netRoi, 100),
       payback := if e.payback.Some? then Some(RoundTo(e.payback.value, 10)) else None,
       annualIncome := RoundTo(e.annualIncome, 100), annualCost := RoundTo(e.annualCost, 100),
       netAnnualIncome := RoundTo(e.netAnnualIncome, 100))
  }

  /** The reported verdict without a house is the one on the unrounded net
      ROI, which lies within 0.005 of the reported one: it is never worse
      than the verdict half a cent below the reported figure and never
      better than the one half a cent above. */
  lemma VerdictBand(x: real)
    ensures Rank(RoiAssessment(RoundTo(x, 100) - 0.005)) <= Rank(RoiAssessment(x))
    ensures Rank(RoiAssessment(x)) <= Rank(RoiAssessment(RoundTo(x, 100) + 0.005))
  {
    RoundClose(x, 100);
    AssessmentsMonotone(RoundTo(x, 100) - 0.005, x);
    AssessmentsMonotone(x, RoundTo(x, 100) + 0.005);
  }

  /** The house part: the report as it stands without a truthy house_id; a
      500 when the id is not a number; "unknown" for a missing house; the
      price verdict against the district's average for a present one. */
  function RoiHouse(t: Tables, base: RoiReport, houseId: Json, avgOf: nat -> Option<real>): (r: Outcome<RoiReport>)
    requires t.HousesLinked()
    ensures !Truthy(houseId) ==> r == Report(base)
    ensures r.Report? ==> r.report == base.(assessment := r.report.assessment, district := r.report.district)
    ensures houseId.JInt? && houseId.i != 0 && houseId.i !in t.houses ==>
      r == Report(base.(assessment := UnknownHouse, district := Some(DistrictPart("", 0.0, 0.0))))
    ensures houseId.JInt? && houseId.i != 0 && houseId.i in t.houses ==>
      var h := t.houses[houseId.i];
      var diff := DiffPercent(base.purchasePrice, avgOf(h.districtId));
      r == Report(base.(assessment := PriceAssessment(diff),
        district := Some(DistrictPart(t.districts[h.districtId].name, RoundTo(avgOf(h.districtId).GetOr(0.0), 100), RoundTo(diff, 100)))))
  {
    if !Truthy(houseId) then Report(base)
    else match LookupKey(houseId)
      case Err(e) => Answer(ExceptionHandler(Unhandled(e)).value)
      case Ok(id) =>
        if id < 0 || id !in t.houses then
          Report(base.(assessment := UnknownHouse, district := Some(DistrictPart("", 0.0, 0.0))))
        else
          var h := t.houses[id];
          var avg := avgOf(h.districtId);
          var diff := DiffPercent(base.purchasePrice, avg);
          Report(base.(assessment := PriceAssessment(diff),
                       district := Some(DistrictPart(t.districts[h.districtId].name, RoundTo(avg.GetOr(0.0), 100), RoundTo(diff, 100)))))
  }

  /** float() of purchase_price, monthly_rent, property_fee and other_costs,
      the last two 0 when absent. */
  function RoiArgs(body: map<string, Json>): (args: seq<FloatArg>)
    ensures |args| == 4
  {
    [ToFloat(HouseViews.Get(body, "purchase_price", JNull)), ToFloat(HouseViews.Get(body, "monthly_rent", JNull)),
     ToFloat(HouseViews.Get(body, "property_fee", JInt(0))), ToFloat(HouseViews.Get(body, "other_costs", JInt(0)))]
  }

  /** roi_analysis over the request body; avgOf gives the average price of
      a district's available houses (None when it has none). */
  function Roi(t: Tables, p: Principal, body: map<string, Json>, avgOf: nat -> Option<real>): (r: Outcome<RoiReport>)
    requires t.HousesLinked()
    ensures AgentGuard(p).Some? ==> r == Answer(AgentGuard(p).value)
    ensures AgentGuard(p).None? && !(Truthy(HouseViews.Get(body, "purchase_price", JNull)) && Truthy(HouseViews.Get(body, "monthly_rent", JNull))) ==>
      r == Answer(ErrorResponse(MissingRoiParams))
    ensures (AgentGuard(p).None? && Truthy(HouseViews.Get(body, "purchase_price", JNull)) && Truthy(HouseViews.Get(body, "monthly_rent", JNull))) ==>
      var args := RoiArgs(body);
      match FirstFailure(args)
      case Some(BadType(text)) => r == Answer(ExceptionHandler(Unhandled(text)).value)
      case Some(_) => r == Answer(ErrorResponse(NotNumbers))
      case None =>
        if args[0].x == 0.0 then r == Answer(ExceptionHandler(Unhandled("float division by zero")).value)
        else r == RoiHouse(t, RoiFigures(args[0].x, args[1].x, args[2].x, args[3].x), HouseViews.Get(body, "house_id", JNull), avgOf)
    ensures r.Report? && r.report.netAnnualIncome > 0.0 ==> r.report.payback.Some?
    ensures r.Report? && r.report.payback.Some? ==> r.report.netAnnualIncome >= 0.0
    ensures r.Report? ==> r.report.annualIncome == RoundTo(r.report.monthlyRent * 12.0, 100)
    ensures r.Report? && r.report.district.None? ==>
      Rank(RoiAssessment(r.report.netRoi - 0.005)) <= Rank(r.report.assessment) <= Rank(RoiAssessment(r.report.netRoi + 0.005))
    ensures r.Report? && !Truthy(HouseViews.Get(body, "house_id", JNull)) ==> r.report.district.None?
  {
    if AgentGuard(p).Some? then Answer(AgentGuard(p).value)
    else if !(Truthy(HouseViews.Get(body, "purchase_price", JNull)) && Truthy(HouseViews.Get(body, "monthly_rent", JNull))) then
      Answer(ErrorResponse(MissingRoiParams))
    else
      var args := RoiArgs(body);
      match FirstFailure(args)
      case Some(BadType(text)) => Answer(ExceptionHandler(Unhandled(text)).value)
      case Some(_) => Answer(ErrorResponse(NotNumbers))
      case None =>
        assert args[0].Num? && args[1].Num? && args[2].Num? && args[3].Num?;
        if args[0].x == 0.0 then Answer(ExceptionHandler(Unhandled("float division by zero")).value)
        else
          VerdictBand(ExactRoi(args[0].x, args[1].x, args[2].x, args[3].x).netRoi);
          RoiHouse(t, RoiFigures(args[0].x, args[1].x, args[2].x, args[3].x), HouseViews.Get(body, "house_id", JNull), avgOf)
  }

  /** A purchase price given as the string "0" passes the truthiness test and
      then divides by zero: a 500 envelope. */
  lemma RoiZeroPriceText(t: Tables, p: Principal, avgOf: nat -> Option<real>)
    requires t.HousesLinked() && AgentGuard(p).None?
    ensures Roi(t, p, map["purchase_price" := JStr("0"), "monthly_rent" := JInt(5000)], avgOf)
      == Answer(ExceptionHandler(Unhandled("float division by zero")).value)
  {
    var body := map["purchase_price" := JStr("0"), "monthly_rent" := JInt(5000)];
    ZeroPriceArgs(body);
    assert Truthy(JStr("0"));
    assert FirstFailure(RoiArgs(body)) == None;
  }

  lemma ZeroPriceArgs(body: map<string, Json>)
    requires body == map["purchase_price" := JStr("0"), "monthly_rent" := JInt(5000)]
    ensures RoiArgs(body) == [Num(0.0), Num(5000.0), Num(0.0), Num(0.0)]
  {
    ZeroTextFloat();
    assert HouseViews.Get(body, "purchase_price", JNull) == JStr("0");
    assert HouseViews.Get(body, "monthly_rent", JNull) == JInt(5000);
    assert HouseViews.Get(body, "property_fee", JInt(0)) == JInt(0);
    assert HouseViews.Get(body, "other_costs", JInt(0)) == JInt(0);
  }

  lemma ZeroTextFloat()
    ensures ToFloat(JStr("0")) == Num(0.0)
  {
    ZeroText();
    ZeroReal();
  }

  lemma ZeroText()
    ensures ParseDec("0") == Some(Dec(0, 0))
  {
    ParseIntText(0);
    assert Text.IntToString(0) == "0";
  }

  lemma ZeroReal()
    ensures HouseSerializers.Real(Dec(0, 0)) == 0.0
  {
  }

  // ------------------------------------------------------------ market_trend_forecast

  datatype Forecast = Forecast(
    supplyDemandRatio: real, supplyCount: nat, demandCount: nat, marketHeat: int,
    activity: Assessment, trend: Assessment, priceChangePercent: real,
    currentAvgPrice: real, forecastNextMonth: real, forecastChangePercent: real, suggestion: string)

  /** Houses for sale per deal of the last thirty days; the supply itself
      when there was no deal. */
  function SupplyDemandRatio(supply: nat, demand: nat): (r: real)
    ensures r >= 0.0
    ensures demand > 0 ==> r * demand as real == supply as real
    ensures demand == 0 ==> r == supply as real
  {
    if demand > 0 then supply as real / demand as real else supply as real
  }

  /** 高 above 20 deals, 中 above 10, else 低. */
  function Activity(demand: nat): Assessment
  {
    if demand > 20 then Assessment("高", "high")
    else if demand > 10 then Assessment("中", "medium")
    else Assessment("低", "low")
  }

  /** 80, 60, 40 or 20 as the ratio is below 1, 2, 5 or not. */
  function HeatBase(ratio: real): int
  {
    if ratio < 1.0 then 80 else if ratio < 2.0 then 60 else if ratio < 5.0 then 40 else 20
  }

  /** The base plus two points per deal up to 20, capped at 100. */
  function MarketHeat(ratio: real, demand: nat): int
  {
    var bonus := if demand * 2 < 20 then demand * 2 else 20;
    var heat := HeatBase(ratio) + bonus;
    if heat < 100 then heat else 100
  }

  /** The heat lies between 20 and 100, never below its base, and reaches 100
      exactly for a ratio below 1 with at least ten deals; more deals never
      lower it. */
  lemma MarketHeatBounds(ratio: real, demand: nat, more: nat)
    requires demand <= more
    ensures 20 <= MarketHeat(ratio, demand) <= 100
    ensures MarketHeat(ratio, demand) >= HeatBase(ratio)
    ensures MarketHeat(ratio, demand) == 100 <==> ratio < 1.0 && demand >= 10
    ensures MarketHeat(ratio, demand) <= MarketHeat(ratio, more)
  {
  }

  /** The activity levels by their thresholds. */
  lemma ActivityThresholds(demand: nat)
    ensures Activity(demand).level == "high" <==> demand > 20
    ensures Activity(demand).level == "medium" <==> 10 < demand <= 20
    ensures Activity(demand).level == "low" <==> demand <= 10
  {
  }

  /** The trend for a change in percent, and the change forecast for next
      month: 80% of the change when it moves more than 3% either way. */
  function Trend(change: real): (Assessment, real)
  {
    if change > 3.0 then (Assessment("上涨", "up"), change * 0.8)
    else if change < -3.0 then (Assessment("下跌", "down"), change * 0.8)
    else (Assessment("平稳", "stable"), 0.0)
  }

  function Suggestion(heat: int, direction: string): string
  {
    if heat > 70 && direction == "up" then "市场火热，价格上涨，建议及时把握投资机会"
    else if heat > 70 && direction == "stable" then "市场活跃但价格平稳，适合投资"
    else if heat < 40 && direction == "down" then "市场低迷，价格下跌，建议观望或寻找低价机会"
    else if direction == "up" then "价格上涨趋势，但市场活跃度一般"
    else if direction == "down" then "价格下跌，可关注潜在投资机会"
    else "市场平稳，可根据个人需求决策"
  }

  const NoData := Assessment("数据不足", "unknown")

  /** The change in percent between the two average deal prices, when both
      are truthy. */
  function PriceChange(recentAvg: Option<real>, olderAvg: Option<real>): Option<real>
  {
    if recentAvg.Some? && olderAvg.Some? && recentAvg.value != 0.0 && olderAvg.value != 0.0 then
      Some((recentAvg.value - olderAvg.value) / olderAvg.value * 100.0)
    else None
  }

  /** market_trend_forecast over the counts and averages it reads: the
      available houses, the deals of the last 30 days, and the average deal
      price of the last 30 days and of the 60 days before (None without
      deals). The heat, the trend and the suggestion are decided on the
      unrounded figures; the ratio and the four price figures are reported
      rounded to two places (the heat is an integer, which round leaves as
      it is). */
  function MarketForecast(p: Principal, supply: nat, demand: nat, recentAvg: Option<real>, olderAvg: Option<real>): (r: Outcome<Forecast>)
  {
    if AgentGuard(p).Some? then Answer(AgentGuard(p).value)
    else
      var ratio := SupplyDemandRatio(supply, demand);
      var heat := MarketHeat(ratio, demand);
      var pr := match PriceChange(recentAvg, olderAvg)
        case Some(change) => Projection(recentAvg.value, change)
        case None => Projected(NoData, 0.0, 0.0, 0.0, 0.0);
      Report(Forecast(RoundTo(ratio, 100), supply, demand, heat, Activity(demand), pr.trend,
        pr.change, pr.current, pr.next, pr.forecast, Suggestion(heat, pr.trend.level)))
  }

  /** The trend and the reported price figures for the current average and
      the change: the trend is decided on the exact change, and the change,
      the current average, the next month's price and the forecast change
      are reported rounded to two places. */
  datatype Projected = Projected(trend: Assessment, change: real, current: real, next: real, forecast: real)

  function Projection(current: real, change: real): Projected
  {
    var (trend, fc) := Trend(change);
    Projected(trend, RoundTo(change, 100), RoundTo(current, 100),
      RoundTo(current * (1.0 + fc / 100.0), 100), RoundTo(fc, 100))
  }

  /** Outside 3% either way the reported change and forecast move the same
      way as the exact change, by at least 3% and 2.4% after rounding;
      within it the trend is stable and the forecast is the current price. */
  lemma ProjectionRounded(current: real, change: real)
    ensures var pr := Projection(current, change);
      && pr.change == RoundTo(change, 100)
      && (pr.trend.level == "up" <==> change > 3.0)
      && (pr.trend.level == "down" <==> change < -3.0)
      && (pr.trend.level == "stable" <==> -3.0 <= change <= 3.0)
      && (pr.trend.level == "up" ==> pr.change >= 3.0 && pr.forecast >= 2.4)
      && (pr.trend.level == "down" ==> pr.change <= -3.0 && pr.forecast <= -2.4)
      && (pr.trend.level == "stable" ==>
            pr.forecast == 0.0 && pr.next == pr.current && -3.0 <= pr.change <= 3.0)
  {
    TrendRounded(change);
    if -3.0 <= change <= 3.0 {
      assert current * (1.0 + 0.0 / 100.0) == current;
    }
  }

  /** The forecast's promises: role refusal; the ratio and the heat from the
      counts; a trend only with both averages, decided on the unrounded
      change, with the change reported rounded; a move within 3% either way
      is stable and forecasts no change; outside it the reported change and
      forecast move the same way, at least 3% and 2.4% after rounding. */
  lemma ForecastContract(p: Principal, supply: nat, demand: nat, recentAvg: Option<real>, olderAvg: Option<real>)
    ensures p.Member? && p.user.role !in ["agent", "admin"] ==>
      MarketForecast(p, supply, demand, recentAvg, olderAvg) == Answer(ErrorResponse(AgentsOnly, 403))
    ensures MarketForecast(p, supply, demand, recentAvg, olderAvg).Report? ==>
      var f := MarketForecast(p, supply, demand, recentAvg, olderAvg).report;
      && f.supplyDemandRatio == RoundTo(SupplyDemandRatio(supply, demand), 100)
      && f.marketHeat == MarketHeat(SupplyDemandRatio(supply, demand), demand)
      && 20 <= f.marketHeat <= 100
      && f.activity == Activity(demand)
      && (PriceChange(recentAvg, olderAvg).None? ==>
            f.trend == NoData && f.priceChangePercent == 0.0 && f.forecastNextMonth == 0.0)
      && (PriceChange(recentAvg, olderAvg).Some? ==>
            var c := PriceChange(recentAvg, olderAvg).value;
            && f.priceChangePercent == RoundTo(c, 100)
            && (f.trend.level == "up" <==> c > 3.0)
            && (f.trend.level == "down" <==> c < -3.0)
            && (f.trend.level == "stable" <==> -3.0 <= c <= 3.0))
      && (f.trend.level == "stable" ==> (f.forecastChangePercent == 0.0 && f.forecastNextMonth == f.currentAvgPrice
          && -3.0 <= f.priceChangePercent <= 3.0))
      && (f.trend.level == "up" ==> f.priceChangePercent >= 3.0 && f.forecastChangePercent >= 2.4)
      && (f.trend.level == "down" ==> f.priceChangePercent <= -3.0 && f.forecastChangePercent <= -2.4)
  {
    if AgentGuard(p).None? {
      MarketHeatBounds(SupplyDemandRatio(supply, demand), demand, demand);
      match PriceChange(recentAvg, olderAvg)
      case Some(c) => ProjectionRounded(recentAvg.value, c);
      case None => assert RoundTo(0.0, 100) == 0.0;
    }
  }

  /** A bound of the trend rounds to itself, so a value past it rounds no
      further in. */
  lemma RoundedAtLeast(x: real, bound: real)
    requires bound <= x && (bound == 3.0 || bound == 2.4)
    ensures bound <= RoundTo(x, 100)
  {
    assert RoundTo(bound, 100) == bound;
    RoundMono(bound, x, 100);
  }

  lemma RoundedAtMost(x: real, bound: real)
    requires x <= bound && (bound == -3.0 || bound == -2.4 || bound == 3.0)
    ensures RoundTo(x, 100) <= bound
  {
    assert RoundTo(bound, 100) == bound;
    RoundMono(x, bound, 100);
  }

  /** A trend's figures after rounding to two places: an upward move reports
      at least 3% and forecasts at least 2.4%, a downward one the mirror, and
      a stable one reports within 3% and forecasts 0. */
  lemma TrendRounded(c: real)
    ensures Trend(c).0.level == "up" ==> RoundTo(c, 100) >= 3.0 && RoundTo(Trend(c).1, 100) >= 2.4
    ensures Trend(c).0.level == "down" ==> RoundTo(c, 100) <= -3.0 && RoundTo(Trend(c).1, 100) <= -2.4
    ensures Trend(c).0.level == "stable" ==> -3.0 <= RoundTo(c, 100) <= 3.0 && RoundTo(Trend(c).1, 100) == 0.0
  {
    if c > 3.0 {
      RoundedAtLeast(c, 3.0);
      RoundedAtLeast(c * 0.8, 2.4);
    } else if c < -3.0 {
      RoundedAtMost(c, -3.0);
      RoundedAtMost(c * 0.8, -2.4);
    } else {
      assert RoundTo(0.0, 100) == 0.0;
      RoundedAtMost(c, 3.0);
      RoundMono(-3.0, c, 100);
      assert RoundTo(-3.0, 100) == -3.0;
    }
  }


  /** The suggestion follows the heat and the direction: a hot rising market
      is the buy signal, and a cold falling one the wait signal. */
  lemma SuggestionCases(heat: int, direction: string)
    ensures heat > 70 && direction == "up" ==> Suggestion(heat, direction) == "市场火热，价格上涨，建议及时把握投资机会"
    ensures heat < 40 && direction == "down" ==> Suggestion(heat, direction) == "市场低迷，价格下跌，建议观望或寻找低价机会"
    ensures direction != "up" && direction != "down" && !(heat > 70 && direction == "stable") ==>
      Suggestion(heat, direction) == "市场平稳，可根据个人需求决策"
  {
  }
}
