/** The periodic jobs: the price-alert sweep, the market report's windows,
    title, change rate and summary, and the clean-up of old sold houses and
    old transactions. Days are day numbers; the clock is a parameter. */
module Tasks {
  import opened Wrappers
  import opened Numbers
  import opened Store
  import Text
  import Favorites

  // ------------------------------------------------------------ check_price_alerts

  /** Whether the sweep triggers alert k: it is active and its house costs at
      most its target. */
  predicate Fires(t: Tables, k: nat)
    requires k in t.alerts && t.alerts[k].houseId in t.houses
  {
    t.alerts[k].status == "active" && DecLe(t.houses[t.alerts[k].houseId].price, t.alerts[k].targetPrice)
  }

  /** Alert k after the sweep's two steps on it: current_price refreshed from
      the house, then check_and_trigger. */
  function Swept(t: Tables, k: nat, now: int): (a: PriceAlert)
    requires k in t.alerts && t.alerts[k].houseId in t.houses
    ensures a.currentPrice == t.houses[t.alerts[k].houseId].price
    ensures a.status == (if Fires(t, k) then "triggered" else t.alerts[k].status)
    ensures a == t.alerts[k].(currentPrice := a.currentPrice, status := a.status, triggeredAt := a.triggeredAt)
    ensures Fires(t, k) ==> a.triggeredAt == Some(now)
    ensures !Fires(t, k) ==> a.triggeredAt == t.alerts[k].triggeredAt
  {
    var a := t.alerts[k];
    var price := t.houses[a.houseId].price;
    Favorites.CheckedAlert(a.(currentPrice := price), price, now).0
  }

  /** The alerts once the sweep has handled every active alert with id >= from,
      one id at a time from the newest down. */
  function SweptFrom(t: Tables, now: int, from: nat): (r: map<nat, PriceAlert>)
    requires t.ChildrenLinked()
    ensures r.Keys == t.alerts.Keys
    decreases t.nextId - from
  {
    if from >= t.nextId then t.alerts
    else
      var rest := SweptFrom(t, now, from + 1);
      if from in t.alerts && t.alerts[from].status == "active" then rest[from := Swept(t, from, now)] else rest
  }

  /** Alert by alert, the sweep from `from` on: the active alerts with ids at
      least `from` are swept and every other alert is left as it was. */
  lemma {:induction false} SweptFromAt(t: Tables, now: int, from: nat, k: nat)
    requires t.ChildrenLinked() && t.IdsBelow() && k in t.alerts
    ensures SweptFrom(t, now, from)[k] == if k >= from && t.alerts[k].status == "active" then Swept(t, k, now) else t.alerts[k]
    decreases t.nextId - from
  {
    if from < t.nextId {
      SweptFromAt(t, now, from + 1, k);
    }
  }

  /** The alerts below `from` are not yet reached by the sweep. */
  lemma {:induction false} SweptBelow(t: Tables, now: int, from: nat, k: nat)
    requires t.ChildrenLinked() && k in t.alerts && k < from
    ensures SweptFrom(t, now, from)[k] == t.alerts[k]
    decreases t.nextId - from
  {
    if from < t.nextId {
      SweptBelow(t, now, from + 1, k);
    }
  }

  /** The ids of the alerts with ids in [from, hi) that the sweep triggers. */
  function FiresIn(t: Tables, from: nat, hi: nat): set<nat>
    requires t.ChildrenLinked()
  {
    set k | k in t.alerts && from <= k < hi && Fires(t, k)
  }

  /** Extending the range down by one id adds that alert exactly when it fires. */
  lemma FiresStep(t: Tables, i: nat, hi: nat)
    requires t.ChildrenLinked() && i < hi
    ensures i in t.alerts && Fires(t, i) ==> |FiresIn(t, i, hi)| == |FiresIn(t, i + 1, hi)| + 1
    ensures !(i in t.alerts && Fires(t, i)) ==> |FiresIn(t, i, hi)| == |FiresIn(t, i + 1, hi)|
  {
    if i in t.alerts && Fires(t, i) {
      assert FiresIn(t, i, hi) == FiresIn(t, i + 1, hi) + {i};
    } else {
      assert FiresIn(t, i, hi) == FiresIn(t, i + 1, hi);
    }
  }

  /** The loop body of check_price_alerts on the alert with id i, if there is
      one and it was active when the sweep began. */
  method SweepOne(db: Db, ghost t: Tables, now: int, i: nat, count: nat) returns (fired: bool, next: nat)
    requires i < t.nextId && t.ChildrenLinked()
    requires db.Valid() && db.tables == t.(alerts := SweptFrom(t, now, i + 1))
    requires count == |FiresIn(t, i + 1, t.nextId)|
    modifies db
    ensures db.Valid() && db.tables == t.(alerts := SweptFrom(t, now, i))
    ensures fired <==> i in t.alerts && Fires(t, i)
    ensures next == |FiresIn(t, i, t.nextId)| && next == count + (if fired then 1 else 0)
  {
    FiresStep(t, i, t.nextId);
    next := count;
    fired := false;
    if i in db.tables.alerts {
      SweptBelow(t, now, i + 1, i);
    }
    if i in db.tables.alerts && db.tables.alerts[i].status == "active" {
      ghost var before := db.tables;
      fired := Favorites.RefreshAndTrigger(db, i, now);
      assert db.tables == before.(alerts := before.alerts[i := Swept(t, i, now)]);
    }
    if fired {
      next := count + 1;
    }
  }

  /** check_price_alerts: every active alert, newest first, gets its current
      price refreshed and is checked; the message reports how many triggered. */
  method CheckPriceAlerts(db: Db, now: int) returns (message: string, count: nat)
    requires db.Valid()
    modifies db
    ensures db.Valid()
    ensures db.tables == old(db.tables).(alerts := SweptFrom(old(db.tables), now, 0))
    ensures count == |FiresIn(old(db.tables), 0, old(db.tables.nextId))|
    ensures message == "检查完成, 触发" + Text.IntToString(count) + "个提醒"
  {
    ghost var t := db.tables;
    ghost var i;
    count, i := SweepAll(db, t, now);
    message := "检查完成, 触发" + Text.IntToString(count) + "个提醒";
  }

  /** The loop of check_price_alerts, from the newest id down; `lo` is the
      id the sweep has reached when it stops, which is 0. */
  method SweepAll(db: Db, ghost t: Tables, now: int) returns (count: nat, ghost lo: nat)
    requires db.Valid() && db.tables == t
    modifies db
    ensures lo == 0 && db.Valid()
    ensures db.tables == t.(alerts := SweptFrom(t, now, lo))
    ensures count == |FiresIn(t, lo, t.nextId)|
  {
    var k: nat := db.tables.nextId;
    count := 0;
    assert FiresIn(t, k, t.nextId) == {};
    while k > 0
      invariant k <= t.nextId
      invariant t.ChildrenLinked() && db.Valid()
      invariant db.tables == t.(alerts := SweptFrom(t, now, k))
      invariant count == |FiresIn(t, k, t.nextId)|
      decreases k
    {
      k := k - 1;
      var fired;
      fired, count := SweepOne(db, t, now, k, count);
    }
    lo := k;
  }

  /** The alerts the sweep counts are exactly those it moved to "triggered";
      cancelled and already triggered alerts are left as they were. */
  lemma SweepTriggers(t: Tables, now: int)
    requires t.ChildrenLinked() && t.IdsBelow()
    ensures FiresIn(t, 0, t.nextId) ==
      set k | k in t.alerts && t.alerts[k].status != "triggered" && SweptFrom(t, now, 0)[k].status == "triggered"
    ensures forall k :: k in t.alerts && t.alerts[k].status != "active" ==> SweptFrom(t, now, 0)[k] == t.alerts[k]
  {
    forall k | k in t.alerts
      ensures SweptFrom(t, now, 0)[k] == if t.alerts[k].status == "active" then Swept(t, k, now) else t.alerts[k]
    {
      SweptFromAt(t, now, 0, k);
    }
  }

  // ------------------------------------------------------------ generate_market_report

  /** The length in days and the title word of a report type: monthly,
      quarterly, and anything else counted as yearly. */
  function ReportSpan(reportType: string): (r: (nat, string))
    ensures reportType == "monthly" ==> r == (30, "月度")
    ensures reportType == "quarterly" ==> r == (90, "季度")
    ensures reportType != "monthly" && reportType != "quarterly" ==> r == (365, "年度")
  {
    if reportType == "monthly" then (30, "月度")
    else if reportType == "quarterly" then (90, "季度")
    else (365, "年度")
  }

  /** The current period's deals: dated from start to today, both included. */
  predicate InCurrent(day: int, today: int, reportType: string)
  {
    today - ReportSpan(reportType).0 <= day <= today
  }

  /** The previous period's deals: the same span before start, start excluded. */
  predicate InPrevious(day: int, today: int, reportType: string)
  {
    var start := today - ReportSpan(reportType).0;
    start - (today - start) <= day < start
  }

  /** The two periods are disjoint and adjacent: together they cover the
      dates from the previous start to today, and both start `span` days
      before they end. The previous one excludes its end, the current one
      includes it, so the current period holds one date more. */
  lemma PeriodsAdjacent(day: int, today: int, reportType: string)
    ensures !(InCurrent(day, today, reportType) && InPrevious(day, today, reportType))
    ensures InCurrent(day, today, reportType) || InPrevious(day, today, reportType)
      <==> today - 2 * ReportSpan(reportType).0 <= day <= today
    ensures InCurrent(today - ReportSpan(reportType).0, today, reportType)
      && !InPrevious(today - ReportSpan(reportType).0, today, reportType)
    ensures InPrevious(today - 2 * ReportSpan(reportType).0, today, reportType)
  {
  }

  /** The report title: the district's name, or 全市 for the whole city. */
  function ReportTitle(districtName: Option<string>, reportType: string): (title: string)
    ensures districtName.Some? ==> title == districtName.value + ReportSpan(reportType).1 + "市场报告"
    ensures districtName.None? ==> title == "全市" + ReportSpan(reportType).1 + "市场报告"
  {
    (if districtName.Some? then districtName.value else "全市") + ReportSpan(reportType).1 + "市场报告"
  }

  /** `average or 0` of an aggregate. */
  function OrZero(avg: Option<real>): real
  {
    if avg.Some? then avg.value else 0.0
  }

  /** price_change_rate: the relative change of the average deal price in
      percent, and 0 when the previous average is not positive. */
  function ChangeRate(current: Option<real>, previous: Option<real>): (rate: real)
    ensures OrZero(previous) <= 0.0 ==> rate == 0.0
    ensures OrZero(previous) > 0.0 ==> rate * OrZero(previous) == (OrZero(current) - OrZero(previous)) * 100.0
  {
    var cur := OrZero(current);
    var prev := OrZero(previous);
    if prev > 0.0 then ((cur - prev) / prev) * 100.0 else 0.0
  }

  /** The rate rises exactly when the average rose, falls exactly when it
      fell, and never drops below -100% for non-negative prices. */
  lemma ChangeRateSign(current: Option<real>, previous: Option<real>)
    requires OrZero(previous) > 0.0
    ensures ChangeRate(current, previous) > 0.0 <==> OrZero(current) > OrZero(previous)
    ensures ChangeRate(current, previous) < 0.0 <==> OrZero(current) < OrZero(previous)
    ensures OrZero(current) >= 0.0 ==> ChangeRate(current, previous) >= -100.0
  {
    var cur := OrZero(current);
    var prev := OrZero(previous);
    var rate := ChangeRate(current, previous);
    assert rate * prev == (cur - prev) * 100.0;
    assert (rate + 100.0) * prev == cur * 100.0;
  }

  /** The aggregates over the houses on sale: averages are None over no rows. */
  datatype HouseStats = HouseStats(avgPrice: Option<Dec>, avgUnitPrice: Option<Dec>, count: nat)

  /** The summary sentence's parts: the two averages printed with two decimals,
      the counts, 上涨 or 下降, and the size of the change. */
  datatype SummaryLine = SummaryLine(
    avgPrice: string, avgUnitPrice: string, listings: nat, deals: nat, direction: string, change: real)

  /** A two-decimal rendering, as format(value, ".2f") prints a Decimal. */
  function TwoPlaces(d: Dec): string
  {
    Render(Quantize(d, 2))
  }

  /** The two-decimal text reads back as the value rounded to two places. */
  lemma TwoPlacesReadBack(d: Dec)
    ensures ParseDec(TwoPlaces(d)) == Some(Quantize(d, 2))
    ensures Quantize(d, 2).places == 2
  {
    ParseRender(Quantize(d, 2));
  }

  function AbsReal(x: real): (r: real)
    ensures r >= 0.0 && (r == x || r == -x)
  {
    if x < 0.0 then -x else x
  }

  /** The summary as written: formatting a missing average with ".2f" raises,
      so there is no summary (and no report) when no house is on sale. */
  function SummaryAsWritten(stats: HouseStats, deals: nat, rate: real): (r: Option<SummaryLine>)
    ensures r.Some? <==> stats.avgPrice.Some? && stats.avgUnitPrice.Some?
  {
    if stats.avgPrice.None? || stats.avgUnitPrice.None? then None
    else Some(SummaryLine(TwoPlaces(stats.avgPrice.value), TwoPlaces(stats.avgUnitPrice.value), stats.count, deals,
      if rate > 0.0 then "上涨" else "下降", AbsReal(rate)))
  }

  /** The summary with a missing average read as 0, as the report row's own
      avg_price and avg_unit_price fields already treat it. */
  function Summary(stats: HouseStats, deals: nat, rate: real): (r: SummaryLine)
    ensures r.listings == stats.count && r.deals == deals && r.change >= 0.0
    ensures r.direction == "上涨" <==> rate > 0.0
    ensures stats.avgPrice.None? ==> r.avgPrice == "0.00"
    ensures SummaryAsWritten(stats, deals, rate).Some? ==> SummaryAsWritten(stats, deals, rate).value == r
  {
    var zero := Dec(0, 0);
    ZeroTwoPlaces(zero);
    SummaryLine(TwoPlaces(if stats.avgPrice.Some? then stats.avgPrice.value else zero),
      TwoPlaces(if stats.avgUnitPrice.Some? then stats.avgUnitPrice.value else zero), stats.count, deals,
      if rate > 0.0 then "上涨" else "下降", AbsReal(rate))
  }

  /** Zero prints as 0.00. */
  lemma ZeroTwoPlaces(zero: Dec)
    requires zero == Dec(0, 0)
    ensures TwoPlaces(zero) == "0.00"
  {
    var q := Quantize(zero, 2);
    assert q == Dec(0, 2);
    RenderZeroTwo(q);
  }

  lemma RenderZeroTwo(q: Dec)
    requires q == Dec(0, 2)
    ensures Render(q) == "0.00"
  {
    RenderFractionShape(q);
    ZeroParts();
  }

  lemma ZeroParts()
    ensures var r := SplitAt(0, 2);
      Text.NatToString(r.0) + "." + ZeroPad(Text.NatToString(r.1), 2) == "0.00"
  {
    assert SplitAt(0, 2) == (0, 0);
    assert Text.NatToString(0) == "0";
    assert ZeroPad("0", 2) == "00" by {
      assert Zeros(1) == "0";
    }
  }

  /** A district (or the city) with no house on sale has no averages, and the
      summary as written then fails while the corrected one reads 0.00. */
  lemma NoListingsNoSummary(deals: nat, rate: real)
    ensures SummaryAsWritten(HouseStats(None, None, 0), deals, rate).None?
    ensures Summary(HouseStats(None, None, 0), deals, rate).avgPrice == "0.00"
  {
  }

  /** The stored market_reports row. The content line
      "报告时间范围: <start> 至 <end>" is kept as its two days. */
  datatype Report = Report(
    id: nat, title: string, reportType: string, districtId: Option<nat>, reportDate: int,
    avgPrice: Dec, avgUnitPrice: Dec, listings: nat, deals: nat, changeRate: real,
    summary: SummaryLine, periodStart: int)

  /** The stored row and the text the task returns. */
  datatype Generated = Generated(report: Report, message: string)

  /** The houses on sale, in the district when one is given. */
  function Listings(t: Tables, district: Option<nat>): set<nat>
  {
    set k | k in t.houses && t.houses[k].status == "available"
      && (district.Some? ==> t.houses[k].districtId == district.value)
  }

  /** The deals of the current period, in the district when one is given. */
  function Deals(t: Tables, today: int, reportType: string, district: Option<nat>): set<nat>
  {
    set k | k in t.transactions && InCurrent(t.transactions[k].dealDate, today, reportType)
      && (district.Some? ==> (t.transactions[k].houseId in t.houses
            && t.houses[t.transactions[k].houseId].districtId == district.value))
  }

  /** A truthy district id that names no district. */
  predicate UnknownDistrict(t: Tables, districtId: Option<int>)
  {
    districtId.Some? && districtId.value != 0 && !(districtId.value >= 0 && districtId.value as nat in t.districts)
  }

  const NoDistrict := "District matching query does not exist."

  /** What Python says when ".2f" formats None. */
  const NoneFormat := "unsupported format string passed to NoneType.__format__"

  /** report_type is a VARCHAR(20); the choices are not checked on create. */
  const ReportTypeWidth := 20

  /** price_change_rate is a DECIMAL(5, 2): the value is rounded to two
      places (half away from zero) and must then lie within ±999.99, so it
      fits exactly when it is strictly within ±999.995. */
  predicate RateFits(rate: real)
  {
    -999.995 < rate < 999.995
  }

  /** MySQL's refusal in strict mode (STRICT_TRANS_TABLES) of text wider than
      its column; Store.OutOfRange is the one for numbers. */
  function DataTooLong(column: string): string
  {
    "(1406, \"Data too long for column '" + column + "' at row 1\")"
  }

  /** generate_market_report. A falsy district id (absent or 0) means the
      whole city; an id with no district raises, and so does the summary
      when an average is missing (no house on sale). The insert then fails
      at the first column, in column order, that cannot hold its value: a
      report type wider than VARCHAR(20), an average that does not fit
      DECIMAL(10, 2), or a change rate that does not fit DECIMAL(5, 2). The
      averages are stored rounded to two places. They come from the
      database's aggregates, and reportId is the id the database gives the
      new row; all are parameters here. */
  function MarketReport(t: Tables, districtId: Option<int>, reportType: string, today: int,
                        avgPrice: Option<Dec>, avgUnitPrice: Option<Dec>,
                        currentAvg: Option<real>, previousAvg: Option<real>, reportId: nat): (r: Result<Generated>)
    ensures r.Err? <==> (UnknownDistrict(t, districtId) || avgPrice.None? || avgUnitPrice.None?
                         || |reportType| > ReportTypeWidth
                         || !FitsDecimal(avgPrice.value, TenDigits, 2) || !FitsDecimal(avgUnitPrice.value, TenDigits, 2)
                         || !RateFits(ChangeRate(currentAvg, previousAvg)))
    ensures UnknownDistrict(t, districtId) ==> r == Err(NoDistrict)
    ensures !UnknownDistrict(t, districtId) && (avgPrice.None? || avgUnitPrice.None?) ==> r == Err(NoneFormat)
    ensures !UnknownDistrict(t, districtId) && avgPrice.Some? && avgUnitPrice.Some? && |reportType| > ReportTypeWidth ==>
      r == Err(DataTooLong("report_type"))
    ensures (!UnknownDistrict(t, districtId) && avgPrice.Some? && avgUnitPrice.Some? && |reportType| <= ReportTypeWidth
             && !FitsDecimal(avgPrice.value, TenDigits, 2)) ==> r == Err(OutOfRange("avg_price"))
    ensures (!UnknownDistrict(t, districtId) && avgPrice.Some? && avgUnitPrice.Some? && |reportType| <= ReportTypeWidth
             && FitsDecimal(avgPrice.value, TenDigits, 2) && !FitsDecimal(avgUnitPrice.value, TenDigits, 2))
            ==> r == Err(OutOfRange("avg_unit_price"))
    ensures (!UnknownDistrict(t, districtId) && avgPrice.Some? && avgUnitPrice.Some? && |reportType| <= ReportTypeWidth
             && FitsDecimal(avgPrice.value, TenDigits, 2) && FitsDecimal(avgUnitPrice.value, TenDigits, 2)
             && !RateFits(ChangeRate(currentAvg, previousAvg))) ==> r == Err(OutOfRange("price_change_rate"))
    ensures r.Ok? ==> r.value.message == "报告生成完成: " + Text.NatToString(reportId) && r.value.report.id == reportId
    ensures r.Ok? && (districtId.None? || districtId.value == 0) ==>
      r.value.report.title == ReportTitle(None, reportType) && r.value.report.districtId.None?
    ensures r.Ok? && r.value.report.districtId.Some? ==> r.value.report.districtId.value in t.districts
    ensures r.Ok? && r.value.report.districtId.Some? ==>
      r.value.report.title == ReportTitle(Some(t.districts[r.value.report.districtId.value].name), reportType)
    ensures r.Ok? ==> var rep := r.value.report;
      && rep.reportType == reportType
      && rep.listings == |Listings(t, rep.districtId)|
      && rep.deals == |Deals(t, today, reportType, rep.districtId)|
      && rep.changeRate == ChangeRate(currentAvg, previousAvg) && RateFits(rep.changeRate)
      && rep.avgPrice == Quantize(avgPrice.value, 2) && rep.avgUnitPrice == Quantize(avgUnitPrice.value, 2)
      && rep.reportDate == today && rep.periodStart == today - ReportSpan(reportType).0
    ensures r.Ok? ==> var rep := r.value.report;
      rep.summary == Summary(HouseStats(avgPrice, avgUnitPrice, rep.listings), rep.deals, rep.changeRate)
  {
    var district: Option<nat> :=
      if districtId.Some? && districtId.value != 0 && districtId.value >= 0 then Some(districtId.value as nat) else None;
    if districtId.Some? && districtId.value != 0 && (district.None? || district.value !in t.districts) then
      Err(NoDistrict)
    else
      var name := if district.Some? then Some(t.districts[district.value].name) else None;
      var listings := |Listings(t, district)|;
      var deals := |Deals(t, today, reportType, district)|;
      var rate := ChangeRate(currentAvg, previousAvg);
      match SummaryAsWritten(HouseStats(avgPrice, avgUnitPrice, listings), deals, rate)
      case None => Err(NoneFormat)
      case Some(summary) =>
        if |reportType| > ReportTypeWidth then Err(DataTooLong("report_type"))
        else if !FitsDecimal(avgPrice.value, TenDigits, 2) then Err(OutOfRange("avg_price"))
        else if !FitsDecimal(avgUnitPrice.value, TenDigits, 2) then Err(OutOfRange("avg_unit_price"))
        else if !RateFits(rate) then Err(OutOfRange("price_change_rate"))
        else
          var report := Report(reportId, ReportTitle(name, reportType), reportType, district, today,
            Quantize(avgPrice.value, 2), Quantize(avgUnitPrice.value, 2), listings, deals, rate, summary, today - ReportSpan(reportType).0);
          Ok(Generated(report, "报告生成完成: " + Text.NatToString(reportId)))
  }

  /** A rise from an average deal price of 50 to 600 is a rate of 1100%,
      which DECIMAL(5, 2) cannot hold: the report is not stored. */
  lemma LargeRiseRefused(t: Tables, districtId: Option<int>, today: int, avgPrice: Dec, avgUnitPrice: Dec, reportId: nat)
    requires !UnknownDistrict(t, districtId)
    requires FitsDecimal(avgPrice, TenDigits, 2) && FitsDecimal(avgUnitPrice, TenDigits, 2)
    ensures MarketReport(t, districtId, "monthly", today, Some(avgPrice), Some(avgUnitPrice), Some(600.0), Some(50.0), reportId)
      == Err(OutOfRange("price_change_rate"))
  {
    assert ChangeRate(Some(600.0), Some(50.0)) == 1100.0;
  }

  /** AVG over DECIMAL(10, 2) prices carries six places: an average of
      266.666667 is stored as 266.67 in both average columns. */
  lemma AverageStoredRounded(t: Tables, districtId: Option<int>, today: int,
                             currentAvg: Option<real>, previousAvg: Option<real>, reportId: nat)
    requires MarketReport(t, districtId, "monthly", today, Some(Dec(266666667, 6)), Some(Dec(266666667, 6)),
                          currentAvg, previousAvg, reportId).Ok?
    ensures var rep := MarketReport(t, districtId, "monthly", today, Some(Dec(266666667, 6)), Some(Dec(266666667, 6)),
                                    currentAvg, previousAvg, reportId).value.report;
      rep.avgPrice == Dec(26667, 2) && rep.avgUnitPrice == Dec(26667, 2)
  {
    assert Pow10(4) == 10000;
    assert RoundHalfEven(266666667, 10000) == 26667;
  }

  // ------------------------------------------------------------ cleanup_old_data

  /** The cut-off day: two years (730 days) before today. */
  function Cutoff(today: int): int
  {
    today - 730
  }

  /** Sold houses last updated before the cut-off day began. */
  function OldSold(t: Tables, cutoff: int): (r: set<nat>)
    ensures forall k :: k in r <==> k in t.houses && t.houses[k].status == "sold" && t.houses[k].updatedAt < cutoff * 86400
  {
    set k | k in t.houses && t.houses[k].status == "sold" && t.houses[k].updatedAt < cutoff * 86400
  }

  /** Transactions dated before the cut-off day. */
  function OldDeals(t: Tables, cutoff: int): (r: set<nat>)
    ensures forall k :: k in r <==> k in t.transactions && t.transactions[k].dealDate < cutoff
  {
    set k | k in t.transactions && t.transactions[k].dealDate < cutoff
  }

  /** cleanup_old_data: old sold houses go (with the rows that cascade from
      them), then the old transactions that are left. The counts are taken
      before each delete. */
  method CleanupOldData(db: Db, today: int) returns (message: string, houseCount: nat, dealCount: nat)
    requires db.Valid()
    modifies db
    ensures db.Valid()
    ensures var t := old(db.tables);
      var w := WithoutHouses(t, OldSold(t, Cutoff(today)));
      && houseCount == |OldSold(t, Cutoff(today))|
      && dealCount == |OldDeals(w, Cutoff(today))|
      && db.tables == w.(transactions := w.transactions - OldDeals(w, Cutoff(today)))
    ensures message == "清理完成: " + Text.IntToString(houseCount) + "个房源, " + Text.IntToString(dealCount) + "条记录"
  {
    var cutoff := Cutoff(today);
    var oldHouses := OldSold(db.tables, cutoff);
    houseCount := |oldHouses|;
    var _ := db.DeleteHouses(oldHouses);
    var oldDeals := OldDeals(db.tables, cutoff);
    dealCount := |oldDeals|;
    db.DeleteTransactions(oldDeals);
    message := "清理完成: " + Text.IntToString(houseCount) + "个房源, " + Text.IntToString(dealCount) + "条记录";
  }

  /** What the clean-up keeps: every house that is not sold or was updated on
      or after the cut-off day, unchanged, and every transaction dated on or
      after the cut-off whose house was kept. */
  lemma CleanupKeeps(t: Tables, today: int)
    requires t.Valid()
    ensures var w := WithoutHouses(t, OldSold(t, Cutoff(today)));
      var r := w.(transactions := w.transactions - OldDeals(w, Cutoff(today)));
      && (forall k :: k in t.houses ==>
            (k in r.houses <==> t.houses[k].status != "sold" || t.houses[k].updatedAt >= Cutoff(today) * 86400))
      && (forall k :: k in r.houses ==> r.houses[k] == t.houses[k])
      && (forall k :: k in r.transactions <==>
            k in t.transactions && t.transactions[k].dealDate >= Cutoff(today) && t.transactions[k].houseId in r.houses)
  {
  }
}
