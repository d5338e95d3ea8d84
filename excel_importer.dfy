/** The Excel importer: each spreadsheet row written by the scraper becomes a
    House, together with the District and agent User it belongs to and one
    placeholder HouseImage. Field normalisers are functions; the reconciliation
    against the store is a set of methods on the Db. Randomness (cover image,
    phone digits, passwords) and the clock come in as parameters. */
module ExcelImporter {
  import opened Wrappers
  import opened Text
  import opened Numbers
  import opened Cells
  import opened Seqs
  import opened Store
  import FangScraper

  const DefaultCity: string := "北京"
  const PhonePrefixes: seq<string> := ["131", "132", "133", "134", "135", "136", "137", "138", "139", "150", "151", "152"]
  /** settings.MEDIA_URL as the running program reads it: the settings file
      writes 'media/', and Django's settings object puts the script prefix
      "/" in front of a relative MEDIA_URL. */
  const MediaUrl: string := "/media/"
  const AgentCompany: string := "北京经纪联盟"

  // ------------------------------------------------------------ numbers

  /** _to_decimal: None, "" and "null" give an unscaled zero; anything that
      Decimal(str(value)) cannot read, or whose quantised value needs more
      than the 28 digits of the default context, gives the same zero;
      otherwise the value rounded half-even to `places` digits. */
  function ToDecimal(c: Cell, places: nat): (r: Dec)
    ensures EmptyMarker(c) ==> r == Dec(0, 0)
    ensures r == Dec(0, 0) || (r.places == places && Abs(r.coef) < Pow10(28))
    ensures !EmptyMarker(c) && ParseDec(Str(c)).None? ==> r == Dec(0, 0)
    ensures !EmptyMarker(c) && r.places == places && r != Dec(0, 0) ==>
              ParseDec(Str(c)).Some? && r == Quantize(ParseDec(Str(c)).value, places)
  {
    if EmptyMarker(c) then Dec(0, 0)
    else match ParseDec(Str(c))
      case None => Dec(0, 0)
      case Some(d) =>
        var q := Quantize(d, places);
        if Abs(q.coef) >= Pow10(28) then Dec(0, 0) else q
  }

  /** A number cell reads back as itself, rounded to the wanted places. */
  lemma ToDecimalOfNumber(d: Dec, places: nat)
    requires Abs(Quantize(d, places).coef) < Pow10(28)
    ensures ToDecimal(Num(d), places) == Quantize(d, places)
  {
    ParseRender(d);
  }

  /** A value the importer has already quantised is stored unchanged when it
      comes back through the importer. */
  lemma ToDecimalStable(d: Dec)
    requires Abs(d.coef) < Pow10(28)
    ensures ToDecimal(Num(d), d.places) == d
  {
    ParseRender(d);
    var q := Quantize(d, d.places);
    assert q.coef == d.coef * Pow10(0) && Pow10(0) == 1;
    assert q == d;
    assert !EmptyMarker(Num(d)) && Str(Num(d)) == Render(d);
  }

  /** _to_int: None, "" and "null" give the default; a number is truncated
      toward zero; text is read as float() reads it and truncated, and text that
      is not a number gives the default. */
  function ToInt(c: Cell, default: Option<int>): (r: Option<int>)
    ensures EmptyMarker(c) ==> r == default
    ensures c.Num? ==> r == Some(Trunc(c.d))
    ensures default.Some? ==> r.Some?
    ensures c.Text? && !EmptyMarker(c) ==>
              r == (if ParseDec(c.s).Some? then Some(Trunc(ParseDec(c.s).value)) else default)
  {
    if EmptyMarker(c) then default
    else match c
      case Num(d) => Some(Trunc(d))
      case Text(s) =>
        match ParseDec(s)
        case None => default
        case Some(d) => Some(Trunc(d))
  }

  /** Text holding the digits of an integer reads back as that integer. */
  lemma ToIntOfText(n: int, default: Option<int>)
    ensures ToInt(Text(IntToString(n)), default) == Some(n)
  {
    ParseIntText(n);
    TruncWhole(n);
    assert IntToString(n)[0] != "null"[0];
  }

  // ------------------------------------------------------------ names

  function KeepAsciiAlnum(s: string): (r: string)
    ensures forall i :: 0 <= i < |r| ==> IsAsciiAlnum(r[i])
    ensures r == [] <==> forall i :: 0 <= i < |s| ==> !IsAsciiAlnum(s[i])
    ensures |r| <= |s|
  {
    if s == [] then []
    else (if IsAsciiAlnum(s[0]) then [s[0]] else []) + KeepAsciiAlnum(s[1..])
  }

  function LowerAscii(c: char): (r: char)
    ensures IsAsciiAlnum(c) ==> IsAsciiAlnum(r) && !('A' <= r <= 'Z')
  {
    if 'A' <= c <= 'Z' then (c as int + 32) as char else c
  }

  function Lower(s: string): (r: string)
    ensures |r| == |s| && forall i :: 0 <= i < |s| ==> r[i] == LowerAscii(s[i])
  {
    if s == [] then [] else [LowerAscii(s[0])] + Lower(s[1..])
  }

  /** _sanitize_username: "bj_" followed by the first twelve ASCII letters and
      digits of the name, lower-cased, or "bj_agent" when it has none. */
  function SanitizeUsername(name: string): (r: string)
    ensures StartsWith(r, "bj_") && 4 <= |r| <= 15
    ensures forall i :: 3 <= i < |r| ==> IsAsciiAlnum(r[i]) && !('A' <= r[i] <= 'Z')
    ensures (forall i :: 0 <= i < |name| ==> !IsAsciiAlnum(name[i])) ==> r == "bj_agent"
    ensures (exists i :: 0 <= i < |name| && IsAsciiAlnum(name[i])) ==>
              r == "bj_" + Take(Lower(KeepAsciiAlnum(name)), 12)
  {
    var base := UsernameBase(name);
    var r := "bj_" + Take(base, 12);
    assert forall i :: 3 <= i < |r| ==> r[i] == base[i - 3];
    assert base == "agent" ==> r == "bj_agent" by {
      if base == "agent" {
        assert Take(base, 12) == "agent";
        assert "bj_" + "agent" == ['b', 'j', '_', 'a', 'g', 'e', 'n', 't'];
      }
    }
    r
  }

  /** The ASCII letters and digits of the name, or "agent" when there are
      none, lower-cased. */
  function UsernameBase(name: string): (r: string)
    ensures 1 <= |r| && forall i :: 0 <= i < |r| ==> IsAsciiAlnum(r[i]) && !('A' <= r[i] <= 'Z')
    ensures (forall i :: 0 <= i < |name| ==> !IsAsciiAlnum(name[i])) ==> r == "agent"
    ensures (exists i :: 0 <= i < |name| && IsAsciiAlnum(name[i])) ==> r == Lower(KeepAsciiAlnum(name))
  {
    var ascii := KeepAsciiAlnum(name);
    LowerAgent();
    Lower(if ascii == [] then "agent" else ascii)
  }

  lemma LowerAgent()
    ensures Lower("agent") == "agent"
  {
    var l := Lower("agent");
    assert forall i :: 0 <= i < 5 ==> l[i] == "agent"[i];
  }

  // ------------------------------------------------------- house fields

  /** _normalize_house_type on the value of `house_type or layout`: falsy
      gives "1室"; one of the choices (after stripping) is kept; otherwise the
      first run of digits decides; no digits gives "1室". A non-text value
      cannot be stripped and raises. */
  function NormalizeHouseType(value: Cell): (r: Result<string>)
    ensures !Truthy(value) ==> r == Ok("1室")
    ensures Truthy(value) ==> (r.Ok? <==> value.Text?)
    ensures r.Err? ==> r.error == NoAttribute(value, "strip")
    ensures r.Ok? ==> r.value in HouseTypeChoices || r.value == "0室"
  {
    if !Truthy(value) then Ok("1室")
    else match value
      case Text(s) => Ok(HouseTypeOf(Strip(s)))
      case _ => Err(NoAttribute(value, "strip"))
  }

  function HouseTypeOf(v: string): (r: string)
    ensures r in HouseTypeChoices || r == "0室"
    ensures v in HouseTypeChoices ==> r == v
    ensures v !in HouseTypeChoices && FirstDigits(v, 0).None? ==> r == "1室"
    ensures v !in HouseTypeChoices && FirstDigits(v, 0).Some? ==>
              var (i, j) := FirstDigits(v, 0).value;
              r == FangScraper.RoomsToHouseType(NumberAt(v, i, j))
  {
    if v in HouseTypeChoices then v
    else match FirstDigits(v, 0)
      case None => "1室"
      case Some((i, j)) => FangScraper.RoomsToHouseType(NumberAt(v, i, j))
  }

  /** The first number in the text decides the type: five rooms or more is
      "5室及以上", one to four is "N室". */
  lemma HouseTypeOfRooms(n: nat, rest: string)
    requires NatToString(n) + "室" + rest !in HouseTypeChoices
    ensures n >= 5 ==> HouseTypeOf(NatToString(n) + "室" + rest) == "5室及以上"
    ensures 1 <= n < 5 ==> HouseTypeOf(NatToString(n) + "室" + rest) == HouseTypeChoices[n - 1]
    ensures n == 0 ==> HouseTypeOf(NatToString(n) + "室" + rest) == "0室"
  {
    DigitsAreDecimals(NatToString(n));
    HouseTypeOfDecimals(NatToString(n), rest);
  }

  /** The number may be written in any decimal digits, full-width ones
      included: int() reads them by value. */
  lemma HouseTypeOfDecimals(d: string, rest: string)
    requires AllDecimals(d) && |d| >= 1 && d + "室" + rest !in HouseTypeChoices
    ensures HouseTypeOf(d + "室" + rest) == FangScraper.RoomsToHouseType(DecimalsValue(d))
  {
    var s := d + "室" + rest;
    assert s[0] == d[0] && IsDecimal(s[0]);
    var (i, j) := FirstDigits(s, 0).value;
    assert i == 0;
    assert s[0..] == d + ("室" + rest);
    FangScraper.LeadingRunOfDigits(d, "室" + rest);
    assert s[0..j] == d;
  }

  /** "３室" is a three-room house, not the "1室" fallback. */
  lemma FullWidthHouseType()
    ensures HouseTypeOf("３室") == "3室"
  {
    assert IsDecimal('３') && DecimalValue('３') == 3;
    assert AsciiDecimals("３") == "3";
    assert "３" + "室" + "" == "３室";
    assert "３室" !in HouseTypeChoices;
    HouseTypeOfDecimals("３", "");
  }

  /** A category of the model's own list, or "0室", has no white space. */
  lemma HouseTypeUnspaced(t: string)
    requires t in HouseTypeChoices || t == "0室"
    ensures Strip(t) == t
  {
    assert t == HouseTypeChoices[0] || t == HouseTypeChoices[1] || t == HouseTypeChoices[2]
      || t == HouseTypeChoices[3] || t == HouseTypeChoices[4] || t == "0室";
    assert forall i :: 0 <= i < |t| ==> !IsSpace(t[i]);
  }

  /** What the scraper derives from a layout is accepted by the importer as it
      is: the two house-type rules agree on every category they produce. */
  lemma ScrapedHouseTypeKept(layout: string)
    requires FangScraper.ToHouseType(layout) != ""
    ensures NormalizeHouseType(Text(FangScraper.ToHouseType(layout))) == Ok(FangScraper.ToHouseType(layout))
  {
    var t := FangScraper.ToHouseType(layout);
    HouseTypeUnspaced(t);
    if t == "0室" {
      assert "0室" == NatToString(0) + "室" + "";
      assert t !in HouseTypeChoices;
      HouseTypeOfRooms(0, "");
    }
  }

  /** _normalize_orientation: falsy gives "", text loses every "向" and is
      stripped (the scraper's own rule), anything else has no replace() and
      raises. */
  function NormalizeOrientation(value: Cell): (r: Result<string>)
    ensures !Truthy(value) ==> r == Ok("")
    ensures Truthy(value) ==> (r.Ok? <==> value.Text?)
    ensures r.Err? ==> r.error == NoAttribute(value, "replace")
    ensures r.Ok? ==> '向' !in r.value && Strip(r.value) == r.value
    ensures value.Text? ==> r == Ok(FangScraper.NormalizeOrientation(value.s))
  {
    if !Truthy(value) then Ok("")
    else match value
      case Text(s) => Ok(FangScraper.NormalizeOrientation(s))
      case _ => Err(NoAttribute(value, "replace"))
  }

  /** An empty orientation falls back to "南北". */
  function OrientationOrDefault(o: string): (r: string)
    requires '向' !in o
    ensures r != "" && '向' !in r
  {
    assert "南北" == ['南', '北'];
    if o == "" then "南北" else o
  }

  /** (value or fallback).strip()[:n] for a text column. */
  function StrippedText(value: Cell, fallback: string, n: nat): (r: Result<string>)
    ensures r.Ok? ==> |r.value| <= n
    ensures !Truthy(value) ==> r == Ok(Take(Strip(fallback), n))
    ensures Truthy(value) ==> (r.Ok? <==> value.Text?)
    ensures r.Err? ==> r.error == NoAttribute(value, "strip")
  {
    match Or(value, Text(fallback))
    case Text(s) => Ok(Take(Strip(s), n))
    case _ => Err(NoAttribute(value, "strip"))
  }

  /** The status column when it names a House status, else "available". */
  function StatusOf(value: Cell): (r: string)
    ensures r in HouseStatusChoices
    ensures value.Text? && value.s in HouseStatusChoices ==> r == value.s
  {
    if value.Text? && value.s in HouseStatusChoices then value.s else "available"
  }

  /** `decoration or "精装"`, snapped to the three known decorations. */
  function DecorationOf(value: Cell): (r: string)
    ensures r in FangScraper.DecorationChoices
    ensures value.Text? && value.s in FangScraper.DecorationChoices ==> r == value.s
  {
    var d := Or(value, Text("精装"));
    if d.Text? && d.s in FangScraper.DecorationChoices then d.s else "精装"
  }

  /** The provenance line appended to the description. */
  function DescriptionExtra(row: Row): string
  {
    "来源: " + Str(GetOr(row, "data_source", Text("fang.com/top")))
      + " | 链接: " + Str(GetOr(row, "house_url", Text("")))
      + " | ID: " + Str(GetOr(row, "source_id", Text("")))
  }

  /** filter(None, parts) when every kept part is a string: the non-empty
      texts in order; None when a kept part is a number, which join rejects. */
  function TruthyTexts(parts: seq<Cell>): (r: Option<seq<string>>)
    ensures r.Some? <==> forall k :: 0 <= k < |parts| && Truthy(parts[k]) ==> parts[k].Text?
    ensures r.Some? ==> |r.value| <= |parts| && forall k :: 0 <= k < |r.value| ==> r.value[k] != "" && Text(r.value[k]) in parts
  {
    if parts == [] then Some([])
    else
      var rest := TruthyTexts(parts[1..]);
      if rest.None? then None
      else if !Truthy(parts[0]) then rest
      else if parts[0].Text? then Some([parts[0].s] + rest.value)
      else None
  }

  /** The first kept part that is not text, with its position among the kept
      parts (the item number str.join reports): every kept part before it
      is text. */
  function FirstNonText(parts: seq<Cell>): (r: Option<(nat, Cell)>)
    ensures r.None? <==> forall k :: 0 <= k < |parts| && Truthy(parts[k]) ==> parts[k].Text?
    ensures r.Some? ==> exists j ::
              && 0 <= j < |parts| && parts[j] == r.value.1
              && Truthy(parts[j]) && !parts[j].Text?
              && TruthyTexts(parts[..j]).Some? && r.value.0 == |TruthyTexts(parts[..j]).value|
  {
    if parts == [] then None
    else if Truthy(parts[0]) && !parts[0].Text? then
      assert parts[..0] == [];
      Some((0, parts[0]))
    else match FirstNonText(parts[1..])
      case None => None
      case Some((k, c)) =>
        var j :| 0 <= j < |parts[1..]| && parts[1..][j] == c && Truthy(parts[1..][j]) && !parts[1..][j].Text?
          && TruthyTexts(parts[1..][..j]).Some? && k == |TruthyTexts(parts[1..][..j]).value|;
        assert parts[..j + 1][1..] == parts[1..][..j];
        var n := if Truthy(parts[0]) then k + 1 else k;
        assert TruthyTexts(parts[..j + 1]).Some? && n == |TruthyTexts(parts[..j + 1]).value|;
        Some((n, c))
  }

  /** "\n".join(filter(None, parts)): a kept part that is not text stops the
      join with a TypeError naming its item number and type. */
  function JoinTruthy(parts: seq<Cell>): (r: Result<string>)
    ensures r.Ok? <==> forall k :: 0 <= k < |parts| && Truthy(parts[k]) ==> parts[k].Text?
    ensures r.Ok? ==> r.value == Join(TruthyTexts(parts).value, "\n")
    ensures r.Err? ==> var (k, c) := FirstNonText(parts).value;
      r.error == "sequence item " + NatToString(k) + ": expected str instance, " + TypeName(c) + " found"
  {
    match FirstNonText(parts)
    case Some((k, c)) => Err("sequence item " + NatToString(k) + ": expected str instance, " + TypeName(c) + " found")
    case None => Ok(Join(TruthyTexts(parts).value, "\n"))
  }

  /** Without a description of its own, a house's description begins with the
      provenance line. */
  lemma DescriptionStartsWithProvenance(row: Row)
    requires !Truthy(Get(row, "description"))
    requires JoinTruthy([Get(row, "description"), Text(DescriptionExtra(row)), Get(row, "tags")]).Ok?
    ensures StartsWith(JoinTruthy([Get(row, "description"), Text(DescriptionExtra(row)), Get(row, "tags")]).value,
                       DescriptionExtra(row))
  {
    var extra := DescriptionExtra(row);
    var parts := [Get(row, "description"), Text(extra), Get(row, "tags")];
    assert parts[1..] == [Text(extra), Get(row, "tags")];
    assert parts[1..][1..] == [Get(row, "tags")];
    assert |extra| > 0 && Truthy(parts[1]);
    var tail := TruthyTexts(parts[1..][1..]);
    assert tail.Some?;
    assert TruthyTexts(parts[1..]) == Some([extra] + tail.value);
    var texts := TruthyTexts(parts).value;
    assert texts == [extra] + tail.value;
    var j := Join(texts, "\n");
    if |texts| > 1 {
      assert j == extra + "\n" + Join(texts[1..], "\n");
      assert j[..|extra|] == extra;
    }
  }

  /** The text columns of a house, each normalised as the importer does it. */
  datatype TextFields = TextFields(houseType: string, orientation: string, description: string,
                                   title: string, address: string, floor: string)

  /** The text columns in the order _build_house_defaults reads them: the
      house type and the orientation first, then the description join, then
      the title, the address and the floor as it builds its result; the
      first that raises decides the error. */
  function HouseTextFields(row: Row): (r: Result<TextFields>)
    ensures r.Ok? ==> var f := r.value;
      && (f.houseType in HouseTypeChoices || f.houseType == "0室")
      && f.orientation != "" && '向' !in f.orientation
      && |f.address| <= 200 && |f.floor| <= 20 && |f.description| <= 1000
      && Get(row, "title").Text? && f.title == Strip(Get(row, "title").s)
    ensures r.Err? && NormalizeHouseType(Or(Get(row, "house_type"), Get(row, "layout"))).Err? ==>
      r.error == NormalizeHouseType(Or(Get(row, "house_type"), Get(row, "layout"))).error
    ensures NormalizeHouseType(Or(Get(row, "house_type"), Get(row, "layout"))).Ok? ==>
      (NormalizeOrientation(Get(row, "orientation")).Err? ==> r == Err(NoAttribute(Get(row, "orientation"), "replace")))
    ensures !Get(row, "title").Text? ==> r.Err?
  {
    match NormalizeHouseType(Or(Get(row, "house_type"), Get(row, "layout")))
    case Err(e) => Err(e)
    case Ok(houseType) =>
      match NormalizeOrientation(Get(row, "orientation"))
      case Err(e) => Err(e)
      case Ok(orientation) =>
        match JoinTruthy([Get(row, "description"), Text(DescriptionExtra(row)), Get(row, "tags")])
        case Err(e) => Err(e)
        case Ok(description) =>
          match Get(row, "title")
          case Null => Err(NoAttribute(Null, "strip"))
          case Num(d) => Err(NoAttribute(Num(d), "strip"))
          case Text(title) =>
            match StrippedText(Get(row, "address"), "", 200)
            case Err(e) => Err(e)
            case Ok(address) =>
              match StrippedText(Get(row, "floor"), "未知楼层", 20)
              case Err(e) => Err(e)
              case Ok(floor) =>
                Ok(TextFields(houseType, OrientationOrDefault(orientation), Take(description, 1000),
                              Strip(title), address, floor))
  }

  /** The house built from a row and the ids of its district and agent:
      _build_house_defaults together with the lookup fields. */
  function BuildHouse(row: Row, districtId: nat, agentId: nat, cover: string, now: int): (r: Result<House>)
    ensures r.Ok? ==> r.value.districtId == districtId && r.value.agentId == Some(agentId)
    ensures r.Err? <==> HouseTextFields(row).Err?
    ensures r.Err? ==> r.error == HouseTextFields(row).error
  {
    match HouseTextFields(row)
    case Err(e) => Err(e)
    case Ok(f) =>
      Ok(House(
        title := f.title,
        districtId := districtId,
        address := f.address,
        price := ToDecimal(Get(row, "price_total_wan"), 2),
        unitPrice := ToDecimal(Get(row, "unit_price"), 2),
        area := ToDecimal(Get(row, "area_sqm"), 2),
        houseType := f.houseType,
        floor := f.floor,
        totalFloors := ToInt(Get(row, "total_floors"), Some(1)).value,
        orientation := f.orientation,
        decoration := DecorationOf(Get(row, "decoration")),
        buildYear := ToInt(Get(row, "build_year"), None),
        longitude := Some(ToDecimal(Get(row, "longitude"), 7)),
        latitude := Some(ToDecimal(Get(row, "latitude"), 7)),
        description := f.description,
        coverImage := cover,
        status := StatusOf(Get(row, "status")),
        agentId := Some(agentId),
        views := 0,
        updatedAt := now))
  }

  /** The house built from a row keeps the column limits and the choices of
      the model, starts with no views, carries the given district, agent,
      cover and clock, and its title is the row's stripped; a row whose title
      is not text raises. */
  lemma BuiltHouseShape(row: Row, districtId: nat, agentId: nat, cover: string, now: int)
    ensures var r := BuildHouse(row, districtId, agentId, cover, now);
      r.Ok? ==> var h := r.value;
      && |h.address| <= 200 && |h.floor| <= 20 && |h.description| <= 1000
      && h.decoration in FangScraper.DecorationChoices && h.status in HouseStatusChoices
      && h.orientation != "" && '向' !in h.orientation && h.views == 0
      && (h.houseType in HouseTypeChoices || h.houseType == "0室")
      && h.coverImage == cover && h.updatedAt == now
      && (h.price == Dec(0, 0) || h.price.places == 2)
      && (h.longitude.Some? && h.latitude.Some?)
    ensures var r := BuildHouse(row, districtId, agentId, cover, now);
      r.Ok? && Get(row, "title").Text? ==> r.value.title == Strip(Get(row, "title").s)
    ensures !Get(row, "title").Text? ==> BuildHouse(row, districtId, agentId, cover, now).Err?
  {
  }

  /** The district name of a row: `district_name or region or "未知区域"`, the
      text before the first "-", stripped. */
  function DistrictName(row: Row): (r: Result<string>)
    ensures r.Ok? ==> '-' !in r.value && Strip(r.value) == r.value
    ensures Get(row, "district_name").Text? && Truthy(Get(row, "district_name")) ==>
              r == Ok(Strip(Before(Get(row, "district_name").s, '-')))
    ensures Truthy(Get(row, "district_name")) && !Get(row, "district_name").Text? ==>
              r == Err(NoAttribute(Get(row, "district_name"), "split"))
  {
    var cell := Or(Or(Get(row, "district_name"), Get(row, "region")), Text("未知区域"));
    match cell
    case Text(s) =>
      var b := Before(s, '-');
      StripWithin(b);
      StripIdempotent(b);
      Ok(Strip(b))
    case _ => Err(NoAttribute(cell, "split"))
  }

  /** A row with neither a district nor a region goes to "未知区域". */
  lemma DistrictNameDefault(row: Row)
    requires !Truthy(Get(row, "district_name")) && !Truthy(Get(row, "region"))
    ensures DistrictName(row) == Ok("未知区域")
  {
    var u := "未知区域";
    DefaultNameClean(u);
    assert Or(Or(Get(row, "district_name"), Get(row, "region")), Text(u)) == Text(u);
  }

  lemma DefaultNameClean(u: string)
    requires u == "未知区域"
    ensures Before(u, '-') == u && Strip(u) == u
  {
    assert '-' !in u;
    assert forall i :: 0 <= i < |u| ==> !IsSpace(u[i]);
  }

  /** A region the scraper wrote as "district-sub" lands in the district the
      scraper split off. */
  lemma DistrictOfScrapedRegion(row: Row, district: string, sub: string)
    requires !Truthy(Get(row, "district_name"))
    requires Get(row, "region") == Text(district + "-" + sub)
    requires '-' !in district && Strip(district) == district
    ensures DistrictName(row) == Ok(district)
  {
    BeforeConcat(district, '-', sub);
    assert district + "-" + sub == district + ['-'] + sub;
  }

  /** The description a new district gets: the region, or "". */
  function DistrictDescription(row: Row): string
  {
    Str(Or(Get(row, "region"), Text("")))
  }

  /** The path stored for a cover image: without the MEDIA_URL prefix and the
      slashes after it. */
  function MediaRelative(path: string): (r: string)
    ensures !StartsWith(path, MediaUrl) ==> r == path
    ensures StartsWith(path, MediaUrl) ==> r == LStripChar(path[|MediaUrl|..], '/')
  {
    if StartsWith(path, MediaUrl) then LStripChar(path[|MediaUrl|..], '/') else path
  }

  // ------------------------------------------------------------ districts

  /** An existing district as get_or_create finds it: its city is forced to
      北京 and an empty description takes the row's region. */
  function Patched(d: District, description: string): (r: District)
    ensures r.name == d.name && r.city == DefaultCity
    ensures d.description != "" ==> r.description == d.description
    ensures d.description == "" ==> r.description == description
  {
    d.(city := DefaultCity, description := if d.description == "" then description else d.description)
  }

  function NameIs(name: string): District -> bool
  {
    (d: District) => d.name == name
  }

  /** District.objects.get(name=name), None when there is none. */
  function NamedDistrict(t: Tables, name: string): (r: Option<nat>)
    ensures r.Some? ==> r.value in t.districts && t.districts[r.value].name == name
    ensures r.None? && t.DistrictIdsBelow() ==> forall k :: k in t.districts ==> t.districts[k].name != name
  {
    FirstKey(t.districts, NameIs(name), 0, t.nextId)
  }

  /** _get_or_create_district: the district called `name`, patched if it
      exists, created in 北京 with the given description otherwise; with its id. */
  function DistrictUpsert(t: Tables, name: string, description: string): (r: (Tables, nat))
    ensures r.1 in r.0.districts && r.0.districts[r.1].name == name && r.0.districts[r.1].city == DefaultCity
    ensures forall k :: k in t.districts ==> k in r.0.districts
    ensures forall k :: k in t.districts && k != r.1 ==> r.0.districts[k] == t.districts[k]
    ensures r.0.users == t.users && r.0.houses == t.houses && r.0.images == t.images
    ensures r.0.transactions == t.transactions && r.0.favorites == t.favorites && r.0.alerts == t.alerts
    ensures r.0.nextId >= t.nextId && (r.1 !in t.districts ==> r.1 == t.nextId && r.0.nextId == t.nextId + 1)
  {
    match NamedDistrict(t, name)
    case Some(k) => (t.(districts := t.districts[k := Patched(t.districts[k], description)]), k)
    case None => (t.(districts := t.districts[t.nextId := District(name, DefaultCity, description)], nextId := t.nextId + 1), t.nextId)
  }

  /** The upsert keeps the store consistent. */
  lemma DistrictUpsertValid(t: Tables, name: string, description: string)
    requires t.Valid()
    ensures DistrictUpsert(t, name, description).0.Valid()
  {
    DistrictUpsertUnique(t, name, description);
    DistrictUpsertLinked(t, name, description);
  }

  lemma DistrictUpsertLinked(t: Tables, name: string, description: string)
    requires t.IdsBelow() && t.HousesLinked() && t.ChildrenLinked() && t.AlertStatusesValid()
    ensures var r := DistrictUpsert(t, name, description).0;
      r.IdsBelow() && r.HousesLinked() && r.ChildrenLinked() && r.AlertStatusesValid()
  {
    var (r, id) := DistrictUpsert(t, name, description);
    assert forall k :: k in r.districts ==> k < r.nextId by {
      assert forall k :: k in r.districts ==> k in t.districts || k == id;
    }
    DistrictsGrownLinked(t, r.districts, r.nextId);
    assert r == t.(districts := r.districts, nextId := r.nextId);
  }

  lemma DistrictUpsertUnique(t: Tables, name: string, description: string)
    requires t.Unique() && t.IdsBelow()
    ensures DistrictUpsert(t, name, description).0.Unique()
  {
    DistrictNamesStayUnique(t, name, description);
  }

  lemma DistrictNamesStayUnique(t: Tables, name: string, description: string)
    requires t.DistrictNamesUnique() && t.DistrictIdsBelow()
    ensures DistrictUpsert(t, name, description).0.DistrictNamesUnique()
  {
    var (r, id) := DistrictUpsert(t, name, description);
    forall a, b | a in r.districts && b in r.districts && a != b
      ensures r.districts[a].name != r.districts[b].name
    {
      if a != id && b != id {
        assert r.districts[a] == t.districts[a] && r.districts[b] == t.districts[b];
      }
    }
  }

  /** Importing a second row of the same district finds the district the first
      one left and changes nothing more. */
  lemma DistrictUpsertIdempotent(t: Tables, name: string, description: string)
    requires t.DistrictNamesUnique() && t.DistrictIdsBelow()
    ensures var (r, id) := DistrictUpsert(t, name, description);
      DistrictUpsert(r, name, description) == (r, id)
  {
    var (r, id) := DistrictUpsert(t, name, description);
    UpsertFoundAgain(t, name, description);
    DistrictUpsertDescription(t, name, description);
    var d := r.districts[id];
    PatchedFixed(d, description);
    assert r.districts[id := d] == r.districts;
  }

  /** After the upsert the district is found by its name. */
  lemma UpsertFoundAgain(t: Tables, name: string, description: string)
    requires t.DistrictNamesUnique() && t.DistrictIdsBelow()
    ensures var (r, id) := DistrictUpsert(t, name, description);
      NamedDistrict(r, name) == Some(id)
  {
    var (r, id) := DistrictUpsert(t, name, description);
    DistrictNamesStayUnique(t, name, description);
    assert forall k :: k in r.districts ==> k in t.districts || k == id;
    NamedUnique(r, name, id);
  }

  /** With unique names, the district called name is found by name. */
  lemma NamedUnique(r: Tables, name: string, id: nat)
    requires r.DistrictNamesUnique() && r.DistrictIdsBelow()
    requires id in r.districts && r.districts[id].name == name
    ensures NamedDistrict(r, name) == Some(id)
  {
    var found := FirstKey(r.districts, NameIs(name), 0, r.nextId);
    assert NameIs(name)(r.districts[id]);
  }

  /** The upserted district's description is empty only when the row's is. */
  lemma DistrictUpsertDescription(t: Tables, name: string, description: string)
    ensures var (r, id) := DistrictUpsert(t, name, description);
      r.districts[id].description == "" ==> description == ""
  {
  }

  lemma PatchedFixed(d: District, description: string)
    requires d.city == DefaultCity && (d.description == "" ==> description == "")
    ensures Patched(d, description) == d
  {
  }

  /** _get_or_create_district on the store. */
  method GetOrCreateDistrict(db: Db, row: Row) returns (r: Result<nat>)
    requires db.Valid()
    modifies db
    ensures db.Valid()
    ensures r.Ok? <==> DistrictName(row).Ok?
    ensures r.Err? ==> r.error == DistrictName(row).error && db.tables == old(db.tables)
    ensures r.Ok? ==> (db.tables, r.value) == DistrictUpsert(old(db.tables), DistrictName(row).value, DistrictDescription(row))
  {
    var name := DistrictName(row);
    if name.Err? {
      return Err(name.error);
    }
    var description := DistrictDescription(row);
    ghost var t := db.tables;
    DistrictUpsertValid(t, name.value, description);
    var found := NamedDistrict(db.tables, name.value);
    if found.Some? {
      var k := found.value;
      assert forall j :: j in db.tables.districts && j != k ==> db.tables.districts[j].name != name.value by {
        assert t.Unique();
      }
      db.SetDistrict(k, Patched(db.tables.districts[k], description));
      r := Ok(k);
      UpsertOfFound(t, name.value, description, k, db.tables);
    } else {
      var id := db.AddDistrict(District(name.value, DefaultCity, description));
      r := Ok(id);
      UpsertOfMissing(t, name.value, description, db.tables);
    }
  }

  lemma UpsertOfFound(t: Tables, name: string, description: string, k: nat, s: Tables)
    requires NamedDistrict(t, name) == Some(k)
    requires s == t.(districts := t.districts[k := Patched(t.districts[k], description)])
    ensures DistrictUpsert(t, name, description) == (s, k)
  {
  }

  lemma UpsertOfMissing(t: Tables, name: string, description: string, s: Tables)
    requires NamedDistrict(t, name) == None
    requires s == t.(districts := t.districts[t.nextId := District(name, DefaultCity, description)], nextId := t.nextId + 1)
    ensures DistrictUpsert(t, name, description) == (s, t.nextId)
  {
  }

  // --------------------------------------------------------------- agents

  /** The randomness one row of the import consumes: the cover image drawn for
      the house, the phone numbers drawn until one is free, the random
      password and the wall clock (as %H%M%S%f and as a timestamp). */
  datatype RowEnv = RowEnv(cover: string, phoneDraws: seq<PhoneDraw>, password: string, clock: string, now: int)

  /** Eight characters drawn from "0123456789". */
  type DigitString8 = s: string | |s| == 8 && AllDigits(s) witness "00000000"

  /** A random phone: the index of the drawn prefix and the eight drawn digits. */
  datatype PhoneDraw = PhoneDraw(prefix: nat, suffix: DigitString8)

  /** An eleven-digit mobile number starting with one of the prefixes. */
  predicate IsMobile(p: string)
  {
    |p| == 11 && AllDigits(p) && p[..3] in PhonePrefixes
  }

  function PhoneOf(d: PhoneDraw): (p: string)
    ensures IsMobile(p)
    ensures p[..3] == PhonePrefixes[d.prefix % 12] && p[3..] == d.suffix
  {
    var prefix := PhonePrefixes[d.prefix % 12];
    assert |prefix| == 3 && AllDigits(prefix);
    AllDigitsConcat(prefix, d.suffix);
    var p := prefix + d.suffix;
    assert p[..3] == prefix && p[3..] == d.suffix;
    p
  }

  predicate PhoneInUse(users: map<nat, User>, p: string)
  {
    exists k :: k in users && users[k].phone == p
  }

  /** Draw i is the first whose phone is free. */
  predicate FirstFreeDraw(users: map<nat, User>, draws: seq<PhoneDraw>, i: int)
  {
    && 0 <= i < |draws| && !PhoneInUse(users, PhoneOf(draws[i]))
    && forall j :: 0 <= j < i ==> PhoneInUse(users, PhoneOf(draws[j]))
  }

  /** _generate_unique_phone: the first drawn phone no user has. The source
      draws for ever; here the draws are a finite sequence and running out of
      them yields None. */
  method GenerateUniquePhone(db: Db, draws: seq<PhoneDraw>) returns (phone: Option<string>)
    ensures phone.Some? ==> IsMobile(phone.value) && !PhoneInUse(db.tables.users, phone.value)
    ensures phone.Some? ==> exists i :: FirstFreeDraw(db.tables.users, draws, i) && phone.value == PhoneOf(draws[i])
    ensures phone.None? ==> forall i :: 0 <= i < |draws| ==> PhoneInUse(db.tables.users, PhoneOf(draws[i]))
  {
    var i := 0;
    while i < |draws|
      invariant 0 <= i <= |draws|
      invariant forall j :: 0 <= j < i ==> PhoneInUse(db.tables.users, PhoneOf(draws[j]))
    {
      var candidate := PhoneOf(draws[i]);
      if !PhoneInUse(db.tables.users, candidate) {
        assert FirstFreeDraw(db.tables.users, draws, i);
        return Some(candidate);
      }
      i := i + 1;
    }
    return None;
  }

  function AgentRealNameIs(name: string): User -> bool
  {
    (u: User) => u.role == "agent" && u.realName == name
  }

  function AgentUsernameIs(name: string): User -> bool
  {
    (u: User) => u.role == "agent" && u.username == name
  }

  function IsAgent(): User -> bool
  {
    (u: User) => u.role == "agent"
  }

  predicate UsernameInUse(users: map<nat, User>, name: string)
  {
    exists k :: k in users && users[k].username == name
  }

  /** The user row create_user writes for a new agent. */
  function NewAgent(username: string, password: string, phone: string, realName: string): (u: User)
    ensures u.role == "agent" && u.verified && u.active && !u.staff && !u.superuser
    ensures u.company == AgentCompany
  {
    User(username, password, phone, "", "agent", realName, AgentCompany, true, true, false, false)
  }

  /** MySQL's duplicate-key error (1062) for the unique username column, as
      the IntegrityError prints it. */
  function DuplicateUsername(username: string): string
  {
    "(1062, \"Duplicate entry '" + username + "' for key 'users.username'\")"
  }

  /** create_user for an agent: fails on a taken username (the unique column) and
      when no drawn phone is free. */
  method CreateAgent(db: Db, username: string, realName: string, env: RowEnv) returns (r: Result<nat>)
    requires db.Valid()
    modifies db
    ensures db.Valid()
    ensures r.Err? ==> db.tables == old(db.tables)
    ensures UsernameInUse(old(db.tables.users), username) ==> r == Err(DuplicateUsername(username))
    ensures r.Ok? ==> r.value == old(db.tables.nextId) && r.value in db.tables.users
    ensures r.Ok? ==> db.tables.users[r.value].username == username && db.tables.users[r.value].realName == realName
    ensures r.Ok? ==> db.tables.users[r.value].role == "agent" && IsMobile(db.tables.users[r.value].phone)
    ensures r.Ok? ==> !PhoneInUse(old(db.tables.users), db.tables.users[r.value].phone)
    ensures r.Ok? ==> db.tables == old(db.tables).(users := old(db.tables.users)[r.value := db.tables.users[r.value]], nextId := r.value + 1)
  {
    if UsernameInUse(db.tables.users, username) {
      return Err(DuplicateUsername(username));
    }
    var phone := GenerateUniquePhone(db, env.phoneDraws);
    if phone.None? {
      return Err("no free phone number among the draws");
    }
    var u := NewAgent(username, env.password, phone.value, realName);
    var id := db.AddUser(u);
    r := Ok(id);
  }

  /** _default_agent: the agent with the smallest id, or a new "beijing_agent". */
  method DefaultAgent(db: Db, env: RowEnv) returns (r: Result<nat>)
    requires db.Valid()
    modifies db
    ensures db.Valid()
    ensures r.Ok? ==> r.value in db.tables.users && db.tables.users[r.value].role == "agent"
    ensures DefaultChosen(old(db.tables), db.tables, r)
  {
    var first := FirstKey(db.tables.users, IsAgent(), 0, db.tables.nextId);
    if first.Some? {
      return Ok(first.value);
    }
    r := CreateAgent(db, "beijing_agent", "北京经纪人", env);
  }

  /** The agent name of a row: the agent_name cell, or "", stripped. A truthy
      cell that is not text has no strip(). */
  function AgentName(row: Row): (r: Result<string>)
    ensures Truthy(Get(row, "agent_name")) && !Get(row, "agent_name").Text? ==>
              r == Err(NoAttribute(Get(row, "agent_name"), "strip"))
    ensures Get(row, "agent_name").Text? ==> r == Ok(Strip(Get(row, "agent_name").s))
    ensures !Truthy(Get(row, "agent_name")) ==> r == Ok("")
  {
    var cell := Or(Get(row, "agent_name"), Text(""));
    if cell.Text? then Ok(Strip(cell.s)) else Err(NoAttribute(cell, "strip"))
  }

  /** The user found by username, with an empty real name filled in. */
  function Backfilled(u: User, name: string): (v: User)
    ensures v.realName == (if u.realName == "" then name else u.realName)
    ensures v == u.(realName := v.realName)
  {
    if u.realName == "" then u.(realName := name) else u
  }

  /** after is before with one new agent under the next id, and nothing else changed. */
  ghost predicate AgentAdded(before: Tables, after: Tables, id: nat)
  {
    && id == before.nextId && id in after.users && after.users[id].role == "agent"
    && after == before.(users := before.users[id := after.users[id]], nextId := id + 1)
  }

  /** _default_agent on the store before: the first agent is returned and
      nothing changes; without one, "beijing_agent" is added or the store is
      left as it was. */
  ghost predicate DefaultChosen(before: Tables, after: Tables, r: Result<nat>)
  {
    var first := FirstKey(before.users, IsAgent(), 0, before.nextId);
    && (first.Some? ==> r == Ok(first.value) && after == before)
    && (r.Err? ==> after == before)
    && (first.None? && r.Ok? ==>
          AgentAdded(before, after, r.value)
          && after.users[r.value].username == "beijing_agent" && after.users[r.value].realName == "北京经纪人")
  }

  /** _get_or_create_agent for a non-blank name on the store before: the first
      agent with that real name wins and nothing changes; else the first agent
      with that username, whose empty real name is filled in and nothing else;
      else a new agent carrying the name, or on failure no change. */
  ghost predicate NamedChosen(before: Tables, after: Tables, name: string, clock: string, r: Result<nat>)
  {
    var byRealName := FirstKey(before.users, AgentRealNameIs(name), 0, before.nextId);
    var byUsername := FirstKey(before.users, AgentUsernameIs(name), 0, before.nextId);
    if byRealName.Some? then r == Ok(byRealName.value) && after == before
    else if byUsername.Some? then
      r == Ok(byUsername.value)
      && after == before.(users := before.users[byUsername.value := Backfilled(before.users[byUsername.value], name)])
    else
      && (r.Err? ==> after == before)
      && (r.Ok? ==>
            AgentAdded(before, after, r.value)
            && after.users[r.value].realName == name
            && after.users[r.value].username == NewUsername(before.users, name, clock))
  }

  /** What _get_or_create_agent does to the store, by the row's agent name. */
  ghost predicate AgentOutcome(before: Tables, after: Tables, row: Row, clock: string, r: Result<nat>)
  {
    match AgentName(row)
    case Err(e) => r == Err(e) && after == before
    case Ok(name) =>
      if name == "" then DefaultChosen(before, after, r) else NamedChosen(before, after, name, clock, r)
  }

  /** The username of a new agent: the sanitised name, with the clock appended
      when a user already has it. */
  function NewUsername(users: map<nat, User>, name: string, clock: string): (r: string)
    ensures StartsWith(r, SanitizeUsername(name))
    ensures !UsernameInUse(users, SanitizeUsername(name)) ==> r == SanitizeUsername(name)
  {
    var base := SanitizeUsername(name);
    if UsernameInUse(users, base) then base + "_" + clock else base
  }

  /** _get_or_create_agent: the agent named in the row, found by real name,
      then by username (filling in an empty real name), or created; a row
      without an agent gets the default agent. */
  method GetOrCreateAgent(db: Db, row: Row, env: RowEnv) returns (r: Result<nat>)
    requires db.Valid()
    modifies db
    ensures db.Valid()
    ensures r.Ok? ==> r.value in db.tables.users && db.tables.users[r.value].role == "agent"
    ensures forall k :: k in old(db.tables.users) ==> k in db.tables.users
    ensures db.tables == old(db.tables).(users := db.tables.users, nextId := db.tables.nextId)
    ensures old(db.tables.nextId) <= db.tables.nextId
    ensures AgentOutcome(old(db.tables), db.tables, row, env.clock, r)
  {
    var name := AgentName(row);
    if name.Err? {
      return Err(name.error);
    }
    if name.value == "" {
      r := DefaultAgent(db, env);
      return;
    }
    r := NamedAgent(db, name.value, env);
  }

  /** The search for a non-blank agent name: by real name, then by username
      (filling in an empty real name), else a new agent. */
  method NamedAgent(db: Db, name: string, env: RowEnv) returns (r: Result<nat>)
    requires db.Valid()
    modifies db
    ensures db.Valid()
    ensures r.Ok? ==> r.value in db.tables.users && db.tables.users[r.value].role == "agent"
    ensures forall k :: k in old(db.tables.users) ==> k in db.tables.users
    ensures db.tables == old(db.tables).(users := db.tables.users, nextId := db.tables.nextId)
    ensures old(db.tables.nextId) <= db.tables.nextId
    ensures NamedChosen(old(db.tables), db.tables, name, env.clock, r)
  {
    var byRealName := FirstKey(db.tables.users, AgentRealNameIs(name), 0, db.tables.nextId);
    if byRealName.Some? {
      return Ok(byRealName.value);
    }
    var byUsername := FirstKey(db.tables.users, AgentUsernameIs(name), 0, db.tables.nextId);
    if byUsername.Some? {
      var k := byUsername.value;
      if db.tables.users[k].realName == "" {
        db.SetUser(k, Backfilled(db.tables.users[k], name));
      } else {
        assert db.tables.users[k := Backfilled(db.tables.users[k], name)] == db.tables.users;
      }
      return Ok(k);
    }
    r := CreateAgent(db, NewUsername(db.tables.users, name, env.clock), name, env);
  }

  /** A row written under a key every earlier row lacks is the first match:
      how a second search finds the agent the first call created or filled in. */
  lemma FirstKeyAt<V>(m: map<nat, V>, p: V -> bool, k: nat, v: V, bound: nat)
    requires k < bound && p(v)
    requires forall j :: j in m && j < k ==> !p(m[j])
    ensures FirstKey(m[k := v], p, 0, bound) == Some(k)
  {
    var m' := m[k := v];
    assert k in m' && p(m'[k]);
  }

  /** The agent _get_or_create_agent returns without changing anything: the
      first agent for a blank name, else the agent NamedFound finds. None when
      the call would add a user or fill in a real name. */
  function AgentFound(t: Tables, row: Row): (r: Option<nat>)
    ensures r.Some? ==> r.value in t.users && t.users[r.value].role == "agent"
  {
    match AgentName(row)
    case Err(_) => None
    case Ok(name) =>
      if name == "" then FirstKey(t.users, IsAgent(), 0, t.nextId) else NamedFound(t.users, name, t.nextId)
  }

  /** For a non-blank name: the first agent with it as real name, or the first
      with it as username when that one already has a real name. */
  function NamedFound(users: map<nat, User>, name: string, bound: nat): (r: Option<nat>)
    ensures r.Some? ==> r.value in users && users[r.value].role == "agent"
  {
    var byRealName := FirstKey(users, AgentRealNameIs(name), 0, bound);
    var byUsername := FirstKey(users, AgentUsernameIs(name), 0, bound);
    if byRealName.Some? then byRealName
    else if byUsername.Some? && users[byUsername.value].realName != "" then byUsername
    else None
  }

  /** When the agent is found, _get_or_create_agent returns it and changes nothing. */
  lemma AgentFoundOutcome(t: Tables, after: Tables, row: Row, clock: string, r: Result<nat>)
    requires AgentFound(t, row).Some? && AgentOutcome(t, after, row, clock, r)
    ensures r == Ok(AgentFound(t, row).value) && after == t
  {
    var name := AgentName(row).value;
    var k := AgentFound(t, row).value;
    if name != "" {
      if FirstKey(t.users, AgentRealNameIs(name), 0, t.nextId).Some? {
        FoundByRealName(t, after, name, clock, r, k);
      } else {
        FoundByUsername(t, after, name, clock, r, k);
      }
    }
  }

  /** After a successful _get_or_create_agent its agent is found: the call
      either found it or left it where a later search finds it. */
  lemma AgentOutcomeFound(before: Tables, between: Tables, row: Row, clock: string, r: Result<nat>)
    requires AgentOutcome(before, between, row, clock, r) && r.Ok?
    ensures AgentFound(between, row) == Some(r.value)
  {
    var name := AgentName(row).value;
    if name == "" {
      DefaultFoundAgain(before, between, r);
    } else {
      NamedFoundAgain(before, between, name, clock, r);
      NamedFoundOf(between.users, name, between.nextId, r.value);
    }
  }

  /** The default agent, once found or added, is the first agent. */
  lemma DefaultFoundAgain(before: Tables, between: Tables, r: Result<nat>)
    requires DefaultChosen(before, between, r) && r.Ok?
    ensures FirstKey(between.users, IsAgent(), 0, between.nextId) == Some(r.value)
  {
    if FirstKey(before.users, IsAgent(), 0, before.nextId).None? {
      FirstKeyAt(before.users, IsAgent(), r.value, between.users[r.value], between.nextId);
    }
  }

  /** The two ways NamedFound finds an agent. */
  lemma NamedFoundOf(users: map<nat, User>, name: string, bound: nat, k: nat)
    requires || FirstKey(users, AgentRealNameIs(name), 0, bound) == Some(k)
             || (&& FirstKey(users, AgentRealNameIs(name), 0, bound).None?
                 && FirstKey(users, AgentUsernameIs(name), 0, bound) == Some(k)
                 && k in users && users[k].realName != "")
    ensures NamedFound(users, name, bound) == Some(k)
  {
  }

  /** Which agent is found depends only on the users, under any bound above their ids. */
  lemma AgentFoundStable(t: Tables, u: Tables, row: Row)
    requires u.users == t.users && t.nextId <= u.nextId
    requires forall k :: k in t.users ==> k < t.nextId
    ensures AgentFound(u, row) == AgentFound(t, row)
  {
    match AgentName(row)
    case Err(_) =>
    case Ok(name) =>
      if name == "" {
        FirstKeyStable(t.users, IsAgent(), t.nextId, u.nextId);
      } else {
        NamedFoundStable(t.users, name, t.nextId, u.nextId);
      }
  }

  lemma NamedFoundStable(users: map<nat, User>, name: string, b1: nat, b2: nat)
    requires (forall k :: k in users ==> k < b1) && b1 <= b2
    ensures NamedFound(users, name, b2) == NamedFound(users, name, b1)
  {
    FirstKeyStable(users, AgentRealNameIs(name), b1, b2);
    FirstKeyStable(users, AgentUsernameIs(name), b1, b2);
  }

  /** A second _get_or_create_agent for the same row, on the store the first
      successful call left, returns the same agent and changes nothing: no
      second user is created and no real name is overwritten. */
  lemma AgentOutcomeRepeat(before: Tables, between: Tables, after: Tables, row: Row, clock: string, first: Result<nat>, second: Result<nat>)
    requires AgentOutcome(before, between, row, clock, first) && first.Ok?
    requires AgentOutcome(between, after, row, clock, second)
    ensures second == first && after == between
  {
    AgentOutcomeFound(before, between, row, clock, first);
    AgentFoundOutcome(between, after, row, clock, second);
  }

  /** After the first call, its agent is the first with the real name, or it
      is the first with the username and already has a real name of its own. */
  lemma NamedFoundAgain(before: Tables, between: Tables, name: string, clock: string, first: Result<nat>)
    requires NamedChosen(before, between, name, clock, first) && first.Ok?
    ensures var k := first.value;
      || FirstKey(between.users, AgentRealNameIs(name), 0, between.nextId) == Some(k)
      || (&& FirstKey(between.users, AgentRealNameIs(name), 0, between.nextId).None?
          && FirstKey(between.users, AgentUsernameIs(name), 0, between.nextId) == Some(k)
          && k in between.users && between.users[k].realName != "")
  {
    var k := first.value;
    var byRealName := FirstKey(before.users, AgentRealNameIs(name), 0, before.nextId);
    var byUsername := FirstKey(before.users, AgentUsernameIs(name), 0, before.nextId);
    if byRealName.Some? {
    } else if byUsername.None? {
      AddedFoundAgain(before, between, name, k);
    } else if before.users[k].realName == "" {
      BackfilledFoundAgain(before, between, name, k);
    } else {
      assert before.users[k := Backfilled(before.users[k], name)] == before.users;
    }
  }

  /** An agent added with the name is the first with that real name. */
  lemma AddedFoundAgain(before: Tables, between: Tables, name: string, k: nat)
    requires FirstKey(before.users, AgentRealNameIs(name), 0, before.nextId).None?
    requires AgentAdded(before, between, k) && between.users[k].realName == name
    ensures FirstKey(between.users, AgentRealNameIs(name), 0, between.nextId) == Some(k)
  {
    FirstKeyAt(before.users, AgentRealNameIs(name), k, between.users[k], between.nextId);
  }

  /** An agent found by username whose real name was filled in is the first
      with that real name. */
  lemma BackfilledFoundAgain(before: Tables, between: Tables, name: string, k: nat)
    requires FirstKey(before.users, AgentRealNameIs(name), 0, before.nextId).None?
    requires FirstKey(before.users, AgentUsernameIs(name), 0, before.nextId) == Some(k)
    requires before.users[k].realName == ""
    requires between == before.(users := before.users[k := Backfilled(before.users[k], name)])
    ensures FirstKey(between.users, AgentRealNameIs(name), 0, between.nextId) == Some(k)
  {
    FirstKeyAt(before.users, AgentRealNameIs(name), k, between.users[k], between.nextId);
  }

  /** The first agent with the real name is returned and nothing changes. */
  lemma FoundByRealName(t: Tables, after: Tables, name: string, clock: string, r: Result<nat>, k: nat)
    requires FirstKey(t.users, AgentRealNameIs(name), 0, t.nextId) == Some(k)
    requires NamedChosen(t, after, name, clock, r)
    ensures r == Ok(k) && after == t
  {
  }

  /** Without a real-name match, the first agent with the username is returned. */
  lemma FoundByUsername(t: Tables, after: Tables, name: string, clock: string, r: Result<nat>, k: nat)
    requires FirstKey(t.users, AgentRealNameIs(name), 0, t.nextId).None?
    requires FirstKey(t.users, AgentUsernameIs(name), 0, t.nextId) == Some(k)
    requires NamedChosen(t, after, name, clock, r)
    ensures r == Ok(k) && after == t.(users := t.users[k := Backfilled(t.users[k], name)])
    ensures t.users[k].realName != "" ==> after == t
  {
    if t.users[k].realName != "" {
      assert t.users[k := Backfilled(t.users[k], name)] == t.users;
    }
  }

  // --------------------------------------------------------------- houses

  /** Two houses with the same update_or_create lookup: title, district, address. */
  predicate SameLookup(a: House, b: House)
  {
    a.title == b.title && a.districtId == b.districtId && a.address == b.address
  }

  /** Two distinct houses a and b both match the lookup of h. */
  predicate TwoMatches(houses: map<nat, House>, h: House, a: nat, b: nat)
  {
    a in houses && b in houses && a != b && SameLookup(houses[a], h) && SameLookup(houses[b], h)
  }

  function LookupIs(h: House): House -> bool
  {
    (g: House) => SameLookup(g, h)
  }

  /** What get() finds for the lookup of h among the houses with ids below bound. */
  datatype Lookup = NoMatch | OneMatch(id: nat) | Several(a: nat, b: nat)

  /** The lookup by id order: the first match and, after it, a second one. */
  function HouseLookup(houses: map<nat, House>, h: House, bound: nat): (r: Lookup)
    ensures r.OneMatch? ==> r.id in houses && SameLookup(houses[r.id], h)
    ensures r.Several? ==> TwoMatches(houses, h, r.a, r.b)
  {
    var first := FirstKey(houses, LookupIs(h), 0, bound);
    if first.None? then NoMatch
    else
      var second := FirstKey(houses, LookupIs(h), first.value + 1, bound);
      if second.Some? then Several(first.value, second.value) else OneMatch(first.value)
  }

  /** When every id is below the bound, the lookup misses nothing: no match
      means no house matches, one match is the only one, and it reports
      several exactly when two distinct houses match. */
  lemma {:induction false} HouseLookupComplete(houses: map<nat, House>, h: House, bound: nat)
    requires forall k :: k in houses ==> k < bound
    ensures HouseLookup(houses, h, bound).NoMatch? ==> forall k :: k in houses ==> !SameLookup(houses[k], h)
    ensures HouseLookup(houses, h, bound).OneMatch? ==>
      forall k :: k in houses && SameLookup(houses[k], h) ==> k == HouseLookup(houses, h, bound).id
    ensures HouseLookup(houses, h, bound).Several? <==> exists a, b :: TwoMatches(houses, h, a, b)
  {
    var first := FirstKey(houses, LookupIs(h), 0, bound);
    if first.Some? {
      var second := FirstKey(houses, LookupIs(h), first.value + 1, bound);
      if second.None? {
        forall k | k in houses && SameLookup(houses[k], h)
          ensures k == first.value
        {
          assert LookupIs(h)(houses[k]);
        }
      }
    } else {
      forall k | k in houses
        ensures !SameLookup(houses[k], h)
      {
        assert !LookupIs(h)(houses[k]);
      }
    }
  }

  /** The ids of the houses matching the lookup of h, and their number. */
  function Matches(houses: map<nat, House>, h: House): set<nat>
  {
    set k | k in houses && SameLookup(houses[k], h)
  }

  function MatchCount(houses: map<nat, House>, h: House): nat
  {
    |Matches(houses, h)|
  }

  /** Two distinct matches make a count of at least two. */
  lemma SeveralCounted(houses: map<nat, House>, h: House, a: nat, b: nat)
    requires TwoMatches(houses, h, a, b)
    ensures MatchCount(houses, h) >= 2
  {
    assert a in Matches(houses, h) && b in Matches(houses, h);
    assert |{a, b}| == 2;
    SubsetCard({a, b}, Matches(houses, h));
  }

  /** MultipleObjectsReturned from get(): it fetches at most 21 rows and
      names the count it saw, or "more than 20" when it saw all 21. */
  function MultipleHouses(count: nat): (e: string)
    ensures count < 21 ==> e == "get() returned more than one House -- it returned " + NatToString(count) + "!"
    ensures count >= 21 ==> e == "get() returned more than one House -- it returned more than 20!"
  {
    "get() returned more than one House -- it returned " + (if count < 21 then NatToString(count) else "more than 20") + "!"
  }

  /** House.objects.update_or_create(defaults, **lookup) for a house row h
      carrying both: several matches raise MultipleObjectsReturned; otherwise
      the save (an UPDATE of the one match, or an INSERT) is refused when a
      numeric column cannot hold h's value; one match is overwritten with h
      (created = false); none adds h with the next id (created = true). */
  method UpsertHouse(db: Db, h: House) returns (r: Result<(nat, bool)>)
    requires db.Valid()
    requires h.districtId in db.tables.districts && (h.agentId.Some? ==> h.agentId.value in db.tables.users)
    modifies db
    ensures db.Valid()
    ensures r.Err? <==> HouseLookup(old(db.tables.houses), h, old(db.tables.nextId)).Several? || !HouseFits(h)
    ensures r.Err? ==> db.tables == old(db.tables)
    ensures HouseLookup(old(db.tables.houses), h, old(db.tables.nextId)).Several? ==>
      MatchCount(old(db.tables.houses), h) >= 2 && r == Err(MultipleHouses(MatchCount(old(db.tables.houses), h)))
    ensures !HouseLookup(old(db.tables.houses), h, old(db.tables.nextId)).Several? && !HouseFits(h) ==>
      r == Err(OutOfRange(HouseMisfit(h).value))
    ensures r.Ok? ==> Upserted(old(db.tables), db.tables, h, r.value.0, r.value.1)
  {
    var found := HouseLookup(db.tables.houses, h, db.tables.nextId);
    match found {
      case Several(a, b) =>
        SeveralCounted(db.tables.houses, h, a, b);
        r := Err(MultipleHouses(MatchCount(db.tables.houses, h)));
      case NoMatch =>
        if !HouseFits(h) {
          return Err(OutOfRange(HouseMisfit(h).value));
        }
        var id := db.AddHouse(h);
        r := Ok((id, true));
      case OneMatch(k) =>
        if !HouseFits(h) {
          return Err(OutOfRange(HouseMisfit(h).value));
        }
        db.SetHouse(k, h);
        r := Ok((k, false));
    }
  }

  /** The image rows of a house with the given path. */
  predicate HasImage(images: map<nat, HouseImage>, houseId: nat, path: string)
  {
    exists k :: k in images && images[k].houseId == houseId && images[k].image == path
  }

  /** _ensure_house_image: the house gets an image row (order 0) for the
      cover path made relative to the media directory, unless it has one. */
  method EnsureHouseImage(db: Db, houseId: nat, path: string)
    requires db.Valid() && houseId in db.tables.houses
    modifies db
    ensures db.Valid()
    ensures HasImage(db.tables.images, houseId, MediaRelative(path))
    ensures ImageEnsured(old(db.tables), db.tables, houseId, path)
  {
    var normalized := MediaRelative(path);
    if !HasImage(db.tables.images, houseId, normalized) {
      var id := db.AddImage(HouseImage(houseId, normalized, 0));
      assert db.tables.images[id].houseId == houseId && db.tables.images[id].image == normalized;
    }
  }

  /** Adding a row under a fresh key keeps every other row. */
  lemma MapGrows<V>(m: map<nat, V>, k: nat, v: V)
    requires k !in m
    ensures forall j :: j in m ==> j in m[k := v] && m[k := v][j] == m[j]
    ensures forall j :: j in m[k := v] && j !in m ==> m[k := v][j] == v
  {
  }

  // ----------------------------------------------------------------- rows

  /** The district upsert changes nothing once the district is in place, under
      any later id counter, while the districts stay as they are. */
  lemma DistrictFixedStable(t: Tables, u: Tables, name: string, description: string, d: nat)
    requires DistrictUpsert(t, name, description) == (t, d) && t.DistrictIdsBelow()
    requires u.districts == t.districts && t.nextId <= u.nextId
    ensures DistrictUpsert(u, name, description) == (u, d)
  {
    FirstKeyStable(t.districts, NameIs(name), t.nextId, u.nextId);
    assert NamedDistrict(t, name) == Some(d);
    assert u.districts[d := Patched(u.districts[d], description)] == u.districts;
  }

  /** After update_or_create, the house it wrote is the only one with its lookup. */
  lemma LookupSettles(houses: map<nat, House>, h: House, bound: nat, id: nat, bound2: nat)
    requires (forall k :: k in houses ==> k < bound) && bound <= bound2 && id < bound2
    requires (HouseLookup(houses, h, bound) == NoMatch && id !in houses) || HouseLookup(houses, h, bound) == OneMatch(id)
    ensures HouseLookup(houses[id := h], h, bound2) == OneMatch(id)
  {
    HouseLookupComplete(houses, h, bound);
    var after := houses[id := h];
    assert forall k :: k in after && k != id ==> after[k] == houses[k];
    HouseLookupComplete(after, h, bound2);
    assert SameLookup(after[id], h);
  }

  /** The district and the agent of the row are in place: the upsert would
      change nothing and the agent is found. */
  predicate PartiesFound(t: Tables, row: Row)
  {
    && DistrictName(row).Ok?
    && DistrictUpsert(t, DistrictName(row).value, DistrictDescription(row)).0 == t
    && AgentFound(t, row).Some?
  }

  /** District d and agent a placed for the row, going from t0 to t: only
      districts, users and the id counter changed, no row went away, and both
      are now in place. */
  ghost predicate PartiesPlaced(t0: Tables, t: Tables, row: Row, d: nat, a: nat)
  {
    && t == t0.(districts := t.districts, users := t.users, nextId := t.nextId) && t0.nextId <= t.nextId
    && (forall k :: k in t0.districts ==> k in t.districts)
    && (forall k :: k in t0.users ==> k in t.users)
    && DistrictName(row).Ok?
    && DistrictUpsert(t, DistrictName(row).value, DistrictDescription(row)) == (t, d)
    && AgentFound(t, row) == Some(a)
  }

  /** The district upsert and a successful _get_or_create_agent place both. */
  lemma PartiesFrom(t0: Tables, t1: Tables, t2: Tables, row: Row, clock: string, d: nat, a: nat)
    requires t0.DistrictNamesUnique() && t0.DistrictIdsBelow()
    requires DistrictName(row).Ok? && DistrictUpsert(t0, DistrictName(row).value, DistrictDescription(row)) == (t1, d)
    requires AgentOutcome(t1, t2, row, clock, Ok(a))
    requires t2 == t1.(users := t2.users, nextId := t2.nextId) && t1.nextId <= t2.nextId
    requires forall k :: k in t1.users ==> k in t2.users
    ensures PartiesPlaced(t0, t2, row, d, a)
  {
    var name, description := DistrictName(row).value, DistrictDescription(row);
    DistrictUpsertIdempotent(t0, name, description);
    DistrictIdsStayBelow(t0, name, description);
    DistrictFixedStable(t1, t2, name, description, d);
    AgentOutcomeFound(t1, t2, row, clock, Ok(a));
  }

  /** The upsert hands out ids below the counter. */
  lemma DistrictIdsStayBelow(t: Tables, name: string, description: string)
    requires t.DistrictIdsBelow()
    ensures DistrictUpsert(t, name, description).0.DistrictIdsBelow()
  {
    var (r, id) := DistrictUpsert(t, name, description);
    assert forall k :: k in r.districts ==> k in t.districts || k == id;
  }

  /** When both are already in place, placing them changes nothing. */
  lemma PartiesAgain(t0: Tables, t1: Tables, t2: Tables, row: Row, clock: string, d: nat, agent: Result<nat>)
    requires PartiesFound(t0, row)
    requires DistrictUpsert(t0, DistrictName(row).value, DistrictDescription(row)) == (t1, d)
    requires AgentOutcome(t1, t2, row, clock, agent)
    ensures t1 == t0 && t2 == t0 && agent == Ok(AgentFound(t0, row).value)
  {
    AgentFoundOutcome(t1, t2, row, clock, agent);
  }

  /** Steps one and two of _import_row: the district and the agent. When both
      are already in place, nothing changes. */
  method ImportParties(db: Db, row: Row, env: RowEnv) returns (r: Result<(nat, nat)>)
    requires db.Valid()
    modifies db
    ensures db.Valid()
    ensures r.Ok? ==> PartiesPlaced(old(db.tables), db.tables, row, r.value.0, r.value.1)
    ensures PartiesFound(old(db.tables), row) ==>
      && r == Ok((DistrictUpsert(old(db.tables), DistrictName(row).value, DistrictDescription(row)).1, AgentFound(old(db.tables), row).value))
      && db.tables == old(db.tables)
  {
    ghost var t0 := db.tables;
    var district := GetOrCreateDistrict(db, row);
    if district.Err? {
      return Err(district.error);
    }
    ghost var t1 := db.tables;
    var agent := GetOrCreateAgent(db, row, env);
    if PartiesFound(t0, row) {
      PartiesAgain(t0, t1, db.tables, row, env.clock, district.value, agent);
    }
    if agent.Err? {
      return Err(agent.error);
    }
    PartiesFrom(t0, t1, db.tables, row, env.clock, district.value, agent.value);
    r := Ok((district.value, agent.value));
  }

  /** House h placed as row k: the one house with its lookup, holding
      exactly h, whose columns hold its values, with the cover among its
      images. */
  ghost predicate HouseIn(t: Tables, h: House, cover: string, k: nat)
  {
    && k in t.houses && t.houses[k] == h && HouseFits(h)
    && HouseLookup(t.houses, h, t.nextId) == OneMatch(k)
    && HasImage(t.images, k, MediaRelative(cover))
  }

  /** What update_or_create does to the tables t0, giving t1: a new house h
      under the next id, or house id overwritten with h when it is the one match. */
  ghost predicate Upserted(t0: Tables, t1: Tables, h: House, id: nat, created: bool)
  {
    || (&& HouseLookup(t0.houses, h, t0.nextId) == NoMatch && created && id == t0.nextId
        && t1 == t0.(houses := t0.houses[id := h], nextId := id + 1))
    || (&& HouseLookup(t0.houses, h, t0.nextId) == OneMatch(id) && !created
        && t1 == t0.(houses := t0.houses[id := h]))
  }

  /** What _ensure_house_image does to the tables t1, giving t2. */
  ghost predicate ImageEnsured(t1: Tables, t2: Tables, id: nat, cover: string)
  {
    && (HasImage(t1.images, id, MediaRelative(cover)) ==> t2 == t1)
    && (!HasImage(t1.images, id, MediaRelative(cover)) ==>
          t2 == t1.(images := t1.images[t1.nextId := HouseImage(id, MediaRelative(cover), 0)], nextId := t1.nextId + 1))
  }

  /** House h placed as row id of t, starting from t0: h is in place; only the
      houses and the images changed, house id alone among the houses, and new
      image rows are the cover of house id (none when it was already there);
      one id is used for a new house and one for a new image. */
  ghost predicate Placed(t0: Tables, t: Tables, h: House, cover: string, id: nat, created: bool)
  {
    && HouseIn(t, h, cover, id)
    && t == t0.(houses := t.houses, images := t.images, nextId := t.nextId)
    && t.houses == t0.houses[id := h]
    && (created <==> id !in t0.houses)
    && (!created ==> SameLookup(t0.houses[id], h))
    && (forall k :: k in t0.images ==> k in t.images && t.images[k] == t0.images[k])
    && (forall k :: k in t.images && k !in t0.images ==> t.images[k] == HouseImage(id, MediaRelative(cover), 0))
    && (HasImage(t0.images, id, MediaRelative(cover)) ==> t.images == t0.images)
    && t.nextId == t0.nextId + (if created then 1 else 0) + (if HasImage(t0.images, id, MediaRelative(cover)) then 0 else 1)
  }

  /** The upsert and the image step together place the house. */
  lemma PlacedFrom(t0: Tables, t1: Tables, t2: Tables, h: House, cover: string, id: nat, created: bool)
    requires t0.IdsBelow() && Upserted(t0, t1, h, id, created) && ImageEnsured(t1, t2, id, cover)
    requires HouseFits(h)
    ensures Placed(t0, t2, h, cover, id, created)
  {
    HouseLookupComplete(t0.houses, h, t0.nextId);
    LookupSettles(t0.houses, h, t0.nextId, id, t2.nextId);
    if !HasImage(t1.images, id, MediaRelative(cover)) {
      MapGrows(t1.images, t1.nextId, HouseImage(id, MediaRelative(cover), 0));
      assert HasImage(t2.images, id, MediaRelative(cover)) by {
        assert t2.images[t1.nextId] == HouseImage(id, MediaRelative(cover), 0);
      }
    }
  }

  /** Placing a house already in place (as row k) changes nothing: it is
      reported as updated, under the same id. */
  lemma PlacedAgain(t0: Tables, t: Tables, h: House, cover: string, id: nat, created: bool, k: nat)
    requires Placed(t0, t, h, cover, id, created) && HouseIn(t0, h, cover, k)
    requires forall j :: j in t.houses ==> j < t.nextId
    ensures id == k && !created && t == t0
  {
    HouseLookupComplete(t.houses, h, t.nextId);
    assert t.houses[k] == h;
    assert t0.houses[k := h] == t0.houses;
  }

  /** Steps three and four of _import_row: update_or_create of the house
      built from the row, then its cover image. It fails only when several
      houses share the lookup or a numeric column cannot hold the house's
      value. */
  method PlaceHouse(db: Db, h: House, cover: string) returns (r: Result<bool>, ghost houseId: nat)
    requires db.Valid()
    requires h.districtId in db.tables.districts && (h.agentId.Some? ==> h.agentId.value in db.tables.users)
    modifies db
    ensures db.Valid()
    ensures r.Err? <==> HouseLookup(old(db.tables.houses), h, old(db.tables.nextId)).Several? || !HouseFits(h)
    ensures r.Err? ==> db.tables == old(db.tables)
    ensures HouseLookup(old(db.tables.houses), h, old(db.tables.nextId)).Several? ==>
      MatchCount(old(db.tables.houses), h) >= 2 && r == Err(MultipleHouses(MatchCount(old(db.tables.houses), h)))
    ensures !HouseLookup(old(db.tables.houses), h, old(db.tables.nextId)).Several? && !HouseFits(h) ==>
      r == Err(OutOfRange(HouseMisfit(h).value))
    ensures r.Ok? ==> Placed(old(db.tables), db.tables, h, cover, houseId, r.value)
  {
    houseId := 0;
    ghost var t0 := db.tables;
    var upserted := UpsertHouse(db, h);
    if upserted.Err? {
      return Err(upserted.error), houseId;
    }
    var id := upserted.value.0;
    houseId := id;
    ghost var t1 := db.tables;
    EnsureHouseImage(db, id, cover);
    PlacedFrom(t0, t1, db.tables, h, cover, id, upserted.value.1);
    r := Ok(upserted.value.1);
  }

  /** A row giving an area of a million square metres, with prices that fit,
      builds a house whose save names area: 100000000.00 has one digit more
      than DECIMAL(8, 2) holds, so PlaceHouse refuses the row. */
  lemma MillionSquareMetresRow(row: Row, d: nat, a: nat, cover: string, now: int)
    requires BuildHouse(row, d, a, cover, now).Ok?
    requires Get(row, "area_sqm") == Num(Dec(1000000, 0))
    requires FitsDecimal(BuildHouse(row, d, a, cover, now).value.price, TenDigits, 2)
    requires FitsDecimal(BuildHouse(row, d, a, cover, now).value.unitPrice, TenDigits, 2)
    ensures HouseMisfit(BuildHouse(row, d, a, cover, now).value) == Some("area")
  {
    var h := BuildHouse(row, d, a, cover, now).value;
    assert Pow10(2) == 100;
    ToDecimalOfNumber(Dec(1000000, 0), 2);
    assert h.area == Dec(100000000, 2);
    assert Pow10(0) == 1;
  }

  /** The row is already imported as house houseId: its district and agent are
      in place and so is its house, whose columns hold its values. */
  ghost predicate Settled(t: Tables, row: Row, env: RowEnv, houseId: nat)
  {
    && PartiesFound(t, row)
    && var d := DistrictUpsert(t, DistrictName(row).value, DistrictDescription(row)).1;
    && var built := BuildHouse(row, d, AgentFound(t, row).value, env.cover, env.now);
    && built.Ok? && HouseIn(t, built.value, env.cover, houseId)
  }

  /** Row imported as house id, going from t0 to t: the row is settled; only
      districts, users, houses, images and the id counter changed, no district
      or user went away, house id alone among the houses (created exactly when
      it is new, else with the same lookup), and new image rows are the cover
      of house id (none when it was already there). */
  ghost predicate RowImported(t0: Tables, t: Tables, row: Row, env: RowEnv, id: nat, created: bool)
  {
    && Settled(t, row, env, id)
    && t == t0.(districts := t.districts, users := t.users, houses := t.houses, images := t.images, nextId := t.nextId)
    && (forall k :: k in t0.districts ==> k in t.districts)
    && (forall k :: k in t0.users ==> k in t.users)
    && t.houses == t0.houses[id := t.houses[id]]
    && (created <==> id !in t0.houses)
    && (!created ==> SameLookup(t0.houses[id], t.houses[id]))
    && (forall k :: k in t0.images ==> k in t.images && t.images[k] == t0.images[k])
    && (forall k :: k in t.images && k !in t0.images ==> t.images[k] == HouseImage(id, MediaRelative(env.cover), 0))
    && (HasImage(t0.images, id, MediaRelative(env.cover)) ==> t.images == t0.images)
  }

  /** Placing the parties and then the house built from them imports the row. */
  lemma RowImportedFrom(t0: Tables, t1: Tables, t2: Tables, row: Row, env: RowEnv, d: nat, a: nat, id: nat, created: bool)
    requires t1.IdsBelow() && PartiesPlaced(t0, t1, row, d, a)
    requires BuildHouse(row, d, a, env.cover, env.now).Ok?
    requires Placed(t1, t2, BuildHouse(row, d, a, env.cover, env.now).value, env.cover, id, created)
    ensures RowImported(t0, t2, row, env, id, created)
  {
    DistrictFixedStable(t1, t2, DistrictName(row).value, DistrictDescription(row), d);
    AgentFoundStable(t1, t2, row);
  }

  /** Importing a settled row again: the house is found in place, so it is
      reported as updated under the same id and nothing changes. */
  lemma SettledAgain(t0: Tables, t1: Tables, t: Tables, row: Row, env: RowEnv, d: nat, a: nat, r: Result<bool>, id: nat)
    requires PartiesFound(t0, row) ==>
      && (d, a) == (DistrictUpsert(t0, DistrictName(row).value, DistrictDescription(row)).1, AgentFound(t0, row).value)
      && t1 == t0
    requires BuildHouse(row, d, a, env.cover, env.now).Ok?
    requires var h := BuildHouse(row, d, a, env.cover, env.now).value;
      && (r.Err? <==> HouseLookup(t1.houses, h, t1.nextId).Several? || !HouseFits(h))
      && (r.Ok? ==> Placed(t1, t, h, env.cover, id, r.value))
    requires forall j :: j in t.houses ==> j < t.nextId
    ensures forall k :: Settled(t0, row, env, k) ==> r == Ok(false) && id == k && t == t0
  {
    forall k | Settled(t0, row, env, k)
      ensures r == Ok(false) && id == k && t == t0
    {
      PlacedAgain(t0, t, BuildHouse(row, d, a, env.cover, env.now).value, env.cover, id, r.value, k);
    }
  }

  /** A row whose parties or house cannot be made was not imported before. */
  lemma NotSettled(t0: Tables, row: Row, env: RowEnv, d: nat, a: nat, placed: bool)
    requires PartiesFound(t0, row) ==>
      && placed
      && (d, a) == (DistrictUpsert(t0, DistrictName(row).value, DistrictDescription(row)).1, AgentFound(t0, row).value)
    requires !placed || BuildHouse(row, d, a, env.cover, env.now).Err?
    ensures forall k :: !Settled(t0, row, env, k)
  {
  }

  /** Steps three and four of _import_row for the row, once its district d
      and agent a are in place (placed from the tables t0): the house built
      from the row, then placed. */
  method PlaceRowHouse(db: Db, row: Row, env: RowEnv, d: nat, a: nat, ghost t0: Tables) returns (r: Result<bool>, ghost houseId: nat)
    requires db.Valid() && PartiesPlaced(t0, db.tables, row, d, a)
    requires PartiesFound(t0, row) ==>
      && (d, a) == (DistrictUpsert(t0, DistrictName(row).value, DistrictDescription(row)).1, AgentFound(t0, row).value)
      && db.tables == t0
    modifies db
    ensures db.Valid()
    ensures r.Err? ==> db.tables == old(db.tables)
    ensures r.Ok? ==> RowImported(t0, db.tables, row, env, houseId, r.value)
    ensures forall k :: Settled(t0, row, env, k) ==> r == Ok(false) && houseId == k && db.tables == t0
  {
    houseId := 0;
    var built := BuildHouse(row, d, a, env.cover, env.now);
    if built.Err? {
      NotSettled(t0, row, env, d, a, true);
      return Err(built.error), houseId;
    }
    ghost var t1 := db.tables;
    r, houseId := PlaceHouse(db, built.value, env.cover);
    if r.Ok? {
      RowImportedFrom(t0, t1, db.tables, row, env, d, a, houseId, r.value);
    }
    SettledAgain(t0, t1, db.tables, row, env, d, a, r, houseId);
  }

  /** The four steps of _import_row, without the transaction around them. */
  method ImportRowSteps(db: Db, row: Row, env: RowEnv) returns (r: Result<bool>, ghost houseId: nat)
    requires db.Valid()
    modifies db
    ensures db.Valid()
    ensures r.Ok? ==> RowImported(old(db.tables), db.tables, row, env, houseId, r.value)
    ensures forall k :: Settled(old(db.tables), row, env, k) ==> r == Ok(false) && houseId == k && db.tables == old(db.tables)
  {
    houseId := 0;
    ghost var t0 := db.tables;
    var parties := ImportParties(db, row, env);
    if parties.Err? {
      NotSettled(t0, row, env, 0, 0, false);
      return Err(parties.error), houseId;
    }
    r, houseId := PlaceRowHouse(db, row, env, parties.value.0, parties.value.1, t0);
  }

  /** What a successful import leaves: house houseId in the row's district (in
      北京), with an agent, holding exactly the fields built from the row, and
      with its cover among its images. */
  ghost predicate ImportedHouse(t: Tables, row: Row, env: RowEnv, houseId: nat)
  {
    && DistrictName(row).Ok? && houseId in t.houses
    && var h := t.houses[houseId];
    && h.districtId in t.districts && t.districts[h.districtId].name == DistrictName(row).value
    && t.districts[h.districtId].city == DefaultCity
    && h.agentId.Some? && h.agentId.value in t.users && t.users[h.agentId.value].role == "agent"
    && BuildHouse(row, h.districtId, h.agentId.value, env.cover, env.now) == Ok(h)
    && HasImage(t.images, houseId, MediaRelative(env.cover))
  }

  /** A settled row is an imported house. */
  lemma SettledImported(t: Tables, row: Row, env: RowEnv, houseId: nat)
    requires Settled(t, row, env, houseId)
    ensures ImportedHouse(t, row, env, houseId)
  {
    var d := DistrictUpsert(t, DistrictName(row).value, DistrictDescription(row)).1;
    assert t.houses[houseId].districtId == d;
  }

  /** _import_row, atomic: district, agent, house, image; on any failure the
      store is left as it was. Returns whether the house was created. Besides
      the one house, only districts, users and new image rows of that house
      change; a row already imported (with the same randomness) is reported
      as updated and changes nothing. */
  method ImportRow(db: Db, row: Row, env: RowEnv) returns (r: Result<bool>, ghost houseId: nat)
    requires db.Valid()
    modifies db
    ensures db.Valid()
    ensures r.Err? ==> db.tables == old(db.tables)
    ensures r.Ok? ==> RowImported(old(db.tables), db.tables, row, env, houseId, r.value)
    ensures r.Ok? ==> ImportedHouse(db.tables, row, env, houseId)
    ensures forall k :: Settled(old(db.tables), row, env, k) ==> r == Ok(false) && houseId == k && db.tables == old(db.tables)
  {
    var saved := db.tables;
    r, houseId := ImportRowSteps(db, row, env);
    if r.Err? {
      db.Restore(saved);
    } else {
      SettledImported(db.tables, row, env, houseId);
    }
  }

  /** The same row imported twice with the same randomness: the second import
      reports the house as updated and leaves the store as the first left it,
      so no second house, agent, district or image appears. */
  method ImportRowTwice(db: Db, row: Row, env: RowEnv) returns (first: Result<bool>, second: Result<bool>, ghost between: Tables)
    requires db.Valid()
    modifies db
    ensures first.Ok? ==> second == Ok(false) && db.tables == between
  {
    ghost var firstId, secondId;
    first, firstId := ImportRow(db, row, env);
    between := db.tables;
    second, secondId := ImportRow(db, row, env);
  }

  // ---------------------------------------------------------------- files

  /** ImportStats of one file. */
  datatype ImportStats = ImportStats(file: string, created: nat, updated: nat, skipped: nat, errors: nat, messages: seq<string>)

  /** A spreadsheet in the data directory: one pandas could not read (with the
      reason it gave), or the records it read, empty cells already None. */
  datatype SheetFile = Unreadable(path: string, reason: string) | Sheet(path: string, rows: seq<Row>)

  /** A row without a title, which _process_file skips. */
  predicate Untitled(row: Row)
  {
    !Truthy(Get(row, "title"))
  }

  /** One row of _process_file: skipped without a title (outcome None), else
      imported (outcome Some) and counted as created, updated or failed, a
      failure adding exactly its message. */
  method ProcessRow(db: Db, row: Row, env: RowEnv, before: ImportStats) returns (stats: ImportStats, outcome: Option<Result<bool>>, ghost houseId: nat)
    requires db.Valid()
    modifies db
    ensures db.Valid() && stats.file == before.file
    ensures stats.created + stats.updated + stats.skipped + stats.errors
      == before.created + before.updated + before.skipped + before.errors + 1
    ensures stats.skipped == before.skipped + (if Untitled(row) then 1 else 0)
    ensures |stats.messages| - stats.errors == |before.messages| - before.errors
    ensures Untitled(row) ==> db.tables == old(db.tables)
    ensures outcome.None? <==> Untitled(row)
    ensures outcome.None? ==> stats == before.(skipped := before.skipped + 1) && db.tables == old(db.tables)
    ensures outcome == Some(Ok(true)) ==> stats == before.(created := before.created + 1)
    ensures outcome == Some(Ok(false)) ==> stats == before.(updated := before.updated + 1)
    ensures outcome.Some? && outcome.value.Err? ==>
      && stats == before.(errors := before.errors + 1, messages := before.messages + [outcome.value.error])
      && db.tables == old(db.tables)
    ensures outcome.Some? && outcome.value.Ok? ==> RowImported(old(db.tables), db.tables, row, env, houseId, outcome.value.value)
    ensures forall k :: !Untitled(row) && Settled(old(db.tables), row, env, k) ==>
      stats == before.(updated := before.updated + 1) && db.tables == old(db.tables)
  {
    houseId := 0;
    if Untitled(row) {
      return before.(skipped := before.skipped + 1), None, houseId;
    }
    var r;
    r, houseId := ImportRow(db, row, env);
    outcome := Some(r);
    match r
    case Ok(created) =>
      stats := if created then before.(created := before.created + 1) else before.(updated := before.updated + 1);
    case Err(message) =>
      stats := before.(errors := before.errors + 1, messages := before.messages + [message]);
  }

  /** The loop of _process_file over the records of a sheet. */
  method ImportRows(db: Db, path: string, rows: seq<Row>, env: nat -> RowEnv) returns (stats: ImportStats)
    requires db.Valid()
    modifies db
    ensures db.Valid() && stats.file == path
    ensures stats.created + stats.updated + stats.skipped + stats.errors == |rows|
    ensures stats.skipped == Count(rows, Untitled) && |stats.messages| == stats.errors
    ensures Count(rows, Untitled) == |rows| ==> db.tables == old(db.tables)
  {
    stats := ImportStats(path, 0, 0, 0, 0, []);
    var i := 0;
    while i < |rows|
      invariant 0 <= i <= |rows| && db.Valid() && stats.file == path
      invariant stats.created + stats.updated + stats.skipped + stats.errors == i
      invariant stats.skipped == Count(rows[..i], Untitled) && |stats.messages| == stats.errors
      invariant stats.skipped == i ==> db.tables == old(db.tables)
    {
      CountPrefixStep(rows, i, Untitled);
      var outcome;
      ghost var houseId;
      stats, outcome, houseId := ProcessRow(db, rows[i], env(i), stats);
      i := i + 1;
    }
    assert rows[..i] == rows;
  }

  /** _process_file: a file that cannot be read counts one error and is left
      where it is; otherwise every row without a title is skipped, every other
      row is imported (created or updated) or counted as an error with its
      message, and the file is archived. env(i) is the randomness row i draws. */
  method ProcessFile(db: Db, file: SheetFile, env: nat -> RowEnv) returns (stats: ImportStats, archived: bool)
    requires db.Valid()
    modifies db
    ensures db.Valid()
    ensures stats.file == file.path
    ensures file.Unreadable? ==> stats == ImportStats(file.path, 0, 0, 0, 1, ["读取失败: " + file.reason])
    ensures file.Unreadable? ==> !archived && db.tables == old(db.tables)
    ensures file.Sheet? ==> archived && stats.created + stats.updated + stats.skipped + stats.errors == |file.rows|
    ensures file.Sheet? ==> stats.skipped == Count(file.rows, Untitled) && |stats.messages| == stats.errors
    ensures file.Sheet? && Count(file.rows, Untitled) == |file.rows| ==> db.tables == old(db.tables)
  {
    match file
    case Unreadable(path, reason) =>
      stats, archived := ImportStats(path, 0, 0, 0, 1, ["读取失败: " + reason]), false;
    case Sheet(path, rows) =>
      stats := ImportRows(db, path, rows, env);
      archived := true;
  }

  /** The sum of one counter over the files. */
  function Total(stats: seq<ImportStats>, field: ImportStats -> nat): nat
  {
    if stats == [] then 0 else Total(stats[..|stats| - 1], field) + field(stats[|stats| - 1])
  }

  function Created(s: ImportStats): nat { s.created }
  function Updated(s: ImportStats): nat { s.updated }
  function Errors(s: ImportStats): nat { s.errors }

  datatype Summary = Summary(files: seq<ImportStats>, totalCreated: nat, totalUpdated: nat, totalErrors: nat)

  /** run: nothing when the data directory is missing; otherwise every
      spreadsheet in order (the sorted listing of *.xlsx), with the totals of
      created, updated and failed rows. env(f, i) is the randomness row i of
      file f draws. */
  method Run(db: Db, directory: Option<seq<SheetFile>>, env: (nat, nat) -> RowEnv) returns (summary: Summary)
    requires db.Valid()
    modifies db
    ensures db.Valid()
    ensures directory.None? ==> summary == Summary([], 0, 0, 0) && db.tables == old(db.tables)
    ensures directory.Some? ==> |summary.files| == |directory.value|
    ensures directory.Some? ==> forall f :: 0 <= f < |summary.files| ==> summary.files[f].file == directory.value[f].path
    ensures summary.totalCreated == Total(summary.files, Created)
    ensures summary.totalUpdated == Total(summary.files, Updated)
    ensures summary.totalErrors == Total(summary.files, Errors)
  {
    if directory.None? {
      return Summary([], 0, 0, 0);
    }
    var files := directory.value;
    var results: seq<ImportStats> := [];
    var created, updated, errors := 0, 0, 0;
    var f := 0;
    while f < |files|
      invariant 0 <= f <= |files| && db.Valid() && |results| == f
      invariant forall g :: 0 <= g < f ==> results[g].file == files[g].path
      invariant created == Total(results, Created) && updated == Total(results, Updated)
      invariant errors == Total(results, Errors)
    {
      var stats, _ := ProcessFile(db, files[f], (i: nat) => env(f, i));
      assert (results + [stats])[..f] == results;
      results := results + [stats];
      created, updated, errors := created + stats.created, updated + stats.updated, errors + stats.errors;
      f := f + 1;
    }
    summary := Summary(results, created, updated, errors);
  }
}
