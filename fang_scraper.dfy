/** The fang.com "top" listing scraper: turns the pieces of text found in each
    listing node of the page into a listing record, and prepares the batch for
    the spreadsheet export. Selecting nodes in the HTML is not modelled: a node
    arrives as the strings, optional strings and lists of strings read from it. */
module FangScraper {
  import opened Wrappers
  import opened Text
  import opened Numbers
  import opened Cells
  import Store

  const FangTopUrl: string := "https://esf.fang.com/top/"
  const DecorationChoices: seq<string> := ["精装", "简装", "毛坯"]
  const DefaultCity: string := "北京"
  const DefaultDataSource: string := "fang.com/top"

  // ------------------------------------------------------------------ links

  /** An absolute form of a link: protocol-relative links get "https:", links
      that already start with "http" are kept, and anything else is resolved
      against the page address by `join` (reference resolution as section 5.2
      of RFC 3986 describes it, which this model leaves abstract). */
  function NormalizeUrl(url: Option<string>, join: string -> string): (r: string)
    ensures (url.None? || url.value == "") ==> r == ""
    ensures url.Some? && StartsWith(url.value, "//") ==> r == "https:" + url.value
    ensures url.Some? && StartsWith(url.value, "http") ==> r == url.value
    ensures url.Some? && url.value != "" && !StartsWith(url.value, "//") && !StartsWith(url.value, "http") ==>
              r == join(url.value)
  {
    if url.None? || url.value == "" then ""
    else if StartsWith(url.value, "//") then
      assert url.value[0] == '/';
      "https:" + url.value
    else if StartsWith(url.value, "http") then url.value
    else join(url.value)
  }

  /** Normalising a normalised link changes nothing, provided the resolver
      yields a non-empty, non-protocol-relative result that it resolves to
      itself again, as reference resolution does for a resolved reference. */
  lemma NormalizeUrlIdempotent(url: Option<string>, join: string -> string)
    requires forall x :: join(x) != "" && !StartsWith(join(x), "//")
    requires forall x :: StartsWith(join(x), "http") || join(join(x)) == join(x)
    ensures NormalizeUrl(Some(NormalizeUrl(url, join)), join) == NormalizeUrl(url, join)
  {
    var r := NormalizeUrl(url, join);
    if url.Some? && StartsWith(url.value, "//") {
      assert r[..4] == "http" by {
        assert r[..4] == ("https:" + url.value)[..4];
      }
    }
  }

  // ------------------------------------------------------------ small fields

  /** "district-sub" becomes the stripped halves around the first hyphen; a
      region without a hyphen is its own district with an empty sub-district. */
  function SplitRegion(region: string): (r: (string, string))
    ensures '-' !in region ==> r == (region, "")
    ensures '-' in region ==> '-' !in r.0 && Strip(r.0) == r.0 && Strip(r.1) == r.1
  {
    if '-' in region then
      var district := Before(region, '-');
      var sub := region[|district| + 1..];
      StripIdempotent(district);
      StripIdempotent(sub);
      StripWithin(district);
      (Strip(district), Strip(sub))
    else (region, "")
  }

  /** Splitting a joined "district-sub" region gives the two halves back. */
  lemma SplitRegionJoin(district: string, sub: string)
    requires '-' !in district && Strip(district) == district && Strip(sub) == sub
    ensures SplitRegion(district + "-" + sub) == (district, sub)
  {
    var region := district + ['-'] + sub;
    assert district + "-" + sub == region;
    BeforeConcat(district, '-', sub);
    assert region[|district|] == '-';
    SplitRegionOf(region, district, sub);
  }

  lemma SplitRegionOf(region: string, district: string, sub: string)
    requires '-' in region && Before(region, '-') == district && region[|district| + 1..] == sub
    ensures SplitRegion(region) == (Strip(district), Strip(sub))
  {
  }

  /** The orientation with every "向" removed and the white space stripped. */
  function NormalizeOrientation(value: string): (r: string)
    ensures '向' !in r
    ensures Strip(r) == r
    ensures '向' !in value && Strip(value) == value ==> r == value
  {
    var removed := RemoveChar(value, '向');
    StripWithin(removed);
    StripIdempotent(removed);
    Strip(removed)
  }

  lemma NormalizeOrientationIdempotent(value: string)
    ensures NormalizeOrientation(NormalizeOrientation(value)) == NormalizeOrientation(value)
  {
  }

  /** Rendering of a room count as a house type: five and more share one category. */
  function RoomsToHouseType(rooms: nat): (r: string)
    ensures rooms >= 5 ==> r == "5室及以上"
    ensures 1 <= rooms < 5 ==> r == Store.HouseTypeChoices[rooms - 1]
    ensures rooms == 0 ==> r == "0室"
  {
    if rooms >= 5 then "5室及以上" else NatToString(rooms) + "室"
  }

  /** The house type read from the layout: the number in the leftmost
      "(digits)室", or "" when the layout has none. */
  function ToHouseType(layout: string): (r: string)
    ensures r == "" <==> NoRun(layout, DigitRun, false, '室')
    ensures forall i: nat :: LeftmostRun(layout, i, DigitRun, false, '室') ==>
      r == RoomsToHouseType(NumberAt(layout, i, RunEnd(layout, i, DigitRun)))
    ensures r != "" ==> r in Store.HouseTypeChoices || r == "0室"
  {
    FindRunLeftmost(layout, DigitRun, false, '室');
    match FindRun(layout, 0, DigitRun, false, '室')
    case None => ""
    case Some((i, j)) => RoomsToHouseType(NumberAt(layout, i, j))
  }

  /** A layout that starts with the room count reads as that count. */
  lemma ToHouseTypeOfRooms(n: nat, rest: string)
    ensures ToHouseType(NatToString(n) + "室" + rest) == RoomsToHouseType(n)
  {
    DigitsAreDecimals(NatToString(n));
    ToHouseTypeOfDecimals(NatToString(n), rest);
  }

  /** The room count may be written in any decimal digits, full-width ones
      included, and reads as their value. */
  lemma ToHouseTypeOfDecimals(d: string, rest: string)
    requires AllDecimals(d) && |d| >= 1
    ensures ToHouseType(d + "室" + rest) == RoomsToHouseType(DecimalsValue(d))
  {
    var s := d + "室" + rest;
    RoomsRun(d, rest, s);
    assert s[..|d|] == d;
    RoomsFound(s, |d|);
  }

  /** "３室" is a three-room layout. */
  lemma FullWidthRooms()
    ensures ToHouseType("３室") == "3室"
  {
    assert IsDecimal('３') && DecimalValue('３') == 3;
    assert AsciiDecimals("３") == "3";
    ToHouseTypeOfDecimals("３", "");
    assert "３" + "室" + "" == "３室";
  }

  /** The digits before "室" are the run the search captures. */
  lemma RoomsRun(d: string, rest: string, s: string)
    requires AllDecimals(d) && |d| >= 1 && s == d + "室" + rest
    ensures RunEnd(s, 0, DigitRun) == |d| && s[..|d|] == d && s[|d|] == '室' && IsDecimal(s[0])
  {
    assert s[0] == d[0] && s[|d|] == '室';
    LeadingRunOfDigits(d, "室" + rest);
    assert s[0..] == d + ("室" + rest);
  }

  /** A run at the very start followed by "室" is the match. */
  lemma RoomsFound(s: string, m: nat)
    requires 0 < m < |s| && RunEnd(s, 0, DigitRun) == m && s[m] == '室' && IsDecimal(s[0])
    ensures FindRun(s, 0, DigitRun, false, '室') == Some((0, m))
    ensures AllDecimals(s[..m]) && NumberAt(s, 0, m) == DecimalsValue(s[..m])
  {
    assert RunMatchesAt(s, 0, DigitRun, false, '室');
    assert s[0..m] == s[..m];
    RunIsDecimals(s, 0);
  }

  lemma {:induction false} LeadingRunOfDigits(d: string, rest: string)
    requires AllDecimals(d)
    requires rest == [] || !IsDecimal(rest[0])
    ensures LeadingRun(d + rest, DigitRun) == d
    decreases |d|
  {
    if d != [] {
      assert (d + rest)[1..] == d[1..] + rest;
      LeadingRunOfDigits(d[1..], rest);
    } else {
      assert d + rest == rest;
    }
  }

  // -------------------------------------------------------- pipe-separated info

  /** parts[k] is the first element satisfying p. */
  predicate IsFirst(parts: seq<string>, k: nat, p: string -> bool)
  {
    k < |parts| && p(parts[k]) && forall j :: 0 <= j < k ==> !p(parts[j])
  }

  /** No element satisfies p. */
  predicate NoneWith(parts: seq<string>, p: string -> bool)
  {
    forall j :: 0 <= j < |parts| ==> !p(parts[j])
  }

  /** The position of the first element satisfying p: next() over a
      generator. */
  function FirstWith(parts: seq<string>, p: string -> bool): (r: Option<nat>)
    ensures r.Some? ==> IsFirst(parts, r.value, p)
    ensures r.None? <==> NoneWith(parts, p)
    ensures forall k: nat :: IsFirst(parts, k, p) ==> r == Some(k)
  {
    if parts == [] then None
    else if p(parts[0]) then Some(0)
    else match FirstWith(parts[1..], p)
      case None => None
      case Some(k) => Some(k + 1)
  }

  /** The pattern "共(digits)层" starts at position k of s. */
  predicate TotalFloorsAt(s: string, k: nat)
  {
    k < |s| && s[k] == '共' && RunMatchesAt(s, k + 1, DigitRun, false, '层')
  }

  /** Leftmost search for "共(digits)层": the bounds of the digits. */
  function FindTotalFloors(s: string, from: nat): (m: Option<(nat, nat)>)
    requires from <= |s|
    ensures m.Some? ==> var (i, j) := m.value;
      && from < i < j <= |s| && TotalFloorsAt(s, i - 1) && j == RunEnd(s, i, DigitRun)
      && forall k :: from <= k < i - 1 ==> !TotalFloorsAt(s, k)
    ensures m.None? ==> forall k :: from <= k < |s| ==> !TotalFloorsAt(s, k)
    decreases |s| - from
  {
    if from == |s| then None
    else if TotalFloorsAt(s, from) then
      assert s[from + 1..][0] == s[from + 1];
      Some((from + 1, RunEnd(s, from + 1, DigitRun)))
    else FindTotalFloors(s, from + 1)
  }

  /** The number of the leftmost "共(digits)层" in s, if any. */
  function TotalFloorsOf(s: string): (r: Option<nat>)
    ensures r.None? <==> forall k :: 0 <= k < |s| ==> !TotalFloorsAt(s, k)
    ensures forall i: nat :: 0 < i <= |s| && TotalFloorsAt(s, i - 1) && (forall k :: 0 <= k < i - 1 ==> !TotalFloorsAt(s, k)) ==>
      r == Some(NumberAt(s, i, RunEnd(s, i, DigitRun)))
  {
    match FindTotalFloors(s, 0)
    case None => None
    case Some((i, j)) => Some(NumberAt(s, i, j))
  }

  /** "共１８层" gives 18 total floors: the full-width digits are matched and
      read by value. */
  lemma FullWidthFloors()
    ensures TotalFloorsOf("共１８层") == Some(18)
  {
    var s := "共１８层";
    assert IsDecimal(s[1]) && IsDecimal(s[2]) && !IsDecimal(s[3]);
    assert s[1..] == [s[1]] + s[2..] && s[2..] == [s[2]] + s[3..];
    assert LeadingRun(s[3..], DigitRun) == [];
    assert LeadingRun(s[1..], DigitRun) == s[1..3];
    assert RunEnd(s, 1, DigitRun) == 3;
    assert TotalFloorsAt(s, 0);
    assert FindTotalFloors(s, 0) == Some((1, 3));
    assert AsciiDecimals(s[1..3]) == "18";
    assert "18"[..1] == "1";
    assert DigitsValue("18") == 18;
  }

  /** What the pipe-separated "tel_shop" line yields. */
  datatype HouseInfo = HouseInfo(layout: string, area: Option<Dec>, floorText: string,
                                 totalFloors: Option<nat>, orientation: string)

  predicate HasArea(part: string) { '㎡' in part }
  predicate HasFloor(part: string) { '层' in part }
  predicate IsOrientation(part: string) { EndsWith(part, "向") }

  /** float() of the text AREA_PATTERN captured, which reads every decimal
      digit as the ASCII digit of the same value: None where it raises. */
  function AreaNumber(text: string): (r: Option<Option<Dec>>)
    ensures r.None? <==> ParseUnsigned(AsciiDecimals(text)).None?
    ensures r.Some? ==> r.value == ParseUnsigned(AsciiDecimals(text))
  {
    match ParseUnsigned(AsciiDecimals(text))
    case None => None
    case Some(d) => Some(Some(d))
  }

  /** The area of the first part that mentions ㎡: the number of the leftmost
      "([\d.]+)\s*㎡". Some(None) when that part has no such number or no part
      mentions ㎡; None when the captured text is not a number, where float()
      raises. */
  function AreaOf(parts: seq<string>): (r: Option<Option<Dec>>)
    ensures r.Some? && r.value.Some? ==> r.value.value.coef >= 0
    ensures NoneWith(parts, HasArea) ==> r == Some(None)
    ensures forall k: nat :: IsFirst(parts, k, HasArea) && NoRun(parts[k], DigitOrDotRun, true, '㎡') ==> r == Some(None)
    ensures forall k: nat, i: nat :: IsFirst(parts, k, HasArea) && LeftmostRun(parts[k], i, DigitOrDotRun, true, '㎡') ==>
      r == AreaNumber(parts[k][i..RunEnd(parts[k], i, DigitOrDotRun)])
  {
    match FirstWith(parts, HasArea)
    case None => Some(None)
    case Some(k) =>
      FindRunLeftmost(parts[k], DigitOrDotRun, true, '㎡');
      match FindRun(parts[k], 0, DigitOrDotRun, true, '㎡')
      case None => Some(None)
      case Some((i, j)) => AreaNumber(parts[k][i..j])
  }

  /** A part that opens with a number directly followed by ㎡ has that number
      as its area. */
  lemma AreaOfLeading(p: string, m: nat)
    requires 0 < m < |p| && RunEnd(p, 0, DigitOrDotRun) == m && p[m] == '㎡' && InRun(p[0], DigitOrDotRun)
    ensures AreaOf([p]) == AreaNumber(p[..m])
  {
    assert HasArea(p) by { assert p[m] == '㎡'; }
    assert IsFirst([p], 0, HasArea);
    assert p[m..][0] == p[m];
    assert LeadingSpace(p[m..]) == 0;
    assert RunMatchesAt(p, 0, DigitOrDotRun, true, '㎡');
    assert LeftmostRun(p, 0, DigitOrDotRun, true, '㎡');
    assert p[0..m] == p[..m];
  }

  /** "８９.５㎡" gives an area of 89.5: the full-width digits are captured
      and float() reads them by value. */
  lemma FullWidthArea()
    ensures AreaOf(["８９.５㎡"]) == Some(Some(Dec(895, 1)))
  {
    var p := "８９.５㎡";
    FullWidthAreaRun(p);
    AreaOfLeading(p, 4);
    FullWidthAreaText();
  }

  lemma FullWidthAreaText()
    ensures AreaNumber("８９.５") == Some(Some(Dec(895, 1)))
  {
    var t := "８９.５";
    var a := AsciiDecimals(t);
    assert IsDecimal(t[0]) && DecimalValue(t[0]) == 8;
    assert IsDecimal(t[1]) && DecimalValue(t[1]) == 9;
    assert !IsDecimal(t[2]) && IsDecimal(t[3]) && DecimalValue(t[3]) == 5;
    assert a == "89" + "." + "5";
    ParseUnsignedFrac("89", "5");
    assert "89" + "5" == "895" && "895"[..2] == "89" && "89"[..1] == "8" && "8"[..0] == "";
    assert DigitsValue("8") == 8;
    assert DigitsValue("89") == 89;
    assert DigitsValue("895") == 895;
  }

  lemma FullWidthAreaRun(p: string)
    requires p == "８９.５㎡"
    ensures RunEnd(p, 0, DigitOrDotRun) == 4 && p[4] == '㎡' && InRun(p[0], DigitOrDotRun)
    ensures p[..4] == "８９.５"
  {
    assert InRun(p[0], DigitOrDotRun) && InRun(p[1], DigitOrDotRun) && InRun(p[2], DigitOrDotRun);
    assert InRun(p[3], DigitOrDotRun) && !InRun(p[4], DigitOrDotRun);
    assert LeadingRun(p[4..], DigitOrDotRun) == [];
    assert p[3..] == [p[3]] + p[4..] && p[2..] == [p[2]] + p[3..];
    assert p[1..] == [p[1]] + p[2..] && p[0..] == [p[0]] + p[1..];
    assert LeadingRun(p[0..], DigitOrDotRun) == p[..4];
  }

  /** layout, area, floor text, total floors and orientation read from the
      non-empty stripped "|" parts; None when the area text cannot be read as
      a number. */
  function ExtractHouseInfo(telShop: Option<string>): (r: Option<HouseInfo>)
    ensures telShop.None? ==> r == Some(HouseInfo("", None, "", None, ""))
    ensures r.Some? ==> '（' !in r.value.floorText && '|' !in r.value.layout
    ensures r.Some? ==> r.value.orientation == "" || EndsWith(r.value.orientation, "向")
    ensures r.Some? && r.value.area.Some? ==> r.value.area.value.coef >= 0
  {
    if telShop.None? then Some(HouseInfo("", None, "", None, ""))
    else
      var parts := InfoParts(telShop.value);
      var layout := if parts == [] then "" else parts[0];
      var floorPart := FirstPart(parts, HasFloor);
      var orientation := FirstPart(parts, IsOrientation);
      match AreaOf(parts)
      case None => None
      case Some(area) => Some(HouseInfo(layout, area, Before(floorPart, '（'), TotalFloorsOf(floorPart), orientation))
  }

  /** next((part for part in parts if p(part)), ""): the first part that
      satisfies p, or "". */
  function FirstPart(parts: seq<string>, p: string -> bool): (r: string)
    ensures r == "" || p(r)
    ensures NoneWith(parts, p) ==> r == ""
    ensures forall k: nat :: IsFirst(parts, k, p) ==> r == parts[k]
  {
    match FirstWith(parts, p)
    case None => ""
    case Some(k) => parts[k]
  }

  /** Where each field of the tel_shop line comes from: the layout is the
      first part; the floor text and the total floors come from the first
      part containing 层 (the text before "（", the number of "共(digits)层");
      the orientation is the first part ending in 向; the area is AreaOf's,
      and the whole line fails exactly when AreaOf does. */
  lemma ExtractHouseInfoFields(text: string)
    ensures var parts, r := InfoParts(text), ExtractHouseInfo(Some(text));
      && (r.None? <==> AreaOf(parts).None?)
      && (r.Some? ==> r.value.area == AreaOf(parts).value)
      && (r.Some? ==> r.value.layout == if parts == [] then "" else parts[0])
      && (r.Some? && NoneWith(parts, HasFloor) ==> r.value.floorText == "" && r.value.totalFloors.None?)
      && (r.Some? && NoneWith(parts, IsOrientation) ==> r.value.orientation == "")
    ensures var parts, r := InfoParts(text), ExtractHouseInfo(Some(text));
      forall k: nat :: r.Some? && IsFirst(parts, k, HasFloor) ==>
        r.value.floorText == Before(parts[k], '（') && r.value.totalFloors == TotalFloorsOf(parts[k])
    ensures var parts, r := InfoParts(text), ExtractHouseInfo(Some(text));
      forall k: nat :: r.Some? && IsFirst(parts, k, IsOrientation) ==> r.value.orientation == parts[k]
  {
    var parts := InfoParts(text);
    var none := TotalFloorsOf("");
    assert none.None?;
  }

  /** The "|" parts of the line, stripped, without the empty ones. */
  function InfoParts(text: string): (parts: seq<string>)
    ensures forall k :: 0 <= k < |parts| ==> parts[k] != [] && '|' !in parts[k] && Strip(parts[k]) == parts[k]
  {
    NonEmptyStrippedParts(Split(text, '|'), '|');
    NonEmptyStripped(Split(text, '|'))
  }

  lemma {:induction false} NonEmptyStrippedParts(parts: seq<string>, sep: char)
    requires forall k :: 0 <= k < |parts| ==> sep !in parts[k]
    ensures StrippedWithout(NonEmptyStripped(parts), sep)
  {
    if parts != [] {
      var p := Strip(parts[0]);
      var rest := NonEmptyStripped(parts[1..]);
      assert NonEmptyStripped(parts) == (if p == [] then [] else [p]) + rest;
      NonEmptyStrippedParts(parts[1..], sep);
      PartStripped(parts[0], sep);
      if p != [] {
        StrippedOne(p, sep);
        StrippedCons([p], rest, sep);
      } else {
        assert [] + rest == rest;
      }
    }
  }

  /** A stripped part keeps out the separator and strips to itself. */
  lemma PartStripped(s: string, sep: char)
    requires sep !in s
    ensures sep !in Strip(s) && Strip(Strip(s)) == Strip(s)
  {
    StripWithin(s);
    StripIdempotent(s);
  }

  /** Every part is already stripped and free of the separator. */
  predicate StrippedWithout(xs: seq<string>, sep: char)
  {
    forall k :: 0 <= k < |xs| ==> sep !in xs[k] && Strip(xs[k]) == xs[k]
  }

  lemma StrippedOne(part: string, sep: char)
    requires sep !in part
    ensures StrippedWithout([Strip(part)], sep)
  {
    StripWithin(part);
    StripIdempotent(part);
  }

  lemma StrippedCons(a: seq<string>, b: seq<string>, sep: char)
    requires StrippedWithout(a, sep) && StrippedWithout(b, sep)
    ensures StrippedWithout(a + b, sep)
  {
    assert forall k :: |a| <= k < |a + b| ==> (a + b)[k] == b[k - |a|];
  }

  // ------------------------------------------------------------------- nodes

  /** A value of the decoded "data-bg" JSON object. */
  datatype Json = JStr(s: string) | JNum(d: Dec) | JBool(b: bool) | JNull

  predicate JsonTruthy(v: Json)
  {
    match v
    case JStr(s) => s != ""
    case JNum(d) => d.coef != 0
    case JBool(b) => b
    case JNull => false
  }

  /** str() of a JSON value. */
  function JsonStr(v: Json): string
  {
    match v
    case JStr(s) => s
    case JNum(d) => Render(d)
    case JBool(b) => if b then "True" else "False"
    case JNull => "None"
  }

  lemma JsonStrTruthy(v: Json)
    requires JsonTruthy(v)
    ensures JsonStr(v) != ""
  {
    if v.JNum? {
      var r := Render(v.d);
      ParseRender(v.d);
      assert Strip(r) != [] by {
        assert ParseDec(r).Some?;
      }
    }
  }

  /** The "data-bg" attribute of a node: missing or empty, not valid JSON,
      a JSON object, or some other JSON value. */
  datatype Metadata = NoMetadata | Undecodable | JsonObject(fields: map<string, Json>) | JsonOther

  /** The metadata as a dictionary: {} when there is none or it does not
      decode; None for a non-object, on which the later .get() raises. */
  function ExtractMetadata(m: Metadata): (r: Option<map<string, Json>>)
    ensures r.None? <==> m.JsonOther?
    ensures m.NoMetadata? || m.Undecodable? ==> r == Some(map[])
  {
    match m
    case NoMetadata => Some(map[])
    case Undecodable => Some(map[])
    case JsonObject(fields) => Some(fields)
    case JsonOther => None
  }

  /** metadata.get(key) or fallback, rendered with str(). */
  function MetaOr(meta: map<string, Json>, key: string, fallback: string): (r: string)
    ensures (key !in meta || !JsonTruthy(meta[key])) ==> r == fallback
    ensures key in meta && JsonTruthy(meta[key]) ==> r == JsonStr(meta[key]) && r != ""
  {
    if key in meta && JsonTruthy(meta[key]) then
      JsonStrTruthy(meta[key]);
      JsonStr(meta[key])
    else fallback
  }

  datatype Anchor = Anchor(text: string, href: Option<string>)
  datatype Image = Image(dataSrc: Option<string>, src: Option<string>)
  /** The two price texts, already read as numbers; Unreadable when float()
      raises on one of them. */
  datatype Prices = Prices(total: Option<Dec>, unit: Option<Dec>) | Unreadable

  datatype Node = Node(
    metadata: Metadata,
    titleLink: Option<Anchor>,
    telShop: Option<string>,
    prices: Prices,
    agentLink: Option<Anchor>,
    community: string,
    region: string,
    labels: seq<string>,
    cover: Option<Image>)

  /** The random and clock values a listing takes: the index of the decoration
      choice, a build year, coordinates and the scrape timestamp. */
  datatype Draw = Draw(decoration: nat, buildYear: int, longitude: Dec, latitude: Dec, scrapedAt: string)

  datatype FangListing = FangListing(
    sourceId: string,
    title: string,
    houseUrl: string,
    layout: string,
    houseType: string,
    areaSqm: Option<Dec>,
    floor: string,
    totalFloors: Option<nat>,
    orientation: string,
    priceTotalWan: Option<Dec>,
    unitPrice: Option<Dec>,
    agentName: string,
    agentStoreUrl: string,
    agentId: Option<string>,
    community: string,
    region: string,
    districtName: string,
    subDistrict: string,
    address: string,
    tags: seq<string>,
    coverImage: string,
    status: string,
    decoration: string,
    buildYear: int,
    description: string,
    longitude: Dec,
    latitude: Dec,
    city: string,
    dataSource: string,
    scrapedAt: string)

  /** The non-empty strings among the given ones, in order. */
  function NonEmpty(xs: seq<string>): (r: seq<string>)
    ensures |r| <= |xs| && forall k :: 0 <= k < |r| ==> r[k] != ""
    ensures (forall k :: 0 <= k < |xs| ==> xs[k] != "") ==> r == xs
  {
    if xs == [] then []
    else (if xs[0] == "" then [] else [xs[0]]) + NonEmpty(xs[1..])
  }

  /** The cover link: "data-src", else "src", else "", normalised. */
  function ExtractCover(cover: Option<Image>, join: string -> string): string
  {
    match cover
    case None => ""
    case Some(img) =>
      var link :=
        if img.dataSrc.Some? && img.dataSrc.value != "" then img.dataSrc.value
        else if img.src.Some? then img.src.value
        else "";
      NormalizeUrl(Some(link), join)
  }

  datatype NodeOutcome = Raised | NoTitle | Parsed(listing: FangListing)

  /** One listing node to a listing: no title link gives NoTitle; a non-object
      metadata, an area or a price that float() cannot read gives Raised. */
  function ParseNode(node: Node, draw: Draw, join: string -> string): (r: NodeOutcome)
    ensures r.NoTitle? <==> node.titleLink.None?
    ensures r.Raised? <==>
      node.titleLink.Some? &&
      (node.metadata.JsonOther? || ExtractHouseInfo(node.telShop).None? || node.prices.Unreadable?)
    ensures r.Parsed? ==> var l := r.listing;
      && l.status == "available" && l.decoration in DecorationChoices
      && l.city == DefaultCity && l.dataSource == DefaultDataSource
      && l.title == node.titleLink.value.text
      && (l.agentId.None? || l.agentId.value != "")
      && (forall k :: 0 <= k < |l.tags| ==> l.tags[k] != "")
      && (l.houseType == "" || l.houseType in Store.HouseTypeChoices || l.houseType == "0室")
  {
    if node.titleLink.None? then NoTitle
    else
      var meta := ExtractMetadata(node.metadata);
      var info := ExtractHouseInfo(node.telShop);
      if meta.None? || info.None? || node.prices.Unreadable? then Raised
      else Parsed(Assemble(node, meta.value, info.value, draw, join))
  }

  /** The record built from the pieces of a node that was read without error. */
  function Assemble(node: Node, meta: map<string, Json>, info: HouseInfo, draw: Draw, join: string -> string): (l: FangListing)
    requires node.titleLink.Some? && node.prices.Prices?
    ensures l.sourceId == MetaOr(meta, "houseid", node.titleLink.value.text)
    ensures l.address == Join(NonEmpty([node.community, node.region]), " / ")
    ensures l.description == Join(l.tags, " | ")
    ensures l.tags == NonEmpty(NonEmptyStripped(node.labels))
    ensures (l.districtName, l.subDistrict) == SplitRegion(node.region)
    ensures l.houseType == ToHouseType(info.layout)
    ensures l.status == "available" && l.decoration in DecorationChoices
    ensures l.city == DefaultCity && l.dataSource == DefaultDataSource
    ensures l.title == node.titleLink.value.text
    ensures l.agentId.None? || l.agentId.value != ""
    ensures forall k :: 0 <= k < |l.tags| ==> l.tags[k] != ""
    ensures l.houseType == "" || l.houseType in Store.HouseTypeChoices || l.houseType == "0室"
  {
    var title := node.titleLink.value.text;
    var agentIdText := MetaOr(meta, "agentid", "");
    var tags := NonEmpty(NonEmptyStripped(node.labels));
    var (districtName, subDistrict) := SplitRegion(node.region);
    FangListing(
      sourceId := MetaOr(meta, "houseid", title),
      title := title,
      houseUrl := NormalizeUrl(node.titleLink.value.href, join),
      layout := info.layout,
      houseType := ToHouseType(info.layout),
      areaSqm := info.area,
      floor := info.floorText,
      totalFloors := info.totalFloors,
      orientation := NormalizeOrientation(info.orientation),
      priceTotalWan := node.prices.total,
      unitPrice := node.prices.unit,
      agentName := if node.agentLink.Some? then node.agentLink.value.text else "",
      agentStoreUrl := if node.agentLink.Some? then NormalizeUrl(node.agentLink.value.href, join) else "",
      agentId := if agentIdText == "" then None else Some(agentIdText),
      community := node.community,
      region := node.region,
      districtName := districtName,
      subDistrict := subDistrict,
      address := Join(NonEmpty([node.community, node.region]), " / "),
      tags := tags,
      coverImage := ExtractCover(node.cover, join),
      status := "available",
      decoration := DecorationChoices[draw.decoration % 3],
      buildYear := draw.buildYear,
      description := if tags == [] then "" else Join(tags, " | "),
      longitude := draw.longitude,
      latitude := draw.latitude,
      city := DefaultCity,
      dataSource := DefaultDataSource,
      scrapedAt := draw.scrapedAt)
  }

  /** The record falls back to the title as its source id exactly when the
      metadata has no usable "houseid". */
  lemma SourceIdFallback(node: Node, draw: Draw, join: string -> string)
    requires ParseNode(node, draw, join).Parsed?
    ensures var l := ParseNode(node, draw, join).listing;
      var meta := ExtractMetadata(node.metadata).value;
      if "houseid" in meta && JsonTruthy(meta["houseid"]) then l.sourceId == JsonStr(meta["houseid"]) && l.sourceId != ""
      else l.sourceId == l.title
  {
  }

  /** The address joins community and region with " / ", leaving out empty ones. */
  lemma AddressShapes(community: string, region: string)
    ensures Join(NonEmpty([community, region]), " / ") ==
      if community == "" then region
      else if region == "" then community
      else community + " / " + region
  {
    assert [community, region][1..] == [region];
    if community == "" {
      assert NonEmpty([community, region]) == NonEmpty([region]);
    } else {
      assert NonEmpty([community, region]) == [community] + NonEmpty([region]);
    }
  }

  // ------------------------------------------------------------ the batch

  /** The outcome of each node, in node order. */
  function Outcomes(nodes: seq<Node>, draws: seq<Draw>, join: string -> string): (os: seq<NodeOutcome>)
    requires |draws| == |nodes|
    ensures |os| == |nodes| && forall k :: 0 <= k < |nodes| ==> os[k] == ParseNode(nodes[k], draws[k], join)
  {
    seq(|nodes|, k requires 0 <= k < |nodes| => ParseNode(nodes[k], draws[k], join))
  }

  /** The listings of the Parsed outcomes, in order. */
  function Kept(os: seq<NodeOutcome>): (ls: seq<FangListing>)
    ensures |ls| <= |os|
  {
    if os == [] then []
    else
      var n := |os| - 1;
      if os[n].Parsed? then Kept(os[..n]) + [os[n].listing] else Kept(os[..n])
  }

  /** Keeping distributes over concatenation: no listing moves ahead of one
      from an earlier node. */
  lemma {:induction false} KeptAppend(a: seq<NodeOutcome>, b: seq<NodeOutcome>)
    ensures Kept(a + b) == Kept(a) + Kept(b)
    decreases |b|
  {
    if b == [] {
      assert a + b == a;
    } else {
      var n := |b| - 1;
      KeptAppend(a, b[..n]);
      assert (a + b)[..|a + b| - 1] == a + b[..n];
      assert (a + b)[|a + b| - 1] == b[n];
    }
  }

  /** When every node parses, each contributes exactly its listing, in place. */
  lemma {:induction false} KeptAllParsed(os: seq<NodeOutcome>)
    requires forall k :: 0 <= k < |os| ==> os[k].Parsed?
    ensures |Kept(os)| == |os|
    ensures forall k :: 0 <= k < |os| ==> Kept(os)[k] == os[k].listing
    decreases |os|
  {
    if os != [] {
      var n := |os| - 1;
      KeptAllParsed(os[..n]);
    }
  }

  /** A node without a title link or a raising node adds nothing. */
  lemma KeptDropsFailed(os: seq<NodeOutcome>, o: NodeOutcome)
    requires !o.Parsed?
    ensures Kept(os + [o]) == Kept(os)
  {
    assert (os + [o])[..|os|] == os;
  }

  /** parse_listings: walks the nodes in order, keeping each record that was
      built and dropping nodes without a title link and nodes that raised. */
  method ParseListings(nodes: seq<Node>, draws: seq<Draw>, join: string -> string) returns (listings: seq<FangListing>)
    requires |draws| == |nodes|
    ensures listings == Kept(Outcomes(nodes, draws, join))
    ensures |listings| <= |nodes|
  {
    ghost var os := Outcomes(nodes, draws, join);
    listings := [];
    var i := 0;
    while i < |nodes|
      invariant 0 <= i <= |nodes|
      invariant listings == Kept(os[..i])
    {
      assert os[..i + 1][..i] == os[..i];
      var outcome := ParseNode(nodes[i], draws[i], join);
      if outcome.Parsed? {
        listings := listings + [outcome.listing];
      }
      i := i + 1;
    }
    assert os[..i] == os;
  }

  // ------------------------------------------------------------ the export

  /** The dataclass's field names in declaration order: asdict()'s keys. */
  const ListingColumns: seq<string> := [
    "source_id", "title", "house_url", "layout", "house_type", "area_sqm", "floor", "total_floors",
    "orientation", "price_total_wan", "unit_price", "agent_name", "agent_store_url", "agent_id",
    "community", "region", "district_name", "sub_district", "address", "tags", "cover_image",
    "status", "decoration", "build_year", "description", "longitude", "latitude", "city",
    "data_source", "scraped_at"]

  /** The cell of the k-th field, the tags joined by ", ". */
  function CellOf(l: FangListing, k: nat): Cell
    requires k < |ListingColumns|
  {
    if k == 0 then Text(l.sourceId)
    else if k == 1 then Text(l.title)
    else if k == 2 then Text(l.houseUrl)
    else if k == 3 then Text(l.layout)
    else if k == 4 then Text(l.houseType)
    else if k == 5 then OptNum(l.areaSqm)
    else if k == 6 then Text(l.floor)
    else if k == 7 then (if l.totalFloors.Some? then Num(Dec(l.totalFloors.value, 0)) else Null)
    else if k == 8 then Text(l.orientation)
    else if k == 9 then OptNum(l.priceTotalWan)
    else if k == 10 then OptNum(l.unitPrice)
    else if k == 11 then Text(l.agentName)
    else if k == 12 then Text(l.agentStoreUrl)
    else if k == 13 then (if l.agentId.Some? then Text(l.agentId.value) else Null)
    else if k == 14 then Text(l.community)
    else if k == 15 then Text(l.region)
    else if k == 16 then Text(l.districtName)
    else if k == 17 then Text(l.subDistrict)
    else if k == 18 then Text(l.address)
    else if k == 19 then Text(Join(l.tags, ", "))
    else if k == 20 then Text(l.coverImage)
    else if k == 21 then Text(l.status)
    else if k == 22 then Text(l.decoration)
    else if k == 23 then Num(Dec(l.buildYear, 0))
    else if k == 24 then Text(l.description)
    else if k == 25 then Num(l.longitude)
    else if k == 26 then Num(l.latitude)
    else if k == 27 then Text(l.city)
    else if k == 28 then Text(l.dataSource)
    else Text(l.scrapedAt)
  }

  /** The spreadsheet row of a listing: asdict() with the tags flattened by
      ", ". */
  function AsDict(l: FangListing): (row: Row)
    ensures row.Keys == set c | c in ListingColumns
    ensures forall i :: 0 <= i < |ListingColumns| ==> row[ListingColumns[i]] == CellOf(l, i)
  {
    ColumnsDistinct();
    map i | 0 <= i < |ListingColumns| :: ListingColumns[i] := CellOf(l, i)
  }

  /** The field names are distinct, so every field has a column of its own. */
  lemma ColumnsDistinct()
    ensures forall i, j :: 0 <= i < j < |ListingColumns| ==> ListingColumns[i] != ListingColumns[j]
  {
    ColumnsDistinctFront();
    ColumnsDistinctBack();
    ColumnsDistinctAcross();
  }

  lemma ColumnsDistinctFront()
    ensures forall i, j :: 0 <= i < j < 15 ==> ListingColumns[i] != ListingColumns[j]
  {
  }

  lemma ColumnsDistinctBack()
    ensures forall i, j :: 15 <= i < j < 30 ==> ListingColumns[i] != ListingColumns[j]
  {
  }

  lemma ColumnsDistinctAcross()
    ensures forall i, j :: 0 <= i < 15 <= j < 30 ==> ListingColumns[i] != ListingColumns[j]
  {
  }

  function OptNum(d: Option<Dec>): Cell
  {
    if d.Some? then Num(d.value) else Null
  }

  function TextOf(c: Cell): string
  {
    if c.Text? then c.s else ""
  }

  function OptNumOf(c: Cell): Option<Dec>
  {
    if c.Num? then Some(c.d) else None
  }

  function NumOf(c: Cell): Dec
  {
    if c.Num? then c.d else Dec(0, 0)
  }

  function OptTextOf(c: Cell): Option<string>
  {
    if c.Text? then Some(c.s) else None
  }

  function OptNatOf(c: Cell): Option<nat>
  {
    if c.Num? && c.d.coef >= 0 then Some(c.d.coef as nat) else None
  }

  /** The cell under the k-th field's column. */
  function Column(row: Row, k: nat): Cell
    requires k < |ListingColumns|
  {
    Get(row, ListingColumns[k])
  }

  /** The listing a spreadsheet row describes, each field read back from
      the column named after it; the tags, flattened in the row, are given. */
  function ListingOf(row: Row, tags: seq<string>): FangListing
  {
    FangListing(
      TextOf(Column(row, 0)), TextOf(Column(row, 1)), TextOf(Column(row, 2)),
      TextOf(Column(row, 3)), TextOf(Column(row, 4)), OptNumOf(Column(row, 5)),
      TextOf(Column(row, 6)), OptNatOf(Column(row, 7)), TextOf(Column(row, 8)),
      OptNumOf(Column(row, 9)), OptNumOf(Column(row, 10)),
      TextOf(Column(row, 11)), TextOf(Column(row, 12)), OptTextOf(Column(row, 13)),
      TextOf(Column(row, 14)), TextOf(Column(row, 15)), TextOf(Column(row, 16)),
      TextOf(Column(row, 17)), TextOf(Column(row, 18)), tags, TextOf(Column(row, 20)),
      TextOf(Column(row, 21)), TextOf(Column(row, 22)), NumOf(Column(row, 23)).coef,
      TextOf(Column(row, 24)), NumOf(Column(row, 25)), NumOf(Column(row, 26)),
      TextOf(Column(row, 27)), TextOf(Column(row, 28)), TextOf(Column(row, 29)))
  }

  /** The row loses nothing but the tag boundaries: every field is found
      again under its own column. */
  lemma AsDictReadBack(l: FangListing)
    ensures ListingOf(AsDict(l), l.tags) == l
  {
    var row := AsDict(l);
    forall k | 0 <= k < |ListingColumns|
      ensures Column(row, k) == CellOf(l, k)
    {
      ColumnRead(l, row, k);
    }
    ReadBack0(l);
    ReadBack1(l);
    ReadBack2(l);
    ReadBack3(l);
    ReadBack4(l);
    ReadBack5(l);
  }

  /** The k-th column of a listing's row holds the k-th field's cell. */
  lemma ColumnRead(l: FangListing, row: Row, k: nat)
    requires row == AsDict(l) && k < |ListingColumns|
    ensures Column(row, k) == CellOf(l, k)
  {
  }

  lemma ReadBack0(l: FangListing)
    ensures TextOf(CellOf(l, 0)) == l.sourceId
      && TextOf(CellOf(l, 1)) == l.title
      && TextOf(CellOf(l, 2)) == l.houseUrl
      && TextOf(CellOf(l, 3)) == l.layout
      && TextOf(CellOf(l, 4)) == l.houseType
  {
  }

  lemma ReadBack1(l: FangListing)
    ensures OptNumOf(CellOf(l, 5)) == l.areaSqm
      && TextOf(CellOf(l, 6)) == l.floor
      && OptNatOf(CellOf(l, 7)) == l.totalFloors
      && TextOf(CellOf(l, 8)) == l.orientation
      && OptNumOf(CellOf(l, 9)) == l.priceTotalWan
  {
  }

  lemma ReadBack2(l: FangListing)
    ensures OptNumOf(CellOf(l, 10)) == l.unitPrice
      && TextOf(CellOf(l, 11)) == l.agentName
      && TextOf(CellOf(l, 12)) == l.agentStoreUrl
      && OptTextOf(CellOf(l, 13)) == l.agentId
      && TextOf(CellOf(l, 14)) == l.community
  {
  }

  lemma ReadBack3(l: FangListing)
    ensures TextOf(CellOf(l, 15)) == l.region
      && TextOf(CellOf(l, 16)) == l.districtName
      && TextOf(CellOf(l, 17)) == l.subDistrict
      && TextOf(CellOf(l, 18)) == l.address
      && TextOf(CellOf(l, 20)) == l.coverImage
  {
  }

  lemma ReadBack4(l: FangListing)
    ensures TextOf(CellOf(l, 21)) == l.status
      && TextOf(CellOf(l, 22)) == l.decoration
      && NumOf(CellOf(l, 23)).coef == l.buildYear
      && TextOf(CellOf(l, 24)) == l.description
      && NumOf(CellOf(l, 25)) == l.longitude
  {
  }

  lemma ReadBack5(l: FangListing)
    ensures NumOf(CellOf(l, 26)) == l.latitude
      && TextOf(CellOf(l, 27)) == l.city
      && TextOf(CellOf(l, 28)) == l.dataSource
      && TextOf(CellOf(l, 29)) == l.scrapedAt
  {
  }

  function SourceIds(ls: seq<FangListing>): set<string>
  {
    set k | 0 <= k < |ls| :: ls[k].sourceId
  }

  /** drop_duplicates on source_id: the listings whose source id has not been
      seen earlier in the batch, in order. */
  function DedupFirst(ls: seq<FangListing>): (r: seq<FangListing>)
    ensures |r| <= |ls|
  {
    if ls == [] then []
    else
      var n := |ls| - 1;
      var before := DedupFirst(ls[..n]);
      if ls[n].sourceId in SourceIds(before) then before else before + [ls[n]]
  }

  /** The kept listings have pairwise distinct source ids and cover every
      source id of the batch. */
  lemma {:induction false} DedupFirstIds(ls: seq<FangListing>)
    ensures SourceIds(DedupFirst(ls)) == SourceIds(ls)
    ensures forall a, b :: 0 <= a < b < |DedupFirst(ls)| ==> DedupFirst(ls)[a].sourceId != DedupFirst(ls)[b].sourceId
    decreases |ls|
  {
    if ls != [] {
      var n := |ls| - 1;
      var before := DedupFirst(ls[..n]);
      DedupFirstIds(ls[..n]);
      assert ls == ls[..n] + [ls[n]];
      SourceIdsSnoc(ls[..n], ls[n]);
      if ls[n].sourceId !in SourceIds(before) {
        SourceIdsSnoc(before, ls[n]);
        DistinctSnoc(before, ls[n]);
      }
    }
  }

  lemma SourceIdsSnoc(ls: seq<FangListing>, x: FangListing)
    ensures SourceIds(ls + [x]) == SourceIds(ls) + {x.sourceId}
  {
    var r := ls + [x];
    forall y | y in SourceIds(r) ensures y in SourceIds(ls) + {x.sourceId} {
      var k :| 0 <= k < |r| && r[k].sourceId == y;
      if k < |ls| {
        assert r[k] == ls[k];
      }
    }
    forall y | y in SourceIds(ls) ensures y in SourceIds(r) {
      var k :| 0 <= k < |ls| && ls[k].sourceId == y;
      assert r[k] == ls[k];
    }
    assert r[|ls|] == x;
  }

  lemma DistinctSnoc(ls: seq<FangListing>, x: FangListing)
    requires forall a, b :: 0 <= a < b < |ls| ==> ls[a].sourceId != ls[b].sourceId
    requires x.sourceId !in SourceIds(ls)
    ensures forall a, b :: 0 <= a < b < |ls + [x]| ==> (ls + [x])[a].sourceId != (ls + [x])[b].sourceId
  {
    var r := ls + [x];
    forall a, b | 0 <= a < b < |r| ensures r[a].sourceId != r[b].sourceId {
      if b == |ls| {
        assert r[a] == ls[a];
        assert r[a].sourceId in SourceIds(ls);
      } else {
        assert r[a] == ls[a] && r[b] == ls[b];
      }
    }
  }

  /** The batch positions of the kept listings: strictly increasing, so
      drop_duplicates keeps the listings in their batch order. */
  function KeptPositions(ls: seq<FangListing>): (p: seq<nat>)
    ensures |p| == |DedupFirst(ls)|
    ensures forall a :: 0 <= a < |p| ==> p[a] < |ls| && ls[p[a]] == DedupFirst(ls)[a]
    ensures forall a, b :: 0 <= a < b < |p| ==> p[a] < p[b]
    decreases |ls|
  {
    if ls == [] then []
    else
      var n := |ls| - 1;
      var before := KeptPositions(ls[..n]);
      assert forall a :: 0 <= a < |before| ==> ls[before[a]] == ls[..n][before[a]];
      if ls[n].sourceId in SourceIds(DedupFirst(ls[..n])) then before else before + [n]
  }

  /** No listing before position i has the source id of listing i. */
  predicate FirstOfItsId(ls: seq<FangListing>, i: nat)
    requires i < |ls|
  {
    forall j :: 0 <= j < i ==> ls[j].sourceId != ls[i].sourceId
  }

  /** Every kept listing is the first of the batch with its source id. */
  lemma {:induction false} DedupFirstKeepsFirst(ls: seq<FangListing>)
    ensures forall a :: 0 <= a < |DedupFirst(ls)| ==>
      exists i :: 0 <= i < |ls| && ls[i] == DedupFirst(ls)[a] && FirstOfItsId(ls, i)
    decreases |ls|
  {
    if ls != [] {
      var n := |ls| - 1;
      var before := DedupFirst(ls[..n]);
      DedupFirstKeepsFirst(ls[..n]);
      DedupFirstIds(ls[..n]);
      var r := DedupFirst(ls);
      forall a | 0 <= a < |r|
        ensures exists i :: 0 <= i < |ls| && ls[i] == r[a] && FirstOfItsId(ls, i)
      {
        if a < |before| {
          assert r[a] == before[a];
          var i :| 0 <= i < n && ls[..n][i] == before[a] && FirstOfItsId(ls[..n], i);
          assert ls[i] == r[a];
          assert forall j :: 0 <= j < i ==> ls[j] == ls[..n][j];
          assert FirstOfItsId(ls, i);
          assert 0 <= i < |ls| && ls[i] == r[a] && FirstOfItsId(ls, i);
        } else {
          assert r[a] == ls[n];
          assert ls[n].sourceId !in SourceIds(ls[..n]);
          forall j | 0 <= j < n ensures ls[j].sourceId != ls[n].sourceId {
            assert ls[j] == ls[..n][j];
            assert ls[..n][j].sourceId in SourceIds(ls[..n]);
          }
          assert FirstOfItsId(ls, n);
          assert 0 <= n < |ls| && ls[n] == r[a] && FirstOfItsId(ls, n);
        }
      }
      assert DedupFirst(ls) == r;
      assert forall a :: 0 <= a < |DedupFirst(ls)| ==>
        exists i :: 0 <= i < |ls| && ls[i] == DedupFirst(ls)[a] && FirstOfItsId(ls, i);
    } else {
      assert |DedupFirst(ls)| == 0;
    }
  }

  /** The distinct source ids of a duplicate-free batch are as many as its listings. */
  lemma {:induction false} DistinctIdsCount(ls: seq<FangListing>)
    requires forall a, b :: 0 <= a < b < |ls| ==> ls[a].sourceId != ls[b].sourceId
    ensures |SourceIds(ls)| == |ls|
    decreases |ls|
  {
    if ls != [] {
      var n := |ls| - 1;
      DistinctIdsCount(ls[..n]);
      assert SourceIds(ls) == SourceIds(ls[..n]) + {ls[n].sourceId} by {
        forall x | x in SourceIds(ls) ensures x in SourceIds(ls[..n]) + {ls[n].sourceId} {
          var k :| 0 <= k < |ls| && ls[k].sourceId == x;
          if k < n {
            assert ls[..n][k] == ls[k];
          }
        }
        forall x | x in SourceIds(ls[..n]) ensures x in SourceIds(ls) {
          var k :| 0 <= k < n && ls[..n][k].sourceId == x;
          assert ls[k] == ls[..n][k];
        }
      }
      assert ls[n].sourceId !in SourceIds(ls[..n]) by {
        forall k | 0 <= k < n ensures ls[..n][k].sourceId != ls[n].sourceId {
          assert ls[..n][k] == ls[k];
        }
      }
    }
  }

  /** str(Path(baseDir) / "data" / name): BASE_DIR is an absolute path that
      settings build with Path.resolve(), so it ends in a slash only when it
      is the root. */
  function DataPath(baseDir: string, name: string): (p: string)
    ensures StartsWith(p, baseDir) && EndsWith(p, "/data/" + name)
  {
    if EndsWith(baseDir, "/") then
      assert baseDir + "data/" + name == baseDir[..|baseDir| - 1] + ("/data/" + name);
      baseDir + "data/" + name
    else baseDir + ("/data/" + name)
  }

  /** The workbook's file name for a timestamp. */
  function ExportName(timestamp: string): string
  {
    "fang_top_" + timestamp + ".xlsx"
  }

  /** export_to_excel without the file: an empty batch gives no path and 0;
      otherwise the batch is de-duplicated on source_id, keeping the first of
      each, and the count of written rows is returned with the file path
      under BASE_DIR/data. */
  method ExportToExcel(listings: seq<FangListing>, baseDir: string, timestamp: string)
    returns (path: Option<string>, count: nat, rows: seq<Row>)
    ensures listings == [] ==> path.None? && count == 0 && rows == []
    ensures listings != [] ==> path == Some(DataPath(baseDir, ExportName(timestamp)))
    ensures count == |SourceIds(listings)| && |rows| == count && count == |DedupFirst(listings)|
    ensures forall k :: 0 <= k < |rows| ==> rows[k] == AsDict(DedupFirst(listings)[k])
  {
    if listings == [] {
      return None, 0, [];
    }
    var kept: seq<FangListing> := [];
    var i := 0;
    while i < |listings|
      invariant 0 <= i <= |listings|
      invariant kept == DedupFirst(listings[..i])
    {
      assert listings[..i + 1][..i] == listings[..i];
      if listings[i].sourceId !in SourceIds(kept) {
        kept := kept + [listings[i]];
      }
      i := i + 1;
    }
    assert listings[..i] == listings;
    DedupFirstIds(listings);
    DistinctIdsCount(kept);
    rows := seq(|kept|, k requires 0 <= k < |kept| => AsDict(kept[k]));
    path := Some(DataPath(baseDir, ExportName(timestamp)));
    count := |kept|;
  }

  datatype RunSummary = RunSummary(count: nat, outputPath: string, timestamp: string)

  /** run(): parse the page's nodes, export them, and report the count and path. */
  method Run(nodes: seq<Node>, draws: seq<Draw>, join: string -> string, baseDir: string, fileStamp: string, now: string)
    returns (summary: RunSummary)
    requires |draws| == |nodes|
    ensures summary.count == |SourceIds(Kept(Outcomes(nodes, draws, join)))|
    ensures summary.outputPath == if Kept(Outcomes(nodes, draws, join)) == [] then "" else DataPath(baseDir, ExportName(fileStamp))
    ensures summary.timestamp == now
  {
    var listings := ParseListings(nodes, draws, join);
    var path, count, _ := ExportToExcel(listings, baseDir, fileStamp);
    summary := RunSummary(count, if path.Some? then path.value else "", now);
  }
}
