/** The house serializers: a district's house_count, the image and cover URLs
    of the representations, and HouseCreateUpdateSerializer.validate. File
    URLs are MEDIA_URL plus the stored name; the request's
    build_absolute_uri is a parameter, absent when the serializer has no
    request. */
module HouseSerializers {
  import opened Wrappers
  import opened Numbers
  import opened Text
  import opened Store
  import opened Common
  import ExcelImporter
  import Seqs

  // ------------------------------------------------------------ DistrictSerializer

  /** The ids of the houses of a district. */
  function HousesOf(t: Tables, did: nat): (r: set<nat>)
    ensures forall id :: id in r <==> id in t.houses && t.houses[id].districtId == did
  {
    set id | id in t.houses && t.houses[id].districtId == did
  }

  /** The ids of the district's houses whose status is "available". */
  function AvailableOf(t: Tables, did: nat): (r: set<nat>)
    ensures r <= HousesOf(t, did)
  {
    set id | id in HousesOf(t, did) && t.houses[id].status == "available"
  }

  /** get_house_count. */
  function HouseCount(t: Tables, did: nat): (n: nat)
  {
    |AvailableOf(t, did)|
  }

  /** house_count counts only available houses: it is at most the number of
      the district's houses, it is zero when none of them is available, and a
      house that is sold or reserved can be added without changing it. */
  lemma HouseCountAvailableOnly(t: Tables, did: nat, id: nat, h: House)
    requires id !in t.houses && h.status != "available"
    ensures HouseCount(t, did) <= |HousesOf(t, did)|
    ensures (forall k :: k in HousesOf(t, did) ==> t.houses[k].status != "available") ==> HouseCount(t, did) == 0
    ensures HouseCount(t.(houses := t.houses[id := h]), did) == HouseCount(t, did)
  {
    Seqs.SubsetCard(AvailableOf(t, did), HousesOf(t, did));
    var t2 := t.(houses := t.houses[id := h]);
    assert AvailableOf(t2, did) == AvailableOf(t, did);
  }

  // ------------------------------------------------------------ file URLs

  /** FieldFile.url for a stored name: the name under MEDIA_URL, which Django
      serves from the root of the site. */
  function FileUrl(name: string): (u: string)
    ensures u == "/media/" + name
  {
    ExcelImporter.MediaUrl + name
  }

  /** The URL a representation shows for a relative URL: the absolute URI
      built from the request when there is one, else the relative URL. */
  function Served(url: string, absolute: Option<string -> string>): (r: string)
    ensures absolute.None? ==> r == url
    ensures absolute.Some? ==> r == absolute.value(url)
  {
    match absolute
    case None => url
    case Some(build) => build(url)
  }

  /** HouseImageSerializer's image entry: null for an image without a file,
      otherwise its URL, absolute when there is a request. */
  function ImageUrl(name: string, absolute: Option<string -> string>): (r: Json)
    ensures name == "" <==> r == JNull
    ensures name != "" && absolute.None? ==> r == JStr(FileUrl(name))
  {
    if name == "" then JNull else JStr(Served(FileUrl(name), absolute))
  }

  /** The relative URL the serializer shows for a stored path leads back,
      under the Excel importer's normalisation, to that path without its
      leading slashes: the two agree on MEDIA_URL. */
  lemma ImageUrlRoundTrip(name: string)
    requires name != ""
    ensures ImageUrl(name, None) == JStr(FileUrl(name))
    ensures ExcelImporter.MediaRelative(FileUrl(name)) == LStripChar(name, '/')
    ensures name[0] != '/' ==> ExcelImporter.MediaRelative(FileUrl(name)) == name
  {
    var u := FileUrl(name);
    assert u == ExcelImporter.MediaUrl + name;
    assert StartsWith(u, ExcelImporter.MediaUrl) by {
      assert u[..|ExcelImporter.MediaUrl|] == ExcelImporter.MediaUrl;
    }
    assert u[|ExcelImporter.MediaUrl|..] == name;
  }

  // ------------------------------------------------------------ the cover

  /** The image of a house that images.first() returns among the ids below
      `bound`: the smallest order, and among equal orders the oldest row. */
  function FirstImage(images: map<nat, HouseImage>, hid: nat, bound: nat): (r: Option<nat>)
    ensures r.None? <==> forall k :: k in images && k < bound ==> images[k].houseId != hid
    ensures r.Some? ==> r.value in images && r.value < bound && images[r.value].houseId == hid
    ensures r.Some? ==> forall k :: k in images && k < bound && images[k].houseId == hid ==>
      images[r.value].order < images[k].order
      || (images[r.value].order == images[k].order && r.value <= k)
  {
    if bound == 0 then None
    else
      var k := bound - 1;
      var best := FirstImage(images, hid, k);
      if k in images && images[k].houseId == hid
        && (best.None? || images[k].order < images[best.value].order)
      then Some(k)
      else best
  }

  /** The cover a house representation shows: its cover_image when set,
      otherwise the first of its images, otherwise null; a URL is absolute
      when there is a request. */
  function CoverUrl(t: Tables, hid: nat, absolute: Option<string -> string>): (r: Json)
    requires hid in t.houses
  {
    var h := t.houses[hid];
    if h.coverImage != "" then JStr(Served(FileUrl(h.coverImage), absolute))
    else match FirstImage(t.images, hid, t.nextId)
      case Some(k) => JStr(Served(FileUrl(t.images[k].image), absolute))
      case None => JNull
  }

  /** The cover depends on the house's cover_image and on the images only:
      saving another field of the house leaves it as it was. */
  lemma CoverUnchanged(t: Tables, u: Tables, hid: nat, absolute: Option<string -> string>)
    requires hid in t.houses && hid in u.houses && u.houses[hid].coverImage == t.houses[hid].coverImage
    requires u.images == t.images && u.nextId == t.nextId
    ensures CoverUrl(u, hid, absolute) == CoverUrl(t, hid, absolute)
  {
  }

  /** The cover fallback: null exactly when the house has neither a cover
      image nor any image; the cover image wins when set; otherwise, without
      a request, it is the URL of an image of the house with the smallest
      order. */
  lemma CoverFallback(t: Tables, hid: nat, absolute: Option<string -> string>)
    requires t.IdsBelow() && hid in t.houses
    ensures CoverUrl(t, hid, absolute) == JNull <==>
      t.houses[hid].coverImage == "" && forall k :: k in t.images ==> t.images[k].houseId != hid
    ensures t.houses[hid].coverImage != "" ==>
      CoverUrl(t, hid, absolute) == JStr(Served(FileUrl(t.houses[hid].coverImage), absolute))
    ensures t.houses[hid].coverImage == "" && CoverUrl(t, hid, None) != JNull ==>
      exists k :: k in t.images && t.images[k].houseId == hid
        && CoverUrl(t, hid, None) == JStr(FileUrl(t.images[k].image))
        && forall j :: j in t.images && t.images[j].houseId == hid ==> t.images[k].order <= t.images[j].order
  {
    if t.houses[hid].coverImage == "" {
      var first := FirstImage(t.images, hid, t.nextId);
      if first.Some? {
        var k := first.value;
        assert forall j :: j in t.images ==> j < t.nextId;
        assert CoverUrl(t, hid, None) == JStr(FileUrl(t.images[k].image));
      }
    }
  }

  // ------------------------------------------------------------ HouseCreateUpdateSerializer.validate

  const PriceMismatch := "总价与单价面积不匹配"

  /** A decimal as a real number. */
  function Real(d: Dec): real
  {
    d.coef as real / Pow10(d.places) as real
  }

  /** The total a unit price (yuan per square metre) and an area give, in
      units of ten thousand yuan. */
  function Computed(unitPrice: Dec, area: Dec): real
  {
    Real(unitPrice) * Real(area) / 10000.0
  }

  /** validate(attrs): a complaint only when price, area and unit_price are
      all among the validated fields and the total they imply is more than
      one (ten thousand yuan) away from the price. */
  function ValidatePrices(price: Option<Dec>, unitPrice: Option<Dec>, area: Option<Dec>): (r: Option<string>)
    ensures r.Some? ==> r.value == PriceMismatch
  {
    if price.Some? && area.Some? && unitPrice.Some? then
      var diff := Computed(unitPrice.value, area.value) - Real(price.value);
      if diff > 1.0 || diff < -1.0 then Some(PriceMismatch) else None
    else None
  }

  /** The rule: with any of the three missing nothing is checked; with all
      three it is refused exactly when |unit_price * area / 10000 - price| > 1,
      so a price within one of the computed total either way is accepted. */
  lemma PriceRule(price: Option<Dec>, unitPrice: Option<Dec>, area: Option<Dec>)
    ensures price.None? || unitPrice.None? || area.None? ==> ValidatePrices(price, unitPrice, area).None?
    ensures price.Some? && unitPrice.Some? && area.Some? ==>
      var c := Computed(unitPrice.value, area.value);
      var p := Real(price.value);
      (ValidatePrices(price, unitPrice, area).Some? <==> p < c - 1.0 || p > c + 1.0)
  {
  }

  /** The refusal as the client sees it: a 400 whose message is the error
      under the "errors" key. */
  lemma PriceMismatchEnvelope()
    ensures ExceptionHandler(Handled(400, JObj([(NonFieldErrorsKey, JList([JStr(PriceMismatch)]))])))
      == Some(Response(400, "errors: " + PriceMismatch, JObj([]), 400))
  {
    var key := NonFieldErrorsKey;
    MessagePrecedence("", "", key, PriceMismatch, []);
    assert [JStr(PriceMismatch)] + [] == [JStr(PriceMismatch)];
    assert ErrorMessage(JObj([(key, JList([JStr(PriceMismatch)] + []))])) == Some(key + ": " + PriceMismatch);
    var data := JObj([(key, JList([JStr(PriceMismatch)]))]);
    assert JObj([(key, JList([JStr(PriceMismatch)] + []))]) == data;
    assert key + ": " == "errors: ";
  }
}
