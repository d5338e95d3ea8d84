/** The district and house endpoints: DistrictViewSet.destroy, HouseViewSet's
    price and area filters, retrieve, update, destroy, the two admin batch
    actions and map_data, and HouseImageViewSet.create. Each view is a method
    on the database that answers with the envelope; a refusal leaves the
    database as it was. */
module HouseViews {
  import opened Wrappers
  import opened Numbers
  import opened Text
  import opened Store
  import opened Common
  import Favorites
  import HouseSerializers
  import Seqs

  // ------------------------------------------------------------ guards

  /** instance.agent == request.user. */
  predicate Owns(h: House, me: Principal)
  {
    me.Member? && h.agentId == Some(me.id)
  }

  /** The guard of update and destroy: the owning agent, the "admin" role or
      a superuser. */
  predicate MayManage(h: House, me: Principal)
  {
    Owns(h, me) || (me.Member? && (me.user.role == "admin" || me.user.superuser))
  }

  /** The guard of the batch actions: the "admin" role or a superuser. */
  predicate IsAdmin(me: Principal)
  {
    me.Member? && (me.user.role == "admin" || me.user.superuser)
  }

  /** What IsAgentOrAdmin answers for the writing actions: None to let the
      request through, else the 401 or 403 DRF sends. */
  function WriteRefusal(me: Principal): (r: Option<Response>)
    ensures r.None? <==> IsAgentOrAdmin(me)
  {
    if !me.Member? then Some(Unauthenticated)
    else if !IsAgentOrAdmin(me) then Some(Refusal(403, PermissionDeniedDetail))
    else None
  }

  /** The guards as a whole: the refusal a writer gets is 401 for the
      anonymous user and 403 otherwise; an agent that does not own the house
      passes the viewset's permission but not the view's own check; the
      admin role passes both. */
  lemma GuardLayers(h: House, me: Principal)
    ensures WriteRefusal(me).Some? ==> WriteRefusal(me).value.status == (if me.Member? then 403 else 401)
    ensures me.Member? && me.user.role == "agent" && !me.user.superuser && !Owns(h, me) ==>
      WriteRefusal(me).None? && !MayManage(h, me)
    ensures me.Member? && me.user.role == "admin" ==> WriteRefusal(me).None? && MayManage(h, me)
  {
  }

  /** The envelope of a serializer's ValidationError: a 400 whose message is
      the first field's first error. */
  function Invalid(errors: seq<(string, Json)>): (r: Response)
    requires errors != [] && errors[0].1.JList? && errors[0].1.items != []
    ensures r.status == 400 && r.code == 400
  {
    var data := JObj(errors);
    assert ErrorMessage(data).Some?;
    ExceptionHandler(Handled(400, data)).value
  }

  // ------------------------------------------------------------ DistrictViewSet.destroy

  function HousesLeft(n: nat): string
  {
    "该区域下还有 " + IntToString(n) + " 套房源，无法删除"
  }

  /** DELETE /api/districts/{pk}/: refused with the number of its houses
      while any house is in the district; otherwise the district goes. */
  method DistrictDestroy(db: Db, me: Principal, pk: int) returns (resp: Response)
    requires db.Valid()
    modifies db
    ensures db.Valid()
    ensures !IsAgentOrAdmin(me) ==> resp == WriteRefusal(me).value && db.tables == old(db.tables)
    ensures IsAgentOrAdmin(me) && !Favorites.IsKey(old(db.tables.districts), pk) ==>
      resp == NotFound && db.tables == old(db.tables)
    ensures (IsAgentOrAdmin(me) && Favorites.IsKey(old(db.tables.districts), pk)
      && HouseSerializers.HousesOf(old(db.tables), pk as nat) != {}) ==>
      resp == ErrorResponse(HousesLeft(|HouseSerializers.HousesOf(old(db.tables), pk as nat)|), 400)
      && db.tables == old(db.tables)
    ensures (IsAgentOrAdmin(me) && Favorites.IsKey(old(db.tables.districts), pk)
      && HouseSerializers.HousesOf(old(db.tables), pk as nat) == {}) ==>
      resp == SuccessResponse(JNull, "删除成功", 204)
      && db.tables == old(db.tables).(districts := old(db.tables.districts) - {pk as nat})
  {
    var refusal := WriteRefusal(me);
    if refusal.Some? {
      return refusal.value;
    }
    if !Favorites.IsKey(db.tables.districts, pk) {
      return NotFound;
    }
    var houses := HouseSerializers.HousesOf(db.tables, pk as nat);
    if houses != {} {
      return ErrorResponse(HousesLeft(|houses|), 400);
    }
    db.DeleteDistrict(pk as nat);
    resp := SuccessResponse(JNull, "删除成功", 204);
  }

  /** The list's house_count and the refusal's count differ: a district whose
      only house is sold shows house_count 0 and still cannot be deleted. */
  lemma DistrictWithSoldHouse(t: Tables, did: nat, id: nat)
    requires id in t.houses && t.houses[id].districtId == did && t.houses[id].status == "sold"
    requires forall k :: k in t.houses ==> k == id
    ensures HouseSerializers.HouseCount(t, did) == 0
    ensures HouseSerializers.HousesOf(t, did) == {id}
  {
    assert HouseSerializers.AvailableOf(t, did) == {};
  }

  // ------------------------------------------------------------ get_queryset

  /** The four query parameters after parsing; None where the filter is not applied. */
  datatype Bounds = Bounds(minPrice: Option<Dec>, maxPrice: Option<Dec>, minArea: Option<Dec>, maxArea: Option<Dec>)

  /** A query parameter used as a DecimalField bound: absent or empty means no
      filter; text that is not a decimal number makes the lookup raise. */
  function Bound(params: map<string, string>, key: string): (r: Result<Option<Dec>>)
    ensures (key !in params || params[key] == "") ==> r == Ok(None)
    ensures key in params && params[key] != "" && ParseDec(params[key]).Some? ==> r == Ok(ParseDec(params[key]))
    ensures r.Err? <==> key in params && params[key] != "" && ParseDec(params[key]).None?
  {
    if key !in params || params[key] == "" then Ok(None)
    else match ParseDec(params[key])
      case Some(d) => Ok(Some(d))
      case None => Err("['“" + params[key] + "”的值必须是十进制数。']")
  }

  /** The bounds of get_queryset, applied in its order: min_price, max_price,
      min_area, max_area. */
  function QueryBounds(params: map<string, string>): (r: Result<Bounds>)
    ensures r.Ok? <==> (Bound(params, "min_price").Ok? && Bound(params, "max_price").Ok?
      && Bound(params, "min_area").Ok? && Bound(params, "max_area").Ok?)
    ensures r.Ok? ==> r.value == Bounds(Bound(params, "min_price").value, Bound(params, "max_price").value,
      Bound(params, "min_area").value, Bound(params, "max_area").value)
  {
    var minPrice := Bound(params, "min_price");
    var maxPrice := Bound(params, "max_price");
    var minArea := Bound(params, "min_area");
    var maxArea := Bound(params, "max_area");
    if minPrice.Err? then Err(minPrice.error)
    else if maxPrice.Err? then Err(maxPrice.error)
    else if minArea.Err? then Err(minArea.error)
    else if maxArea.Err? then Err(maxArea.error)
    else Ok(Bounds(minPrice.value, maxPrice.value, minArea.value, maxArea.value))
  }

  /** price__gte, price__lte, area__gte and area__lte. */
  predicate InBounds(h: House, b: Bounds)
  {
    && (b.minPrice.Some? ==> DecLe(b.minPrice.value, h.price))
    && (b.maxPrice.Some? ==> DecLe(h.price, b.maxPrice.value))
    && (b.minArea.Some? ==> DecLe(b.minArea.value, h.area))
    && (b.maxArea.Some? ==> DecLe(h.area, b.maxArea.value))
  }

  /** The bounds are inclusive (a house priced and sized exactly at both ends
      passes), no parameters mean no filter, and an empty parameter is
      ignored. */
  lemma BoundsInclusive(h: House, params: map<string, string>, key: string)
    ensures InBounds(h, Bounds(Some(h.price), Some(h.price), Some(h.area), Some(h.area)))
    ensures QueryBounds(map[]) == Ok(Bounds(None, None, None, None))
    ensures QueryBounds(params[key := ""]) == QueryBounds(params - {key})
  {
    var p, q := params[key := ""], params - {key};
    BoundsAtEnds(h);
    NoParamsNoBounds();
    BoundIgnored(params, key, "min_price");
    BoundIgnored(params, key, "max_price");
    BoundIgnored(params, key, "min_area");
    BoundIgnored(params, key, "max_area");
    QueryBoundsSame(p, q);
  }

  /** A house lies within bounds drawn at its own price and area. */
  lemma BoundsAtEnds(h: House)
    ensures InBounds(h, Bounds(Some(h.price), Some(h.price), Some(h.area), Some(h.area)))
  {
  }

  /** A query without parameters sets no bound. */
  lemma NoParamsNoBounds()
    ensures QueryBounds(map[]) == Ok(Bounds(None, None, None, None))
  {
  }

  lemma BoundIgnored(params: map<string, string>, key: string, k: string)
    ensures Bound(params[key := ""], k) == Bound(params - {key}, k)
  {
    if k == key {
      assert k !in params - {key};
    } else {
      assert (k in params[key := ""]) == (k in params - {key});
    }
  }

  /** The bounds depend on the four parameters only. */
  lemma QueryBoundsSame(p: map<string, string>, q: map<string, string>)
    requires Bound(p, "min_price") == Bound(q, "min_price") && Bound(p, "max_price") == Bound(q, "max_price")
    requires Bound(p, "min_area") == Bound(q, "min_area") && Bound(p, "max_area") == Bound(q, "max_area")
    ensures QueryBounds(p) == QueryBounds(q)
  {
  }

  // ------------------------------------------------------------ retrieve

  /** GET /api/houses/{pk}/: the house with views raised by one; no other
      field and no other row changes (only views is saved). The reply shows
      the id, the cover (as the house representation computes it, absolute
      when there is a request) and the new count of views. */
  method Retrieve(db: Db, pk: int, absolute: Option<string -> string>) returns (resp: Response)
    requires db.Valid()
    modifies db
    ensures db.Valid()
    ensures !Favorites.IsKey(old(db.tables.houses), pk) ==> resp == NotFound && db.tables == old(db.tables)
    ensures Favorites.IsKey(old(db.tables.houses), pk) ==>
      var h := old(db.tables.houses)[pk as nat];
      && db.tables == old(db.tables).(houses := old(db.tables.houses)[pk as nat := h.(views := h.views + 1)])
      && resp == SuccessResponse(JObj([("id", JInt(pk)),
                                       ("cover_image", HouseSerializers.CoverUrl(old(db.tables), pk as nat, absolute)),
                                       ("views", JInt(h.views + 1))]))
  {
    if !Favorites.IsKey(db.tables.houses, pk) {
      return NotFound;
    }
    var h := db.tables.houses[pk as nat];
    ghost var t := db.tables;
    db.SetHouse(pk as nat, h.(views := h.views + 1));
    var cover := HouseSerializers.CoverUrl(db.tables, pk as nat, absolute);
    HouseSerializers.CoverUnchanged(t, db.tables, pk as nat, absolute);
    resp := SuccessResponse(JObj([("id", JInt(pk)), ("cover_image", cover), ("views", JInt(h.views + 1))]));
  }

  // ------------------------------------------------------------ update

  const OrientationChoices: seq<string> := ["东", "南", "西", "北", "东南", "东北", "西南", "西北", "南北"]

  /** The writable fields of HouseCreateUpdateSerializer present in a
      request, already converted to their types; None for a field the
      request leaves out. district is the primary key given. */
  datatype HousePatch = HousePatch(
    title: Option<string>, district: Option<int>, address: Option<string>,
    price: Option<Dec>, unitPrice: Option<Dec>, area: Option<Dec>,
    houseType: Option<string>, floor: Option<string>, totalFloors: Option<int>,
    orientation: Option<string>, decoration: Option<string>, buildYear: Option<Option<int>>,
    longitude: Option<Option<Dec>>, latitude: Option<Option<Dec>>,
    description: Option<string>, coverImage: Option<string>, status: Option<string>)

  /** One field's verdict: a required field missing from a full update, or a
      present value that the field refuses. */
  function FieldCheck(given: bool, partial: bool, required: bool, valid: bool, complaint: string): (r: Result<bool>)
    ensures r.Err? <==> (!given && required && !partial) || (given && !valid)
  {
    if !given then (if required && !partial then Err(Favorites.FieldRequired) else Ok(true))
    else if valid then Ok(true) else Err(complaint)
  }

  function NotAChoice(s: string): string
  {
    "“" + s + "” 不是合法选项。"
  }

  function NoSuchDistrict(pk: int): string
  {
    "无效主键 “" + IntToString(pk) + "” - 对象不存在。"
  }

  /** The field checks, in the serializer's field order. Only presence, the
      district key and the three choice fields are checked. */
  function FieldChecks(t: Tables, p: HousePatch, partial: bool): seq<(string, Result<bool>)>
  {
    [ ("title", FieldCheck(p.title.Some?, partial, true, true, "")),
      ("district", FieldCheck(p.district.Some?, partial, true,
        p.district.Some? && Favorites.IsKey(t.districts, p.district.value), NoSuchDistrict(p.district.GetOr(0)))),
      ("address", FieldCheck(p.address.Some?, partial, true, true, "")),
      ("price", FieldCheck(p.price.Some?, partial, true, true, "")),
      ("unit_price", FieldCheck(p.unitPrice.Some?, partial, true, true, "")),
      ("area", FieldCheck(p.area.Some?, partial, true, true, "")),
      ("house_type", FieldCheck(p.houseType.Some?, partial, true,
        p.houseType.Some? && p.houseType.value in HouseTypeChoices, NotAChoice(p.houseType.GetOr("")))),
      ("floor", FieldCheck(p.floor.Some?, partial, true, true, "")),
      ("total_floors", FieldCheck(p.totalFloors.Some?, partial, true, true, "")),
      ("orientation", FieldCheck(p.orientation.Some?, partial, true,
        p.orientation.Some? && p.orientation.value in OrientationChoices, NotAChoice(p.orientation.GetOr("")))),
      ("status", FieldCheck(p.status.Some?, partial, false,
        p.status.Some? && p.status.value in HouseStatusChoices, NotAChoice(p.status.GetOr(""))))
    ]
  }

  /** is_valid(): the field errors if any, else validate()'s cross-field rule. */
  function Validated(t: Tables, p: HousePatch, partial: bool): (r: Favorites.Checked<HousePatch>)
    ensures r.Accepted? ==> r.value == p
    ensures r.Accepted? ==> HouseSerializers.ValidatePrices(p.price, p.unitPrice, p.area).None?
    ensures r.Accepted? ==> p.district.Some? ==> Favorites.IsKey(t.districts, p.district.value)
    ensures r.Accepted? ==> p.status.Some? ==> p.status.value in HouseStatusChoices
    ensures r.Accepted? && !partial ==> p.title.Some? && p.district.Some? && p.price.Some? && p.area.Some?
    ensures r.Rejected? ==> r.errors != [] && r.errors[0].1.JList? && r.errors[0].1.items != []
  {
    var checks := FieldChecks(t, p, partial);
    var errors := Favorites.Failures(checks);
    if errors != [] then Favorites.Rejected(errors)
    else
      assert checks[1].1.Ok? && checks[3].1.Ok? && checks[5].1.Ok? && checks[10].1.Ok?;
      assert checks[0].1.Ok?;
      match HouseSerializers.ValidatePrices(p.price, p.unitPrice, p.area)
      case Some(msg) => Favorites.Rejected([Favorites.FieldError(NonFieldErrorsKey, msg)])
      case None => Favorites.Accepted(p)
  }

  /** The house after save(): every given field replaced, the others kept,
      updated_at set to now. */
  function Patched(h: House, p: HousePatch, now: int): (r: House)
    ensures r.agentId == h.agentId && r.views == h.views && r.updatedAt == now
  {
    h.(title := p.title.GetOr(h.title),
       districtId := if p.district.Some? && p.district.value >= 0 then p.district.value as nat else h.districtId,
       address := p.address.GetOr(h.address),
       price := p.price.GetOr(h.price), unitPrice := p.unitPrice.GetOr(h.unitPrice), area := p.area.GetOr(h.area),
       houseType := p.houseType.GetOr(h.houseType), floor := p.floor.GetOr(h.floor),
       totalFloors := p.totalFloors.GetOr(h.totalFloors), orientation := p.orientation.GetOr(h.orientation),
       decoration := p.decoration.GetOr(h.decoration), buildYear := p.buildYear.GetOr(h.buildYear),
       longitude := p.longitude.GetOr(h.longitude), latitude := p.latitude.GetOr(h.latitude),
       description := p.description.GetOr(h.description), coverImage := p.coverImage.GetOr(h.coverImage),
       status := p.status.GetOr(h.status), updatedAt := now)
  }

  function OptionalDecimal(d: Option<Dec>, places: nat): Json
  {
    if d.Some? then DecimalJson(d.value, places) else JNull
  }

  /** HouseCreateUpdateSerializer's representation of a saved house. */
  function HouseFields(h: House, build: string -> string): Json
  {
    JObj([
      ("title", JStr(h.title)), ("district", JInt(h.districtId)), ("address", JStr(h.address)),
      ("price", DecimalJson(h.price, 2)), ("unit_price", DecimalJson(h.unitPrice, 2)),
      ("area", DecimalJson(h.area, 2)), ("house_type", JStr(h.houseType)), ("floor", JStr(h.floor)),
      ("total_floors", JInt(h.totalFloors)), ("orientation", JStr(h.orientation)),
      ("decoration", JStr(h.decoration)),
      ("build_year", if h.buildYear.Some? then JInt(h.buildYear.value) else JNull),
      ("longitude", OptionalDecimal(h.longitude, 7)), ("latitude", OptionalDecimal(h.latitude, 7)),
      ("description", JStr(h.description)),
      ("cover_image", HouseSerializers.ImageUrl(h.coverImage, Some(build))),
      ("status", JStr(h.status))])
  }

  const NoEditRight := "您没有权限编辑该房源"
  const NoDeleteRight := "您没有权限删除该房源"

  /** PUT (partial false) or PATCH (partial true) /api/houses/{pk}/. */
  method Update(db: Db, me: Principal, pk: int, p: HousePatch, partial: bool, now: int, build: string -> string)
    returns (resp: Response)
    requires db.Valid()
    modifies db
    ensures db.Valid()
    ensures !IsAgentOrAdmin(me) ==> resp == WriteRefusal(me).value && db.tables == old(db.tables)
    ensures IsAgentOrAdmin(me) && !Favorites.IsKey(old(db.tables.houses), pk) ==>
      resp == NotFound && db.tables == old(db.tables)
    ensures IsAgentOrAdmin(me) && Favorites.IsKey(old(db.tables.houses), pk) && !MayManage(old(db.tables.houses)[pk as nat], me) ==>
      resp == ErrorResponse(NoEditRight, 403) && db.tables == old(db.tables)
    ensures (IsAgentOrAdmin(me) && Favorites.IsKey(old(db.tables.houses), pk) && MayManage(old(db.tables.houses)[pk as nat], me)
      && Validated(old(db.tables), p, partial).Rejected?) ==>
      resp == Invalid(Validated(old(db.tables), p, partial).errors) && db.tables == old(db.tables)
    ensures (IsAgentOrAdmin(me) && Favorites.IsKey(old(db.tables.houses), pk) && MayManage(old(db.tables.houses)[pk as nat], me)
      && Validated(old(db.tables), p, partial).Accepted?) ==>
      var h := Patched(old(db.tables.houses)[pk as nat], p, now);
      && db.tables == old(db.tables).(houses := old(db.tables.houses)[pk as nat := h])
      && resp == SuccessResponse(HouseFields(h, build), "更新成功")
  {
    var refusal := WriteRefusal(me);
    if refusal.Some? {
      return refusal.value;
    }
    if !Favorites.IsKey(db.tables.houses, pk) {
      return NotFound;
    }
    var old_ := db.tables.houses[pk as nat];
    if !MayManage(old_, me) {
      return ErrorResponse(NoEditRight, 403);
    }
    var checked := Validated(db.tables, p, partial);
    if checked.Rejected? {
      return Invalid(checked.errors);
    }
    var h := Patched(old_, p, now);
    db.SetHouse(pk as nat, h);
    resp := SuccessResponse(HouseFields(h, build), "更新成功");
  }

  /** An accepted update keeps the house's agent, its views and every other
      row; a PATCH that gives no field changes only updated_at; and a status
      it stores is one of the model's choices. */
  lemma PatchEffect(t: Tables, h: House, p: HousePatch, now: int)
    requires Validated(t, p, true).Accepted?
    ensures Patched(h, p, now).agentId == h.agentId && Patched(h, p, now).views == h.views
    ensures p.status.Some? ==> Patched(h, p, now).status in HouseStatusChoices
    ensures p == HousePatch(None, None, None, None, None, None, None, None, None, None, None, None, None, None, None, None, None) ==>
      Patched(h, p, now) == h.(updatedAt := now)
  {
  }

  /** A full update must carry every required field: leaving out the title is
      refused with the title's error first. */
  lemma FullUpdateNeedsTitle(t: Tables, p: HousePatch)
    requires p.title.None?
    ensures Validated(t, p, false) == Favorites.Rejected(Validated(t, p, false).errors)
    ensures Validated(t, p, false).errors[0] == Favorites.FieldError("title", Favorites.FieldRequired)
  {
    var checks := FieldChecks(t, p, false);
    assert checks[0].1 == Err(Favorites.FieldRequired);
  }

  // ------------------------------------------------------------ destroy

  /** DELETE /api/houses/{pk}/: the house and every row referring to it go. */
  method Destroy(db: Db, me: Principal, pk: int) returns (resp: Response)
    requires db.Valid()
    modifies db
    ensures db.Valid()
    ensures !IsAgentOrAdmin(me) ==> resp == WriteRefusal(me).value && db.tables == old(db.tables)
    ensures IsAgentOrAdmin(me) && !Favorites.IsKey(old(db.tables.houses), pk) ==>
      resp == NotFound && db.tables == old(db.tables)
    ensures IsAgentOrAdmin(me) && Favorites.IsKey(old(db.tables.houses), pk) && !MayManage(old(db.tables.houses)[pk as nat], me) ==>
      resp == ErrorResponse(NoDeleteRight, 403) && db.tables == old(db.tables)
    ensures IsAgentOrAdmin(me) && Favorites.IsKey(old(db.tables.houses), pk) && MayManage(old(db.tables.houses)[pk as nat], me) ==>
      db.tables == WithoutHouses(old(db.tables), {pk as nat})
      && resp == SuccessResponse(JNull, "删除成功", 204)
  {
    var refusal := WriteRefusal(me);
    if refusal.Some? {
      return refusal.value;
    }
    if !Favorites.IsKey(db.tables.houses, pk) {
      return NotFound;
    }
    if !MayManage(db.tables.houses[pk as nat], me) {
      return ErrorResponse(NoDeleteRight, 403);
    }
    var _ := db.DeleteHouses({pk as nat});
    resp := SuccessResponse(JNull, "删除成功", 204);
  }

  // ------------------------------------------------------------ the batch actions

  const AdminOnly := "此功能仅限管理员使用"
  const MissingIdsAndStatus := "缺少必要参数: ids 和 status"
  const MissingIds := "缺少必要参数: ids"

  /** The statuses batch_update_status accepts. */
  const BatchStatuses: seq<string> := ["available", "sold", "rented", "pending"]

  /** dict.get(key, default). */
  function Get(body: map<string, Json>, key: string, default: Json): Json
  {
    if key in body then body[key] else default
  }

  /** The ids of a list as id__in takes them: None items are dropped; the
      first item that is not an integer makes the lookup raise. */
  function IdItems(items: seq<Json>): (r: Result<set<int>>)
    ensures r.Ok? ==> forall x :: x in items && x != JNull ==> LookupKey(x).Ok? && LookupKey(x).value in r.value
    ensures r.Ok? ==> forall k :: k in r.value ==> exists x :: x in items && x != JNull && LookupKey(x) == Ok(k)
  {
    if items == [] then Ok({})
    else
      var rest := IdItems(items[1..]);
      if items[0] == JNull then rest
      else match LookupKey(items[0])
        case Err(e) => Err(e)
        case Ok(k) => if rest.Err? then rest else Ok({k} + rest.value)
  }

  /** id__in=ids for any value: a list gives its items, a string its
      characters, a dict its keys; a number or a boolean is not iterable. */
  function IdValues(ids: Json): (r: Result<set<int>>)
    ensures ids.JList? ==> r == IdItems(ids.items)
  {
    match ids
    case JList(items) => IdItems(items)
    case JStr(s) => IdItems(seq(|s|, i requires 0 <= i < |s| => JStr([s[i]])))
    case JObj(entries) => IdItems(seq(|entries|, i requires 0 <= i < |entries| => JStr(entries[i].0)))
    case JInt(_) => Err("'int' object is not iterable")
    case JNum(_) => Err("'float' object is not iterable")
    case JBool(_) => Err("'bool' object is not iterable")
    case JNull => Err("'NoneType' object is not iterable")
  }

  /** The houses filter(id__in=ids) selects. */
  function Matched(t: Tables, ids: set<int>): (r: set<nat>)
    ensures forall k :: k in r <==> k in t.houses && (k as int) in ids
  {
    set k | k in t.houses && (k as int) in ids
  }

  /** The check of the new status against a list of allowed values. */
  function StatusError(status: Json, allowed: seq<string>): (r: Option<string>)
    ensures r.None? <==> status.JStr? && status.s in allowed
  {
    if status.JStr? && status.s in allowed then None
    else Some("状态值无效，必须是: " + Join(allowed, ", "))
  }

  /** The houses after update(status=s) on the selected ids: only the status
      of the selected rows changes (updated_at is not touched by update()). */
  function StatusSet(houses: map<nat, House>, selected: set<nat>, s: string): (r: map<nat, House>)
    ensures r.Keys == houses.Keys
    ensures forall k :: k in houses && k !in selected ==> r[k] == houses[k]
    ensures forall k :: k in houses && k in selected ==> r[k] == houses[k].(status := s)
  {
    map k | k in houses :: if k in selected then houses[k].(status := s) else houses[k]
  }

  /** Rewriting house rows in place keeps every invariant as long as no key
      appears or disappears and no district or agent reference changes. */
  lemma HousesRewrittenValid(t: Tables, houses: map<nat, House>)
    requires t.Valid() && houses.Keys == t.houses.Keys
    requires forall id :: id in houses ==> houses[id].districtId == t.houses[id].districtId
    requires forall id :: id in houses ==> houses[id].agentId == t.houses[id].agentId
    ensures t.(houses := houses).Valid()
  {
    var r := t.(houses := houses);
    assert r.IdsBelow();
    assert r.HousesLinked();
    assert r.ChildrenLinked();
  }

  /** QuerySet.update(status=s) on the selected houses. */
  method SetStatuses(db: Db, selected: set<nat>, s: string)
    requires db.Valid()
    modifies db
    ensures db.Valid()
    ensures db.tables == old(db.tables).(houses := StatusSet(old(db.tables.houses), selected, s))
  {
    ghost var t := db.tables;
    var houses := StatusSet(db.tables.houses, selected, s);
    HousesRewrittenValid(t, houses);
    db.tables := db.tables.(houses := houses);
  }

  /** POST /api/houses/batch_update_status/. */
  method BatchUpdateStatus(db: Db, me: Principal, body: map<string, Json>) returns (resp: Response)
    requires db.Valid()
    modifies db
    ensures db.Valid()
    ensures !me.Member? ==> resp == Unauthenticated && db.tables == old(db.tables)
    ensures me.Member? && !IsAdmin(me) ==> resp == ErrorResponse(AdminOnly, 403) && db.tables == old(db.tables)
    ensures IsAdmin(me) && (!Truthy(Get(body, "ids", JList([]))) || !Truthy(Get(body, "status", JStr("")))) ==>
      resp == ErrorResponse(MissingIdsAndStatus) && db.tables == old(db.tables)
    ensures (IsAdmin(me) && Truthy(Get(body, "ids", JList([]))) && Truthy(Get(body, "status", JStr("")))
      && StatusError(body["status"], BatchStatuses).Some?) ==>
      resp == ErrorResponse(StatusError(body["status"], BatchStatuses).value) && db.tables == old(db.tables)
    ensures (IsAdmin(me) && Truthy(Get(body, "ids", JList([]))) && StatusError(Get(body, "status", JStr("")), BatchStatuses).None?
      && IdValues(body["ids"]).Err?) ==>
      resp == ExceptionHandler(Unhandled(IdValues(body["ids"]).error)).value && db.tables == old(db.tables)
    ensures (IsAdmin(me) && Truthy(Get(body, "ids", JList([]))) && StatusError(Get(body, "status", JStr("")), BatchStatuses).None?
      && IdValues(body["ids"]).Ok?) ==>
      var selected := Matched(old(db.tables), IdValues(body["ids"]).value);
      && db.tables == old(db.tables).(houses := StatusSet(old(db.tables.houses), selected, body["status"].s))
      && resp == SuccessResponse(JObj([("updated_count", JInt(|selected|))]),
           "成功更新 " + IntToString(|selected|) + " 个房源的状态")
  {
    if !me.Member? {
      return Unauthenticated;
    }
    if !IsAdmin(me) {
      return ErrorResponse(AdminOnly, 403);
    }
    var ids := Get(body, "ids", JList([]));
    var status := Get(body, "status", JStr(""));
    if !Truthy(ids) || !Truthy(status) {
      return ErrorResponse(MissingIdsAndStatus);
    }
    var complaint := StatusError(status, BatchStatuses);
    if complaint.Some? {
      return ErrorResponse(complaint.value);
    }
    var values := IdValues(ids);
    if values.Err? {
      return ExceptionHandler(Unhandled(values.error)).value;
    }
    var selected := Matched(db.tables, values.value);
    SetStatuses(db, selected, status.s);
    resp := SuccessResponse(JObj([("updated_count", JInt(|selected|))]),
      "成功更新 " + IntToString(|selected|) + " 个房源的状态");
  }

  /** What a batch status update does to the table: the count is at most
      the number of houses, houses not listed are untouched, and a listed
      house keeps every field but its status. */
  lemma BatchUpdateEffect(t: Tables, ids: set<int>, s: string, k: nat)
    requires k in t.houses
    ensures |Matched(t, ids)| <= |t.houses|
    ensures (k as int) !in ids ==> StatusSet(t.houses, Matched(t, ids), s)[k] == t.houses[k]
    ensures (k as int) in ids ==> StatusSet(t.houses, Matched(t, ids), s)[k].(status := t.houses[k].status) == t.houses[k]
  {
    Seqs.SubsetCard(Matched(t, ids), t.houses.Keys);
  }

  /** The list the code checks against is not the model's status choices:
      "rented" and "pending" are accepted and stored though House does not
      offer them, and "reserved", which it does offer, is refused. */
  lemma BatchStatusesAsWritten()
    ensures StatusError(JStr("rented"), BatchStatuses).None? && "rented" !in HouseStatusChoices
    ensures StatusError(JStr("pending"), BatchStatuses).None? && "pending" !in HouseStatusChoices
    ensures StatusError(JStr("reserved"), BatchStatuses).Some? && "reserved" in HouseStatusChoices
  {
  }

  /** Checked against the model's own choices instead, a batch update
      accepts exactly those statuses and keeps every house's status among
      them. */
  lemma CorrectedBatchStatus(t: Tables, ids: set<int>, status: Json)
    requires forall k :: k in t.houses ==> t.houses[k].status in HouseStatusChoices
    requires StatusError(status, HouseStatusChoices).None?
    ensures status.JStr? && status.s in HouseStatusChoices
    ensures var r := StatusSet(t.houses, Matched(t, ids), status.s);
      forall k :: k in r ==> r[k].status in HouseStatusChoices
  {
  }

  /** POST /api/houses/batch_delete/: the selected houses go with every row
      referring to them; the count reported is the one QuerySet.delete()
      returns, which includes those rows. */
  method BatchDelete(db: Db, me: Principal, body: map<string, Json>) returns (resp: Response)
    requires db.Valid()
    modifies db
    ensures db.Valid()
    ensures !me.Member? ==> resp == Unauthenticated && db.tables == old(db.tables)
    ensures me.Member? && !IsAdmin(me) ==> resp == ErrorResponse(AdminOnly, 403) && db.tables == old(db.tables)
    ensures IsAdmin(me) && !Truthy(Get(body, "ids", JList([]))) ==>
      resp == ErrorResponse(MissingIds) && db.tables == old(db.tables)
    ensures IsAdmin(me) && Truthy(Get(body, "ids", JList([]))) && IdValues(body["ids"]).Err? ==>
      resp == ExceptionHandler(Unhandled(IdValues(body["ids"]).error)).value && db.tables == old(db.tables)
    ensures IsAdmin(me) && Truthy(Get(body, "ids", JList([]))) && IdValues(body["ids"]).Ok? ==>
      var selected := Matched(old(db.tables), IdValues(body["ids"]).value);
      var n := Removed(old(db.tables), WithoutHouses(old(db.tables), selected));
      && db.tables == WithoutHouses(old(db.tables), selected)
      && resp == SuccessResponse(JObj([("deleted_count", JInt(n))]), "成功删除 " + IntToString(n) + " 个房源")
  {
    if !me.Member? {
      return Unauthenticated;
    }
    if !IsAdmin(me) {
      return ErrorResponse(AdminOnly, 403);
    }
    var ids := Get(body, "ids", JList([]));
    if !Truthy(ids) {
      return ErrorResponse(MissingIds);
    }
    var values := IdValues(ids);
    if values.Err? {
      return ExceptionHandler(Unhandled(values.error)).value;
    }
    var selected := Matched(db.tables, values.value);
    var n := db.DeleteHouses(selected);
    resp := SuccessResponse(JObj([("deleted_count", JInt(n))]), "成功删除 " + IntToString(n) + " 个房源");
  }

  /** The count batch_delete reports is not a number of houses: deleting one
      house that has one image reports 2. */
  lemma BatchDeleteCountsCascade(d: District, h: House, img: HouseImage)
    requires h.districtId == 1 && h.agentId.None? && img.houseId == 2
    ensures var t := Tables(map[1 := d], map[], map[2 := h], map[3 := img], map[], map[], map[], 4);
      t.Valid() && Removed(t, WithoutHouses(t, {2})) == 2 && |Matched(t, {2})| == 1
  {
    var t := Tables(map[1 := d], map[], map[2 := h], map[3 := img], map[], map[], map[], 4);
    var r := WithoutHouses(t, {2});
    assert r.houses == map[];
    assert r.images == map[];
    assert r.transactions == map[] && r.favorites == map[] && r.alerts == map[];
    assert Matched(t, {2}) == {2};
  }

  /** The number of houses a batch delete removes. */
  function HousesDeleted(t: Tables, ids: set<int>): nat
  {
    |Matched(t, ids)|
  }

  /** The number of houses deleted is the number of selected houses that
      existed, and it is at most the count QuerySet.delete() reports. */
  lemma HousesDeletedCount(t: Tables, ids: set<int>)
    ensures HousesDeleted(t, ids) == |t.houses| - |WithoutHouses(t, Matched(t, ids)).houses|
    ensures HousesDeleted(t, ids) <= Removed(t, WithoutHouses(t, Matched(t, ids)))
  {
    var m := Matched(t, ids);
    var r := WithoutHouses(t, m);
    assert r.houses.Keys == t.houses.Keys - m;
    DifferenceCard(t.houses.Keys, m);
    Seqs.SubsetCard(r.images.Keys, t.images.Keys);
    Seqs.SubsetCard(r.transactions.Keys, t.transactions.Keys);
    Seqs.SubsetCard(r.favorites.Keys, t.favorites.Keys);
    Seqs.SubsetCard(r.alerts.Keys, t.alerts.Keys);
  }

  /** Taking away a subset removes exactly its elements. */
  lemma DifferenceCard(a: set<nat>, m: set<nat>)
    requires m <= a
    ensures |a - m| == |a| - |m|
  {
    assert a == (a - m) + m;
    assert (a - m) * m == {};
  }

  // ------------------------------------------------------------ map_data

  /** The houses map_data shows: within the bounds, available, with both
      coordinates. */
  predicate OnMap(h: House, b: Bounds)
  {
    InBounds(h, b) && h.status == "available" && h.longitude.Some? && h.latitude.Some?
  }

  /** The ids of the houses shown among those with ids from `from` on, newest
      first (ordering -created_at). */
  function MapIds(t: Tables, b: Bounds, from: nat): (r: seq<nat>)
    ensures forall k :: k in r ==> k in t.houses && OnMap(t.houses[k], b)
    decreases t.nextId - from
  {
    if from >= t.nextId then []
    else MapIds(t, b, from + 1) + (if from in t.houses && OnMap(t.houses[from], b) then [from] else [])
  }

  /** The ids are exactly the shown houses in the range, newest first. */
  lemma {:induction false} MapIdsExactly(t: Tables, b: Bounds, from: nat)
    ensures forall k :: k in MapIds(t, b, from) <==> from <= k < t.nextId && k in t.houses && OnMap(t.houses[k], b)
    ensures forall i, j :: 0 <= i < j < |MapIds(t, b, from)| ==> MapIds(t, b, from)[i] > MapIds(t, b, from)[j]
    decreases t.nextId - from
  {
    if from < t.nextId {
      MapIdsExactly(t, b, from + 1);
      var rest := MapIds(t, b, from + 1);
      assert forall x :: x in rest ==> x > from;
      if from in t.houses && OnMap(t.houses[from], b) {
        var r := rest + [from];
        assert MapIds(t, b, from) == r;
        forall i, j | 0 <= i < j < |r|
          ensures r[i] > r[j]
        {
          if j == |rest| {
            assert r[i] in rest;
          }
        }
      } else {
        assert MapIds(t, b, from) == rest;
      }
    }
  }

  /** The cover URL map_data means to ask the house for: the URL of its
      cover_image when set, otherwise of its first image, otherwise none;
      the same fallback the house serializer shows. */
  function CoverPath(t: Tables, k: nat): Option<string>
    requires k in t.houses
  {
    var h := t.houses[k];
    if h.coverImage != "" then Some(HouseSerializers.FileUrl(h.coverImage))
    else match HouseSerializers.FirstImage(t.images, k, t.nextId)
      case Some(i) => Some(HouseSerializers.FileUrl(t.images[i].image))
      case None => None
  }

  /** A media URL is relative, so the map's cover is the serializer's
      absolute cover URL for the same request. */
  lemma MapCoverIsSerializerCover(t: Tables, k: nat, build: string -> string)
    requires k in t.houses
    ensures CoverEntry(CoverPath(t, k), build) == HouseSerializers.CoverUrl(t, k, Some(build))
  {
    forall name: string
      ensures !StartsWith(HouseSerializers.FileUrl(name), "http")
    {
      assert HouseSerializers.FileUrl(name)[0] == '/';
    }
  }

  /** The cover entry: the cover URL, made absolute unless it already starts
      with "http". */
  function CoverEntry(url: Option<string>, build: string -> string): Json
  {
    match url
    case None => JNull
    case Some(u) => if u != "" && !StartsWith(u, "http") then JStr(build(u)) else JStr(u)
  }

  /** One GeoJSON feature. */
  function Feature(t: Tables, k: nat, build: string -> string): Json
    requires t.HousesLinked() && k in t.houses && t.houses[k].longitude.Some? && t.houses[k].latitude.Some?
  {
    var h := t.houses[k];
    JObj([
      ("type", JStr("Feature")),
      ("geometry", JObj([("type", JStr("Point")),
        ("coordinates", JList([JNum(h.longitude.value), JNum(h.latitude.value)]))])),
      ("properties", JObj([
        ("id", JInt(k)), ("title", JStr(h.title)), ("price", JNum(h.price)),
        ("unit_price", JNum(h.unitPrice)), ("area", JNum(h.area)), ("house_type", JStr(h.houseType)),
        ("address", JStr(h.address)), ("cover_image", CoverEntry(CoverPath(t, k), build)),
        ("district", JInt(h.districtId)), ("district_name", JStr(t.districts[h.districtId].name))]))])
  }

  /** The features of a list of shown houses, in list order. */
  function Features(t: Tables, b: Bounds, ids: seq<nat>, build: string -> string): (r: seq<Json>)
    requires t.HousesLinked()
    requires forall k :: k in ids ==> k in t.houses && OnMap(t.houses[k], b)
    ensures |r| == |ids|
  {
    if ids == [] then []
    else
      var x := ids[|ids| - 1];
      assert x in ids;
      assert OnMap(t.houses[x], b);
      Features(t, b, ids[..|ids| - 1], build) + [Feature(t, ids[|ids| - 1], build)]
  }

  /** GET /api/houses/map_data/: a FeatureCollection of the shown houses,
      newest first. */
  method MapData(db: Db, params: map<string, string>, build: string -> string)
    returns (resp: Response)
    requires db.Valid()
    ensures QueryBounds(params).Err? ==> resp == ExceptionHandler(Unhandled(QueryBounds(params).error)).value
    ensures QueryBounds(params).Ok? ==>
      var b := QueryBounds(params).value;
      resp == SuccessResponse(JObj([("type", JStr("FeatureCollection")),
        ("features", JList(Features(db.tables, b, MapIds(db.tables, b, 0), build)))]))
  {
    var bounds := QueryBounds(params);
    if bounds.Err? {
      return ExceptionHandler(Unhandled(bounds.error)).value;
    }
    var b := bounds.value;
    var features := FeatureLoop(db, b, build);
    resp := SuccessResponse(JObj([("type", JStr("FeatureCollection")), ("features", JList(features))]));
  }

  /** The loop of map_data over the selected houses. */
  method FeatureLoop(db: Db, b: Bounds, build: string -> string)
    returns (features: seq<Json>)
    requires db.Valid()
    ensures features == Features(db.tables, b, MapIds(db.tables, b, 0), build)
  {
    var t := db.tables;
    var k: nat := db.tables.nextId;
    features := [];
    MapIdsExactly(t, b, k);
    while k > 0
      invariant k <= t.nextId
      invariant features == Features(t, b, MapIds(t, b, k), build)
      decreases k
    {
      k := k - 1;
      MapIdsExactly(t, b, k);
      ghost var ids := MapIds(t, b, k + 1);
      if k in db.tables.houses && OnMap(db.tables.houses[k], b) {
        assert MapIds(t, b, k) == ids + [k];
        assert (ids + [k])[..|ids|] == ids;
        features := features + [Feature(t, k, build)];
      } else {
        assert MapIds(t, b, k) == ids;
      }
    }
    MapIdsExactly(t, b, 0);
  }

  /** The district name always comes from the house's district: the district
      key is never empty, so the "未知区域" fallback is never shown. */
  lemma MapDistrictName(t: Tables, b: Bounds, k: nat, build: string -> string)
    requires t.Valid() && k in MapIds(t, b, 0)
    ensures var f := Feature(t, k, build);
      f.JObj? && |f.entries| == 3 && f.entries[2].1.JObj?
      && f.entries[2].1.entries[9] == ("district_name", JStr(t.districts[t.houses[k].districtId].name))
  {
    MapIdsExactly(t, b, 0);
  }

  /** map_data calls house.get_cover_image_url(), which House does not
      define: the AttributeError reaches the exception handler. */
  const NoCoverMethod := "'House' object has no attribute 'get_cover_image_url'"

  /** map_data as written: a bad bound fails as in MapData; otherwise the
      first shown house raises on the missing cover method, so only a map
      without houses is answered. */
  function MapDataAsWritten(t: Tables, params: map<string, string>): (resp: Response)
    ensures QueryBounds(params).Err? ==> resp == ExceptionHandler(Unhandled(QueryBounds(params).error)).value
    ensures QueryBounds(params).Ok? && MapIds(t, QueryBounds(params).value, 0) == [] ==>
      resp == SuccessResponse(JObj([("type", JStr("FeatureCollection")), ("features", JList([]))]))
    ensures QueryBounds(params).Ok? && MapIds(t, QueryBounds(params).value, 0) != [] ==>
      resp.status == 500 && resp.msg == ServerErrorPrefix + NoCoverMethod
  {
    match QueryBounds(params)
    case Err(e) => ExceptionHandler(Unhandled(e)).value
    case Ok(b) =>
      if MapIds(t, b, 0) == [] then
        SuccessResponse(JObj([("type", JStr("FeatureCollection")), ("features", JList([]))]))
      else ExceptionHandler(Unhandled(NoCoverMethod)).value
  }

  /** Any available house with coordinates inside the bounds breaks the map
      as written with a 500, where MapData lists its feature. */
  lemma MapDataAsWrittenFails(t: Tables, params: map<string, string>, k: nat, build: string -> string)
    requires t.Valid() && QueryBounds(params).Ok?
    requires k in t.houses && OnMap(t.houses[k], QueryBounds(params).value)
    ensures MapDataAsWritten(t, params).status == 500
    ensures MapDataAsWritten(t, params).msg == ServerErrorPrefix + NoCoverMethod
    ensures k in MapIds(t, QueryBounds(params).value, 0)
    ensures Feature(t, k, build) in Features(t, QueryBounds(params).value, MapIds(t, QueryBounds(params).value, 0), build)
  {
    var b := QueryBounds(params).value;
    MapIdsExactly(t, b, 0);
    FeaturesListed(t, b, MapIds(t, b, 0), k, build);
  }

  /** Every listed house has its feature among the features. */
  lemma {:induction false} FeaturesListed(t: Tables, b: Bounds, ids: seq<nat>, k: nat, build: string -> string)
    requires t.HousesLinked()
    requires forall x :: x in ids ==> x in t.houses && OnMap(t.houses[x], b)
    requires k in ids && k in t.houses && OnMap(t.houses[k], b)
    ensures Feature(t, k, build) in Features(t, b, ids, build)
  {
    var last := ids[|ids| - 1];
    if k != last {
      assert k in ids[..|ids| - 1] by {
        var i :| 0 <= i < |ids| && ids[i] == k;
        assert ids[..|ids| - 1][i] == k;
      }
      FeaturesListed(t, b, ids[..|ids| - 1], k, build);
    }
  }

  // ------------------------------------------------------------ HouseImageViewSet.create

  const NoFile := "请选择要上传的图片文件"
  const NoUploadRight := "您没有权限为该房源上传图片"
  const NotAnInteger := "请填写合法的整数值。"

  /** Text matched by `0*\s*` up to its end: zeros, then white space. */
  predicate ZeroTail(t: string)
  {
    || t == []
    || (t[0] == '0' && ZeroTail(t[1..]))
    || (forall j :: 0 <= j < |t| ==> IsSpace(t[j]))
  }

  lemma {:induction false} ZeroTailNoPoint(t: string, j: nat)
    requires ZeroTail(t) && j < |t|
    ensures t[j] != '.'
  {
    if t[0] == '0' && ZeroTail(t[1..]) && j > 0 {
      ZeroTailNoPoint(t[1..], j - 1);
    }
  }

  /** IntegerField's re_decimal.sub('', text): a point followed by nothing but
      zeros and then white space is dropped, together with what follows it. */
  function StripZeroFraction(s: string): (r: string)
    ensures forall i :: 0 <= i < |s| && s[i] == '.' && ZeroTail(s[i + 1..]) ==> r == s[..i]
    ensures (forall i :: 0 <= i < |s| && s[i] == '.' ==> !ZeroTail(s[i + 1..])) ==> r == s
  {
    if s == [] then []
    else if s[0] == '.' && ZeroTail(s[1..]) then
      assert forall i :: 0 < i < |s| ==> s[i] != '.' by {
        forall i | 0 < i < |s| ensures s[i] != '.' {
          ZeroTailNoPoint(s[1..], i - 1);
        }
      }
      []
    else
      var r := [s[0]] + StripZeroFraction(s[1..]);
      assert forall i :: 0 < i < |s| ==> s[1..][i - 1] == s[i] && s[1..][i..] == s[i + 1..];
      r
  }

  /** The order field: an IntegerField that defaults to 0. The upload is a
      multipart form, so an empty value counts as absent; text and numbers
      are read by int() after re_decimal drops a fraction of zeros. */
  function OrderField(v: Option<Json>): (r: Result<int>)
    ensures v.None? || v == Some(JStr("")) ==> r == Ok(0)
    ensures v.Some? && v.value.JInt? ==> r == Ok(v.value.i)
    ensures v.Some? && v.value.JStr? && v.value.s != "" ==>
      (r.Ok? <==> ParseInt(StripZeroFraction(v.value.s)).Some?)
    ensures v.Some? && v.value.JStr? && r.Ok? && v.value.s != "" ==> r.value == ParseInt(StripZeroFraction(v.value.s)).value
    ensures v.Some? && (v.value.JNull? || v.value.JList? || v.value.JObj?) ==> r.Err?
  {
    match v
    case None => Ok(0)
    case Some(JNull) => Err(Favorites.FieldNull)
    case Some(JInt(i)) => Ok(i)
    case Some(JStr(s)) =>
      if s == "" then Ok(0)
      else if ParseInt(StripZeroFraction(s)).Some? then Ok(ParseInt(StripZeroFraction(s)).value)
      else Err(NotAnInteger)
    case Some(JNum(d)) => if d.coef % Pow10(d.places) == 0 then Ok(d.coef / Pow10(d.places)) else Err(NotAnInteger)
    case Some(_) => Err(NotAnInteger)
  }

  lemma {:induction false} ZerosAreZero(k: nat)
    ensures forall j :: 0 <= j < k ==> Zeros(k)[j] == '0'
  {
    if k > 0 {
      ZerosAreZero(k - 1);
      assert Zeros(k) == Zeros(k - 1) + ['0'];
    }
  }

  lemma {:induction false} ZerosTail(t: string)
    requires forall j :: 0 <= j < |t| ==> t[j] == '0'
    ensures ZeroTail(t)
  {
    if t != [] {
      ZerosTail(t[1..]);
    }
  }

  /** An order written with a fraction of zeros, "5.0" or "5.000", reads as
      the integer before the point. */
  lemma OrderZeroFraction(n: int, k: nat)
    ensures OrderField(Some(JStr(IntToString(n) + "." + Zeros(k)))) == Ok(n)
  {
    ParseIntText(n);
    PointZerosStripped(IntToString(n), k);
    ParseIntRender(n);
  }

  lemma PointZerosStripped(a: string, k: nat)
    requires '.' !in a
    ensures StripZeroFraction(a + "." + Zeros(k)) == a
  {
    var s := a + "." + Zeros(k);
    ZerosAreZero(k);
    ZerosTail(Zeros(k));
    assert s[|a|] == '.' && s[|a| + 1..] == Zeros(k);
    assert s[..|a|] == a;
  }

  /** HouseImageSerializer on the request: the house key, the uploaded file
      (`fileError` is the image field's complaint about it, if any) and the
      order, in field order. */
  function ImageFromRequest(t: Tables, body: map<string, Json>, name: string, fileError: Option<string>)
    : (r: Favorites.Checked<HouseImage>)
    ensures r.Accepted? ==> r.value.houseId in t.houses && r.value.image == name
    ensures r.Accepted? <==> (Favorites.HouseIdField(t, Favorites.Opt(body, "house")).Ok? && fileError.None?
      && OrderField(Favorites.Opt(body, "order")).Ok?)
    ensures r.Accepted? ==> r.value.houseId == Favorites.HouseIdField(t, Favorites.Opt(body, "house")).value
    ensures r.Rejected? ==> r.errors != [] && r.errors[0].1.JList? && r.errors[0].1.items != []
  {
    var house := Favorites.HouseIdField(t, Favorites.Opt(body, "house"));
    var file: Result<bool> := if fileError.Some? then Err(fileError.value) else Ok(true);
    var order := OrderField(Favorites.Opt(body, "order"));
    if house.Err? || file.Err? || order.Err? then
      var errors := Favorites.Failures([("house", Favorites.Flag(house)), ("image", file), ("order", Favorites.Flag(order))]);
      assert errors != [] by {
        var fields := [("house", Favorites.Flag(house)), ("image", file), ("order", Favorites.Flag(order))];
        assert !fields[0].1.Ok? || !fields[1].1.Ok? || !fields[2].1.Ok?;
      }
      Favorites.Rejected(errors)
    else Favorites.Accepted(HouseImage(house.value, name, order.value))
  }

  /** POST /api/house-images/: `file` is the stored name of the uploaded
      image, None when the request carries no "image" file. */
  method ImageCreate(db: Db, me: Principal, body: map<string, Json>, file: Option<string>,
                     fileError: Option<string>, build: string -> string) returns (resp: Response)
    requires db.Valid()
    modifies db
    ensures db.Valid()
    ensures !IsAgentOrAdmin(me) ==> resp == WriteRefusal(me).value && db.tables == old(db.tables)
    ensures IsAgentOrAdmin(me) && file.None? ==> resp == ErrorResponse(NoFile, 400) && db.tables == old(db.tables)
    ensures IsAgentOrAdmin(me) && file.Some? && ImageFromRequest(old(db.tables), body, file.value, fileError).Rejected? ==>
      resp == Invalid(ImageFromRequest(old(db.tables), body, file.value, fileError).errors)
      && db.tables == old(db.tables)
    ensures IsAgentOrAdmin(me) && file.Some? && ImageFromRequest(old(db.tables), body, file.value, fileError).Accepted? ==>
      var img := ImageFromRequest(old(db.tables), body, file.value, fileError).value;
      var house := old(db.tables.houses)[img.houseId];
      (!Owns(house, me) && !me.user.staff ==>
        resp == ErrorResponse(NoUploadRight, 403) && db.tables == old(db.tables))
      && (Owns(house, me) || me.user.staff ==>
        db.tables == old(db.tables).(images := old(db.tables.images)[old(db.tables.nextId) := img], nextId := old(db.tables.nextId) + 1)
        && resp == SuccessResponse(JObj([("id", JInt(old(db.tables.nextId))), ("house", JInt(img.houseId)),
             ("image", HouseSerializers.ImageUrl(img.image, Some(build))), ("order", JInt(img.order))]),
             "图片上传成功", 201))
  {
    var refusal := WriteRefusal(me);
    if refusal.Some? {
      return refusal.value;
    }
    if file.None? {
      return ErrorResponse(NoFile, 400);
    }
    var checked := ImageFromRequest(db.tables, body, file.value, fileError);
    if checked.Rejected? {
      return Invalid(checked.errors);
    }
    var img := checked.value;
    if !Owns(db.tables.houses[img.houseId], me) && !me.user.staff {
      return ErrorResponse(NoUploadRight, 403);
    }
    var id := db.AddImage(img);
    resp := SuccessResponse(JObj([("id", JInt(id)), ("house", JInt(img.houseId)),
      ("image", HouseSerializers.ImageUrl(img.image, Some(build))), ("order", JInt(img.order))]),
      "图片上传成功", 201);
  }

  /** An upload naming a house that does not exist is refused by the
      serializer with a 400 before the view's own lookup, so its 404 branch is
      never reached. */
  lemma UnknownHouseIs400(t: Tables, body: map<string, Json>, name: string, fileError: Option<string>, k: int)
    requires "house" in body && body["house"] == JInt(k) && !Favorites.IsKey(t.houses, k)
    ensures ImageFromRequest(t, body, name, fileError).Rejected?
    ensures Invalid(ImageFromRequest(t, body, name, fileError).errors).status == 400
  {
  }
}
