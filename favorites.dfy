/** Favourites and price alerts: the alert state machine
    (PriceAlert.check_and_trigger), the favourite toggle and check, alert
    cancel and per-house check, the two serializers' validation and creation,
    and the per-user querysets. */
module Favorites {
  import opened Wrappers
  import opened Numbers
  import opened Store
  import opened Common
  import Text

  // ------------------------------------------------------------ the alert state machine

  /** check_and_trigger on alert `a` when its house costs `price`, at time
      `now`: the alert afterwards and the flag returned. */
  function CheckedAlert(a: PriceAlert, price: Dec, now: int): (r: (PriceAlert, bool))
    ensures r.1 <==> a.status == "active" && DecLe(price, a.targetPrice)
    ensures !r.1 ==> r.0 == a
  {
    if a.status == "active" && DecLe(price, a.targetPrice) then
      (a.(status := "triggered", triggeredAt := Some(now)), true)
    else (a, false)
  }

  /** A trigger moves an active alert to "triggered" with its time set and
      touches nothing else; the status stays one of the three choices; and a
      second check after a trigger fires no more, whatever the price then. */
  lemma AlertLifecycle(a: PriceAlert, price: Dec, now: int, price2: Dec, now2: int)
    ensures var (b, fired) := CheckedAlert(a, price, now);
      fired ==> (b.status == "triggered" && b.triggeredAt == Some(now)
        && b == a.(status := b.status, triggeredAt := b.triggeredAt))
    ensures var (b, fired) := CheckedAlert(a, price, now);
      a.status in AlertStatusChoices ==> b.status in AlertStatusChoices
    ensures var (b, fired) := CheckedAlert(a, price, now);
      fired ==> CheckedAlert(b, price2, now2) == (b, false)
  {
  }

  /** PriceAlert.check_and_trigger followed by its save(). */
  method CheckAndTrigger(db: Db, id: nat, now: int) returns (triggered: bool)
    requires db.Valid() && id in db.tables.alerts
    modifies db
    ensures db.Valid()
    ensures var a := old(db.tables.alerts[id]);
      var r := CheckedAlert(a, old(db.tables.houses[a.houseId].price), now);
      triggered == r.1 && db.tables == old(db.tables).(alerts := old(db.tables.alerts)[id := r.0])
    ensures !triggered ==> db.tables == old(db.tables)
  {
    var a := db.tables.alerts[id];
    var r := CheckedAlert(a, db.tables.houses[a.houseId].price, now);
    triggered := r.1;
    if triggered {
      db.SetAlert(id, r.0);
    }
  }

  // ------------------------------------------------------------ per-user querysets

  /** Favorite.objects.filter(user=request.user). */
  function FavoritesOf(t: Tables, uid: nat): (r: map<nat, Favorite>)
    ensures forall k :: k in r <==> k in t.favorites && t.favorites[k].userId == uid
    ensures forall k :: k in r ==> r[k] == t.favorites[k] && r[k].userId == uid
  {
    map k | k in t.favorites && t.favorites[k].userId == uid :: t.favorites[k]
  }

  /** PriceAlert.objects.filter(user=request.user). */
  function AlertsOf(t: Tables, uid: nat): (r: map<nat, PriceAlert>)
    ensures forall k :: k in r <==> k in t.alerts && t.alerts[k].userId == uid
    ensures forall k :: k in r ==> r[k] == t.alerts[k] && r[k].userId == uid
  {
    map k | k in t.alerts && t.alerts[k].userId == uid :: t.alerts[k]
  }

  // ------------------------------------------------------------ favourites as pairs

  /** The (user, house) pairs that are favourited. */
  function Pairs(t: Tables): set<(nat, nat)>
  {
    set k | k in t.favorites :: (t.favorites[k].userId, t.favorites[k].houseId)
  }

  function PairIs(u: nat, h: nat): Favorite -> bool
  {
    (f: Favorite) => f.userId == u && f.houseId == h
  }

  /** The store after toggling the pair (u, h): the favourite found is
      deleted, or a new one (with an empty note) is inserted. */
  function Toggled(t: Tables, u: nat, h: nat): Tables
  {
    match LastKey(t.favorites, PairIs(u, h), t.nextId)
    case Some(k) => t.(favorites := t.favorites - {k})
    case None => t.(favorites := t.favorites[t.nextId := Favorite(u, h, "")], nextId := t.nextId + 1)
  }

  /** The lookup finds the pair exactly when it is favourited. */
  lemma PairFound(t: Tables, u: nat, h: nat)
    requires t.IdsBelow()
    ensures LastKey(t.favorites, PairIs(u, h), t.nextId).Some? <==> (u, h) in Pairs(t)
  {
    var found := LastKey(t.favorites, PairIs(u, h), t.nextId);
    if (u, h) in Pairs(t) {
      var k :| k in t.favorites && (t.favorites[k].userId, t.favorites[k].houseId) == (u, h);
      assert PairIs(u, h)(t.favorites[k]);
    }
    if found.Some? {
      var f := t.favorites[found.value];
      assert (f.userId, f.houseId) in Pairs(t);
    }
  }

  /** Inserting a favourite under a fresh id adds its pair. */
  lemma PairsAdded(t: Tables, f: Favorite)
    requires t.IdsBelow()
    ensures Pairs(t.(favorites := t.favorites[t.nextId := f], nextId := t.nextId + 1))
      == Pairs(t) + {(f.userId, f.houseId)}
  {
    var r := t.(favorites := t.favorites[t.nextId := f], nextId := t.nextId + 1);
    var n := t.nextId;
    assert (f.userId, f.houseId) == (r.favorites[n].userId, r.favorites[n].houseId);
    forall p | p in Pairs(t)
      ensures p in Pairs(r)
    {
      var j :| j in t.favorites && (t.favorites[j].userId, t.favorites[j].houseId) == p;
      assert j != n && r.favorites[j] == t.favorites[j];
    }
    forall p | p in Pairs(r)
      ensures p in Pairs(t) + {(f.userId, f.houseId)}
    {
      var j :| j in r.favorites && (r.favorites[j].userId, r.favorites[j].houseId) == p;
      if j != n {
        assert r.favorites[j] == t.favorites[j];
      }
    }
  }

  /** Deleting a favourite removes its pair and no other, since no other
      favourite has the same pair. */
  lemma PairsRemoved(t: Tables, k: nat)
    requires t.Unique() && k in t.favorites
    ensures Pairs(t.(favorites := t.favorites - {k}))
      == Pairs(t) - {(t.favorites[k].userId, t.favorites[k].houseId)}
  {
    var r := t.(favorites := t.favorites - {k});
    var q := (t.favorites[k].userId, t.favorites[k].houseId);
    forall p | p in Pairs(t) && p != q
      ensures p in Pairs(r)
    {
      var j :| j in t.favorites && (t.favorites[j].userId, t.favorites[j].houseId) == p;
      assert j != k && j in r.favorites;
    }
    forall p | p in Pairs(r)
      ensures p in Pairs(t) && p != q
    {
      var j :| j in r.favorites && (r.favorites[j].userId, r.favorites[j].houseId) == p;
      assert j != k && r.favorites[j] == t.favorites[j];
      assert !SamePair(t.favorites[j], t.favorites[k]);
    }
  }

  /** Toggling flips the membership of (u, h) and of no other pair. */
  lemma ToggledPairs(t: Tables, u: nat, h: nat)
    requires t.Unique() && t.IdsBelow()
    ensures Pairs(Toggled(t, u, h)) == if (u, h) in Pairs(t) then Pairs(t) - {(u, h)} else Pairs(t) + {(u, h)}
  {
    PairFound(t, u, h);
    match LastKey(t.favorites, PairIs(u, h), t.nextId)
    case Some(k) =>
      PairsRemoved(t, k);
    case None =>
      PairsAdded(t, Favorite(u, h, ""));
  }

  /** Toggling keeps every invariant, at most one favourite per pair included. */
  lemma ToggledValid(t: Tables, u: nat, h: nat)
    requires t.Valid() && u in t.users && h in t.houses
    ensures Toggled(t, u, h).Valid()
  {
    match LastKey(t.favorites, PairIs(u, h), t.nextId)
    case Some(k) =>
      FavoriteRemovedValid(t, k, Toggled(t, u, h));
    case None =>
      PairFound(t, u, h);
      FreshPairValid(t, u, h, Toggled(t, u, h));
  }

  lemma FavoriteRemovedValid(t: Tables, k: nat, r: Tables)
    requires t.Valid() && r == t.(favorites := t.favorites - {k})
    ensures r.Valid()
  {
    forall a, b | a in r.favorites && b in r.favorites && a != b
      ensures !SamePair(r.favorites[a], r.favorites[b])
    {
      assert r.favorites[a] == t.favorites[a] && r.favorites[b] == t.favorites[b];
    }
  }

  lemma FreshPairValid(t: Tables, u: nat, h: nat, r: Tables)
    requires t.Valid() && u in t.users && h in t.houses && (u, h) !in Pairs(t)
    requires r == t.(favorites := t.favorites[t.nextId := Favorite(u, h, "")], nextId := t.nextId + 1)
    ensures r.Valid()
  {
    forall k | k in t.favorites
      ensures !SamePair(t.favorites[k], Favorite(u, h, ""))
    {
      assert (t.favorites[k].userId, t.favorites[k].houseId) in Pairs(t);
    }
    FavoriteAddedValid(t, Favorite(u, h, ""), r);
  }

  /** Toggling twice restores the favourited pairs. */
  lemma ToggleTwice(t: Tables, u: nat, h: nat)
    requires t.Valid() && u in t.users && h in t.houses
    ensures Pairs(Toggled(Toggled(t, u, h), u, h)) == Pairs(t)
  {
    ToggledPairs(t, u, h);
    ToggledValid(t, u, h);
    ToggledPairs(Toggled(t, u, h), u, h);
  }

  // ------------------------------------------------------------ toggle and check

  const MissingHouseId := "缺少房源ID"

  /** Whether `key` names a row of `m`. */
  predicate IsKey<V>(m: map<nat, V>, key: int)
  {
    key >= 0 && key as nat in m
  }

  /** FavoriteViewSet.toggle, POST {"house": id}. */
  method Toggle(db: Db, me: Principal, house: Json) returns (resp: Response)
    requires db.Valid() && (me.Member? ==> me.id in db.tables.users)
    modifies db
    ensures db.Valid()
    ensures !me.Member? ==> resp == Unauthenticated && db.tables == old(db.tables)
    ensures me.Member? && !Truthy(house) ==>
      resp == ErrorResponse(MissingHouseId) && db.tables == old(db.tables)
    ensures me.Member? && Truthy(house) && LookupKey(house).Err? ==>
      Some(resp) == ExceptionHandler(Unhandled(LookupKey(house).error)) && db.tables == old(db.tables)
    ensures me.Member? && Truthy(house) && LookupKey(house).Ok? && !IsKey(old(db.tables.houses), LookupKey(house).value) ==>
      resp == NotFound && db.tables == old(db.tables)
    ensures me.Member? && Truthy(house) && LookupKey(house).Ok? && IsKey(old(db.tables.houses), LookupKey(house).value) ==>
      var h := LookupKey(house).value as nat;
      && db.tables == Toggled(old(db.tables), me.id, h)
      && resp.code == 200
      && ((me.id, h) in Pairs(old(db.tables)) ==>
            resp == SuccessResponse(JObj([("is_favorited", JBool(false))]), "取消收藏成功"))
      && ((me.id, h) !in Pairs(old(db.tables)) ==>
            resp == SuccessResponse(JObj([("is_favorited", JBool(true)), ("favorite_id", JInt(old(db.tables.nextId)))]), "收藏成功"))
  {
    if !me.Member? {
      return Unauthenticated;
    }
    if !Truthy(house) {
      return ErrorResponse(MissingHouseId);
    }
    var key := LookupKey(house);
    if key.Err? {
      return ExceptionHandler(Unhandled(key.error)).value;
    }
    if !IsKey(db.tables.houses, key.value) {
      return NotFound;
    }
    var h := key.value as nat;
    ghost var t := db.tables;
    PairFound(t, me.id, h);
    var found := LastKey(db.tables.favorites, PairIs(me.id, h), db.tables.nextId);
    if found.Some? {
      db.DeleteFavorite(found.value);
      resp := SuccessResponse(JObj([("is_favorited", JBool(false))]), "取消收藏成功");
    } else {
      forall k | k in db.tables.favorites
        ensures !SamePair(db.tables.favorites[k], Favorite(me.id, h, ""))
      {
        assert (db.tables.favorites[k].userId, db.tables.favorites[k].houseId) in Pairs(t);
      }
      var id := db.AddFavorite(Favorite(me.id, h, ""));
      resp := SuccessResponse(JObj([("is_favorited", JBool(true)), ("favorite_id", JInt(id))]), "收藏成功");
    }
  }

  /** FavoriteViewSet.check, GET ?house=id: whether the pair is favourited. */
  function CheckFavorite(t: Tables, me: Principal, house: Option<string>): (r: Response)
    ensures !me.Member? ==> r == Unauthenticated
    ensures me.Member? && !Truthy(Param(house)) ==> r == ErrorResponse(MissingHouseId)
    ensures me.Member? && Truthy(Param(house)) && LookupKey(Param(house)).Err? ==>
      Some(r) == ExceptionHandler(Unhandled(LookupKey(Param(house)).error))
    ensures me.Member? && Truthy(Param(house)) && LookupKey(Param(house)).Ok? ==>
      var h := LookupKey(Param(house)).value;
      r == SuccessResponse(JObj([("is_favorited", JBool(h >= 0 && (me.id, h as nat) in Pairs(t)))]))
  {
    if !me.Member? then Unauthenticated
    else if !Truthy(Param(house)) then ErrorResponse(MissingHouseId)
    else match LookupKey(Param(house))
      case Err(text) => ExceptionHandler(Unhandled(text)).value
      case Ok(h) =>
        var exists_ := exists k :: k in t.favorites && t.favorites[k].userId == me.id && t.favorites[k].houseId == h;
        assert exists_ <==> h >= 0 && (me.id, h as nat) in Pairs(t) by {
          if h >= 0 && (me.id, h as nat) in Pairs(t) {
            var k :| k in t.favorites && (t.favorites[k].userId, t.favorites[k].houseId) == (me.id, h as nat);
          }
        }
        SuccessResponse(JObj([("is_favorited", JBool(exists_))]))
  }

  /** What check reports after a toggle of the same pair is the new membership,
      and two toggles leave check's answer where it was. */
  lemma CheckAfterToggle(t: Tables, me: Principal, h: nat)
    requires t.Valid() && me.Member? && me.id in t.users && h in t.houses
    ensures var after := Toggled(t, me.id, h);
      CheckFavorite(after, me, Some(Text.IntToString(h)))
        == SuccessResponse(JObj([("is_favorited", JBool((me.id, h) !in Pairs(t)))]))
    ensures CheckFavorite(Toggled(Toggled(t, me.id, h), me.id, h), me, Some(Text.IntToString(h)))
      == CheckFavorite(t, me, Some(Text.IntToString(h)))
  {
    ParseIntRender(h);
    ToggledPairs(t, me.id, h);
    ToggleTwice(t, me.id, h);
  }

  // ------------------------------------------------------------ serializers

  /** The validation error texts DRF shows under the zh-hans locale, and the
      serializers' own. */
  const FieldRequired := "该字段是必填项。"
  const FieldNull := "该字段不能为 null。"
  const NotAString := "请填写合法的字符串。"
  const NotANumber := "请填写合法的数字。"
  const TooManyDigits := "确保总共不超过 10 个数字。"
  const TooManyPlaces := "确保小数点后不超过 2 位。"
  const TooManyWholeDigits := "确保小数点前不超过 8 位。"
  const AlreadyFavorited := "您已经收藏过该房源"
  const TargetNotPositive := "目标价格必须大于0"

  /** A serializer's verdict: validated data, or the errors dict. */
  datatype Checked<+T> = Accepted(value: T) | Rejected(errors: seq<(string, Json)>)

  /** The errors dict entry for one field. */
  function FieldError(field: string, msg: string): (string, Json)
  {
    (field, JList([JStr(msg)]))
  }

  /** PrimaryKeyRelatedField's incorrect_type text, naming the value's type. */
  function IncorrectPk(j: Json): string
  {
    "类型不正确。期望主键值，得到 " + TypeNameOf(j) + "。"
  }

  /** The house_id field: a PrimaryKeyRelatedField over all houses. An empty
      string counts as null. */
  function HouseIdField(t: Tables, v: Option<Json>): (r: Result<nat>)
    ensures r.Ok? ==> r.value in t.houses
    ensures v.Some? && v.value.JInt? && IsKey(t.houses, v.value.i) ==> r == Ok(v.value.i as nat)
    ensures v.None? ==> r == Err(FieldRequired)
    ensures v.Some? && v.value != JNull && v.value != JStr("") && (v.value.JBool? || LookupKey(v.value).Err?) ==>
      r == Err(IncorrectPk(v.value))
  {
    match v
    case None => Err(FieldRequired)
    case Some(j) =>
      if j == JNull || j == JStr("") then Err(FieldNull)
      else if j.JBool? then Err(IncorrectPk(j))
      else match LookupKey(j)
        case Err(_) => Err(IncorrectPk(j))
        case Ok(k) =>
          if IsKey(t.houses, k) then Ok(k as nat)
          else Err("无效主键 “" + Show(j) + "” - 对象不存在。")
  }

  /** The note field: an optional CharField that may be blank and, like
      every CharField, trims the text it accepts. */
  function NoteField(v: Option<Json>): (r: Result<string>)
    ensures v.None? ==> r == Ok("")
    ensures v.Some? && v.value.JStr? ==> r == Ok(Text.Strip(v.value.s))
  {
    match v
    case None => Ok("")
    case Some(JNull) => Err(FieldNull)
    case Some(JStr(s)) => Ok(Text.Strip(s))
    case Some(JInt(i)) => Ok(Text.Strip(Show(JInt(i))))
    case Some(JNum(d)) => Ok(Text.Strip(Show(JNum(d))))
    case Some(_) => Err(NotAString)
  }

  /** An accepted note is already trimmed: sending it back stores the same
      text. */
  lemma NoteTrimmed(v: Option<Json>)
    ensures NoteField(v).Ok? ==> Text.Strip(NoteField(v).value) == NoteField(v).value
    ensures NoteField(v).Ok? ==> NoteField(Some(JStr(NoteField(v).value))) == NoteField(v)
  {
    if NoteField(v).Ok? {
      var x := NoteField(v).value;
      match v
      case None =>
      case Some(j) =>
        var raw := if j.JStr? then j.s else Show(j);
        assert x == Text.Strip(raw);
        Text.StripIdempotent(raw);
    }
  }

  /** The error entries of the fields that failed, in field order. */
  function Failures(fields: seq<(string, Result<bool>)>): (r: seq<(string, Json)>)
    ensures |r| <= |fields|
    ensures r == [] <==> forall i :: 0 <= i < |fields| ==> fields[i].1.Ok?
    ensures forall i :: 0 <= i < |r| ==> r[i].1.JList? && |r[i].1.items| == 1
  {
    if fields == [] then []
    else
      var rest := Failures(fields[1..]);
      assert (forall i :: 0 <= i < |fields[1..]| ==> fields[1..][i].1.Ok?)
        <==> (forall i :: 1 <= i < |fields| ==> fields[i].1.Ok?);
      match fields[0].1
      case Err(msg) => [FieldError(fields[0].0, msg)] + rest
      case Ok(_) => rest
  }

  function Flag<T>(r: Result<T>): Result<bool>
  {
    if r.Ok? then Ok(true) else Err(r.error)
  }

  /** FavoriteSerializer on a request body, for user uid: the fields, then
      validate()'s refusal of a pair already favourited, then create()'s row
      owned by the requesting user. */
  function FavoriteFromRequest(t: Tables, uid: nat, body: map<string, Json>): (r: Checked<Favorite>)
    ensures r.Accepted? ==> r.value.userId == uid && r.value.houseId in t.houses
    ensures r.Accepted? ==> (uid, r.value.houseId) !in Pairs(t)
    ensures r.Accepted? ==> "house_id" in body && HouseIdField(t, Some(body["house_id"])) == Ok(r.value.houseId)
    ensures ("house_id" in body && HouseIdField(t, Some(body["house_id"])).Ok?
      && (uid, HouseIdField(t, Some(body["house_id"])).value) in Pairs(t)
      && NoteField(Opt(body, "note")).Ok?) ==>
      r == Rejected([FieldError(NonFieldErrorsKey, AlreadyFavorited)])
  {
    var house := HouseIdField(t, Opt(body, "house_id"));
    var note := NoteField(Opt(body, "note"));
    if house.Err? || note.Err? then
      Rejected(Failures([("house_id", Flag(house)), ("note", Flag(note))]))
    else
      var taken := exists k :: k in t.favorites && t.favorites[k].userId == uid && t.favorites[k].houseId == house.value;
      assert taken <==> (uid, house.value) in Pairs(t) by {
        if (uid, house.value) in Pairs(t) {
          var k :| k in t.favorites && (t.favorites[k].userId, t.favorites[k].houseId) == (uid, house.value);
        }
      }
      if taken then Rejected([FieldError(NonFieldErrorsKey, AlreadyFavorited)])
      else Accepted(Favorite(uid, house.value, note.value))
  }

  /** dict.get(key): the value, or None when absent. */
  function Opt(body: map<string, Json>, key: string): (r: Option<Json>)
    ensures key in body <==> r.Some?
    ensures key in body ==> r.value == body[key]
  {
    if key in body then Some(body[key]) else None
  }

  /** FavoriteViewSet.create, POST /api/favorites/. */
  method CreateFavorite(db: Db, me: Principal, body: map<string, Json>) returns (resp: Response)
    requires db.Valid() && (me.Member? ==> me.id in db.tables.users)
    modifies db
    ensures db.Valid()
    ensures !me.Member? ==> resp == Unauthenticated && db.tables == old(db.tables)
    ensures me.Member? && FavoriteFromRequest(old(db.tables), me.id, body).Rejected? ==>
      resp == ErrorResponse("收藏失败", 400, JObj(FavoriteFromRequest(old(db.tables), me.id, body).errors))
      && db.tables == old(db.tables)
    ensures me.Member? && FavoriteFromRequest(old(db.tables), me.id, body).Accepted? ==>
      var f := FavoriteFromRequest(old(db.tables), me.id, body).value;
      && db.tables == old(db.tables).(favorites := old(db.tables.favorites)[old(db.tables.nextId) := f], nextId := old(db.tables.nextId) + 1)
      && Pairs(db.tables) == Pairs(old(db.tables)) + {(me.id, f.houseId)}
      && resp == SuccessResponse(JObj([("id", JInt(old(db.tables.nextId))), ("note", JStr(f.note))]), "收藏成功")
  {
    if !me.Member? {
      return Unauthenticated;
    }
    ghost var t := db.tables;
    var checked := FavoriteFromRequest(db.tables, me.id, body);
    if checked.Rejected? {
      return ErrorResponse("收藏失败", 400, JObj(checked.errors));
    }
    var f := checked.value;
    forall k | k in db.tables.favorites
      ensures !SamePair(db.tables.favorites[k], f)
    {
      assert (db.tables.favorites[k].userId, db.tables.favorites[k].houseId) in Pairs(t);
    }
    PairsAdded(t, f);
    var id := db.AddFavorite(f);
    resp := SuccessResponse(JObj([("id", JInt(id)), ("note", JStr(f.note))]), "收藏成功");
  }

  // ------------------------------------------------------------ the alert serializer

  /** The number of digits Decimal.as_tuple() reports for a coefficient. */
  function DigitCount(n: nat): (c: nat)
    ensures c >= 1
  {
    |Text.NatToString(n)|
  }

  /** DecimalField(max_digits=10, decimal_places=2).validate_precision. */
  function PrecisionError(d: Dec): (r: Option<string>)
    ensures d.places > 2 ==> r.Some?
  {
    var digits := DigitCount(Abs(d.coef));
    var total := if digits > d.places then digits else d.places;
    var whole := total - d.places;
    if total > 10 then Some(TooManyDigits)
    else if d.places > 2 then Some(TooManyPlaces)
    else if whole > 8 then Some(TooManyWholeDigits)
    else None
  }

  /** Decimal(str(value)) of a request value; None where it raises. */
  function DecimalInput(j: Json): Option<Dec>
  {
    match j
    case JNum(d) => Some(d)
    case JInt(i) => Some(Dec(i, 0))
    case JStr(s) => ParseDec(s)
    case _ => None
  }

  /** A parsed target price through validate_precision, validate_target_price
      and quantising to two places. */
  function TargetPriceValue(d: Dec): (r: Result<Dec>)
    ensures r.Ok? ==> r.value.places == 2 && r.value.coef > 0
  {
    match PrecisionError(d)
    case Some(msg) => Err(msg)
    case None =>
      if d.coef <= 0 then Err(TargetNotPositive)
      else
        WidenPositive(d, 2);
        Ok(Quantize(d, 2))
  }

  /** The target_price field: DecimalField parsing and precision, the
      serializer's validate_target_price (> 0), then quantising to two places. */
  function TargetPriceField(v: Option<Json>): (r: Result<Dec>)
    ensures r.Ok? ==> r.value.places == 2 && r.value.coef > 0
    ensures v.None? ==> r == Err(FieldRequired)
  {
    match v
    case None => Err(FieldRequired)
    case Some(JNull) => Err(FieldNull)
    case Some(j) =>
      match DecimalInput(j)
      case None => Err(NotANumber)
      case Some(d) => TargetPriceValue(d)
  }

  /** Widening the scale of a decimal is exact. */
  lemma QuantizeWiden(d: Dec, p: nat)
    requires d.places <= p
    ensures Quantize(d, p) == Dec(d.coef * Pow10(p - d.places), p)
  {
    Pow10Add(d.places, p - d.places);
  }

  /** Widening keeps a positive amount positive. */
  lemma WidenPositive(d: Dec, p: nat)
    requires d.places <= p && d.coef > 0
    ensures Quantize(d, p).places == p && Quantize(d, p).coef > 0
  {
    MulPositive(d.coef, Pow10(p - d.places));
  }

  lemma MulPositive(a: int, b: int)
    requires a > 0 && b > 0
    ensures a * b > 0
  {
  }

  /** validate_target_price's rule on a well-formed amount: accepted exactly
      when positive, and then kept at its value. */
  lemma TargetPriceRule(d: Dec)
    requires d.places <= 2 && DigitCount(Abs(d.coef)) <= 8 + d.places
    ensures TargetPriceField(Some(JNum(d))).Ok? <==> d.coef > 0
    ensures d.coef <= 0 ==> TargetPriceField(Some(JNum(d))) == Err(TargetNotPositive)
    ensures d.coef > 0 ==> TargetPriceField(Some(JNum(d))) == Ok(Dec(d.coef * Pow10(2 - d.places), 2))
  {
    QuantizeWiden(d, 2);
  }

  /** PriceAlertSerializer on a request body, for user uid: house_id and
      target_price are read; create() sets the user, copies the house's price
      into current_price, and the model defaults make the alert active and
      untriggered. */
  function AlertFromRequest(t: Tables, uid: nat, body: map<string, Json>): (r: Checked<PriceAlert>)
    ensures r.Accepted? ==> r.value.userId == uid && r.value.houseId in t.houses
    ensures r.Accepted? ==> r.value.status == "active" && r.value.triggeredAt.None?
    ensures r.Accepted? ==> r.value.currentPrice == t.houses[r.value.houseId].price
    ensures r.Accepted? ==> r.value.targetPrice.coef > 0
    ensures r.Accepted? <==> HouseIdField(t, Opt(body, "house_id")).Ok? && TargetPriceField(Opt(body, "target_price")).Ok?
  {
    var house := HouseIdField(t, Opt(body, "house_id"));
    var target := TargetPriceField(Opt(body, "target_price"));
    if house.Err? || target.Err? then
      Rejected(Failures([("house_id", Flag(house)), ("target_price", Flag(target))]))
    else
      Accepted(PriceAlert(uid, house.value, target.value, t.houses[house.value].price, "active", None))
  }

  /** The read-only fields (id, current_price, status, triggered_at,
      created_at) of a request body have no effect. */
  lemma AlertReadOnlyFields(t: Tables, uid: nat, body: map<string, Json>, key: string, v: Json)
    requires key in {"id", "current_price", "status", "triggered_at", "created_at"}
    ensures AlertFromRequest(t, uid, body[key := v]) == AlertFromRequest(t, uid, body)
  {
    assert Opt(body[key := v], "house_id") == Opt(body, "house_id");
    assert Opt(body[key := v], "target_price") == Opt(body, "target_price");
  }

  /** PriceAlertViewSet.create, POST /api/price-alerts/. */
  method CreateAlert(db: Db, me: Principal, body: map<string, Json>) returns (resp: Response)
    requires db.Valid() && (me.Member? ==> me.id in db.tables.users)
    modifies db
    ensures db.Valid()
    ensures !me.Member? ==> resp == Unauthenticated && db.tables == old(db.tables)
    ensures me.Member? && AlertFromRequest(old(db.tables), me.id, body).Rejected? ==>
      resp == ErrorResponse("创建失败", 400, JObj(AlertFromRequest(old(db.tables), me.id, body).errors))
      && db.tables == old(db.tables)
    ensures me.Member? && AlertFromRequest(old(db.tables), me.id, body).Accepted? ==>
      var a := AlertFromRequest(old(db.tables), me.id, body).value;
      && db.tables == old(db.tables).(alerts := old(db.tables.alerts)[old(db.tables.nextId) := a], nextId := old(db.tables.nextId) + 1)
      && resp == SuccessResponse(AlertJson(old(db.tables.nextId), a), "价格提醒创建成功")
  {
    if !me.Member? {
      return Unauthenticated;
    }
    var checked := AlertFromRequest(db.tables, me.id, body);
    if checked.Rejected? {
      return ErrorResponse("创建失败", 400, JObj(checked.errors));
    }
    var id := db.AddAlert(checked.value);
    resp := SuccessResponse(AlertJson(id, checked.value), "价格提醒创建成功");
  }

  /** The alert fields of PriceAlertSerializer's output (the nested house is
      not modelled): the two prices are DecimalFields with two places, so
      they go out as decimal text. */
  function AlertJson(id: nat, a: PriceAlert): (j: Json)
    ensures j.JObj? && |j.entries| == 5
    ensures Lookup(j.entries, "target_price") == Some(DecimalJson(a.targetPrice, 2))
    ensures Lookup(j.entries, "current_price") == Some(DecimalJson(a.currentPrice, 2))
  {
    var entries := [("id", JInt(id)), ("target_price", DecimalJson(a.targetPrice, 2)), ("current_price", DecimalJson(a.currentPrice, 2)),
          ("status", JStr(a.status)),
          ("triggered_at", if a.triggeredAt.Some? then JInt(a.triggeredAt.value) else JNull)];
    assert entries[0].0 != "target_price" && entries[0].0 != "current_price";
    assert entries[1..][0].0 == "target_price" != "current_price";
    assert entries[1..][1..][0] == ("current_price", DecimalJson(a.currentPrice, 2));
    JObj(entries)
  }

  // ------------------------------------------------------------ cancel and check_house_alert

  /** PriceAlertViewSet.cancel, POST /api/price-alerts/{pk}/cancel/: any alert
      of the requesting user, whatever its status, becomes cancelled. */
  method Cancel(db: Db, me: Principal, pk: int) returns (resp: Response)
    requires db.Valid()
    modifies db
    ensures db.Valid()
    ensures !me.Member? ==> resp == Unauthenticated && db.tables == old(db.tables)
    ensures me.Member? && !IsKey(AlertsOf(old(db.tables), me.id), pk) ==>
      resp == NotFound && db.tables == old(db.tables)
    ensures me.Member? && IsKey(AlertsOf(old(db.tables), me.id), pk) ==>
      && resp == SuccessResponse(JNull, "价格提醒已取消")
      && db.tables == old(db.tables).(alerts := old(db.tables.alerts)[pk as nat := old(db.tables.alerts)[pk as nat].(status := "cancelled")])
  {
    if !me.Member? {
      return Unauthenticated;
    }
    if !IsKey(AlertsOf(db.tables, me.id), pk) {
      return NotFound;
    }
    var id := pk as nat;
    db.SetAlert(id, db.tables.alerts[id].(status := "cancelled"));
    resp := SuccessResponse(JNull, "价格提醒已取消");
  }

  function ActiveFor(u: nat, h: int): PriceAlert -> bool
  {
    (a: PriceAlert) => a.userId == u && a.houseId == h && a.status == "active"
  }

  /** A later save of the same row wins. */
  lemma UpdateTwice(m: map<nat, PriceAlert>, k: nat, a: PriceAlert, b: PriceAlert)
    ensures m[k := a][k := b] == m[k := b]
  {
  }

  /** check_house_alert's two steps on one alert: current_price is set to the
      house's price and saved, then check_and_trigger runs. */
  method RefreshAndTrigger(db: Db, id: nat, now: int) returns (triggered: bool)
    requires db.Valid() && id in db.tables.alerts
    modifies db
    ensures db.Valid()
    ensures var a := old(db.tables.alerts[id]);
      var price := old(db.tables.houses[a.houseId].price);
      var r := CheckedAlert(a.(currentPrice := price), price, now);
      triggered == r.1 && db.tables == old(db.tables).(alerts := old(db.tables.alerts)[id := r.0])
  {
    ghost var t := db.tables;
    var a := db.tables.alerts[id];
    var price := db.tables.houses[a.houseId].price;
    var refreshed := a.(currentPrice := price);
    db.SetAlert(id, refreshed);
    assert db.tables.alerts[id] == refreshed && db.tables.houses == t.houses;
    triggered := CheckAndTrigger(db, id, now);
    ghost var r := CheckedAlert(refreshed, price, now);
    assert triggered == r.1;
    assert db.tables == t.(alerts := t.alerts[id := refreshed][id := r.0]);
    UpdateTwice(t.alerts, id, refreshed, r.0);
  }

  /** PriceAlertViewSet.check_house_alert, GET ?house_id=id: the newest active
      alert of the user on that house has current_price refreshed from the
      house, then check_and_trigger runs on it. */
  method CheckHouseAlert(db: Db, me: Principal, house: Option<string>, now: int) returns (resp: Response)
    requires db.Valid()
    modifies db
    ensures db.Valid()
    ensures !me.Member? ==> resp == Unauthenticated && db.tables == old(db.tables)
    ensures me.Member? && !Truthy(Param(house)) ==>
      resp == ErrorResponse(MissingHouseId) && db.tables == old(db.tables)
    ensures me.Member? && Truthy(Param(house)) && LookupKey(Param(house)).Err? ==>
      Some(resp) == ExceptionHandler(Unhandled(LookupKey(Param(house)).error)) && db.tables == old(db.tables)
    ensures me.Member? && Truthy(Param(house)) && LookupKey(Param(house)).Ok? ==>
      var h := LookupKey(Param(house)).value;
      var found := LastKey(old(db.tables.alerts), ActiveFor(me.id, h), old(db.tables.nextId));
      && (found.None? ==>
            resp == SuccessResponse(JObj([("has_alert", JBool(false))])) && db.tables == old(db.tables))
      && (found.Some? ==>
            var a := old(db.tables.alerts)[found.value];
            var price := old(db.tables.houses)[a.houseId].price;
            var r := CheckedAlert(a.(currentPrice := price), price, now);
            && r.0.status == (if DecLe(price, a.targetPrice) then "triggered" else "active")
            && db.tables == old(db.tables).(alerts := old(db.tables.alerts)[found.value := r.0])
            && resp == SuccessResponse(JObj([
                 ("has_alert", JBool(true)), ("alert_id", JInt(found.value)),
                 ("target_price", JNum(a.targetPrice)), ("current_price", JNum(price)),
                 ("triggered", JBool(r.1)), ("status", JStr(r.0.status))])))
  {
    if !me.Member? {
      return Unauthenticated;
    }
    var param := Param(house);
    if !Truthy(param) {
      return ErrorResponse(MissingHouseId);
    }
    var key := LookupKey(param);
    if key.Err? {
      return ExceptionHandler(Unhandled(key.error)).value;
    }
    var found := LastKey(db.tables.alerts, ActiveFor(me.id, key.value), db.tables.nextId);
    if found.None? {
      return SuccessResponse(JObj([("has_alert", JBool(false))]));
    }
    var id := found.value;
    var a := db.tables.alerts[id];
    var price := db.tables.houses[a.houseId].price;
    var triggered := RefreshAndTrigger(db, id, now);
    var after := db.tables.alerts[id];
    resp := SuccessResponse(JObj([
      ("has_alert", JBool(true)), ("alert_id", JInt(id)),
      ("target_price", JNum(a.targetPrice)), ("current_price", JNum(price)),
      ("triggered", JBool(triggered)), ("status", JStr(after.status))]));
  }
}
