/** The database the Django apps share, held in memory: one table per model,
    each a map from a row's id to the row, and one id counter that hands out
    ids in creation order (so the smallest id is the oldest row, and ordering by
    id agrees with ordering by created_at). Foreign keys, the unique columns and
    the price-alert status set are the invariant. Deleting a house cascades to
    its images, transactions, favourites and alerts; deleting a user cascades to
    their favourites and alerts and clears the agent of their houses. */
module Store {
  import opened Wrappers
  import opened Numbers

  const HouseStatusChoices: seq<string> := ["available", "sold", "reserved"]
  const HouseTypeChoices: seq<string> := ["1室", "2室", "3室", "4室", "5室及以上"]
  const AlertStatusChoices: seq<string> := ["active", "triggered", "cancelled"]
  const RoleChoices: seq<string> := ["user", "agent", "admin"]

  datatype District = District(name: string, city: string, description: string)

  datatype User = User(
    username: string, password: string, phone: string, email: string,
    role: string, realName: string, company: string,
    verified: bool, active: bool, staff: bool, superuser: bool)

  /** updatedAt is a timestamp in seconds (day d starts at d * 86400);
      views counts detail requests. */
  datatype House = House(
    title: string, districtId: nat, address: string,
    price: Dec, unitPrice: Dec, area: Dec,
    houseType: string, floor: string, totalFloors: int, orientation: string,
    decoration: string, buildYear: Option<int>,
    longitude: Option<Dec>, latitude: Option<Dec>,
    description: string, coverImage: string, status: string,
    agentId: Option<nat>, views: int, updatedAt: int)

  datatype HouseImage = HouseImage(houseId: nat, image: string, order: int)

  /** dealDate is a day number. */
  datatype Transaction = Transaction(houseId: nat, dealPrice: Dec, dealDate: int, buyerName: string)

  datatype Favorite = Favorite(userId: nat, houseId: nat, note: string)

  /** Two favourites for the same (user, house) pair. */
  predicate SamePair(f: Favorite, g: Favorite)
  {
    f.userId == g.userId && f.houseId == g.houseId
  }

  datatype PriceAlert = PriceAlert(
    userId: nat, houseId: nat, targetPrice: Dec, currentPrice: Dec,
    status: string, triggeredAt: Option<int>)

  /** a <= b as decimal numbers, whatever their scales. */
  predicate DecLe(a: Dec, b: Dec)
  {
    a.coef * Pow10(b.places) <= b.coef * Pow10(a.places)
  }

  // ------------------------------------------------------------ column ranges

  /** 10^10 and 10^8: one more than the largest coefficient of DECIMAL(10, p)
      and of DECIMAL(8, p). */
  const TenDigits: nat := 10_000_000_000
  const EightDigits: nat := 100_000_000

  /** A value a DECIMAL(M, places) column holds, limit being 10^M: rounded to
      `places` fractional digits it has at most M digits. The rounding is
      half-even, as Django's quantisation; MySQL rounds half away from zero,
      which differs only on ties and never at the bound itself, where the
      lower neighbour (all nines) is odd. */
  predicate FitsDecimal(d: Dec, limit: nat, places: nat)
  {
    Abs(Quantize(d, places).coef) < limit
  }

  /** A value of a MySQL INT column. */
  predicate FitsInt(n: int)
  {
    -0x8000_0000 <= n < 0x8000_0000
  }

  /** Every numeric column of the houses table holds h's value: price and
      unit_price are DECIMAL(10, 2), area DECIMAL(8, 2), the coordinates
      DECIMAL(10, 7), total_floors, build_year and views INT. */
  predicate HouseFits(h: House)
  {
    && FitsDecimal(h.price, TenDigits, 2) && FitsDecimal(h.unitPrice, TenDigits, 2)
    && FitsDecimal(h.area, EightDigits, 2) && FitsInt(h.totalFloors)
    && (h.buildYear.Some? ==> FitsInt(h.buildYear.value))
    && (h.longitude.Some? ==> FitsDecimal(h.longitude.value, TenDigits, 7))
    && (h.latitude.Some? ==> FitsDecimal(h.latitude.value, TenDigits, 7))
    && FitsInt(h.views)
  }

  /** The first numeric column, in the table's column order, that cannot hold
      h's value: the one strict mode names when it refuses the row. */
  function HouseMisfit(h: House): (c: Option<string>)
    ensures c.None? <==> HouseFits(h)
    ensures c.Some? ==> c.value in ["price", "unit_price", "area", "total_floors", "build_year", "longitude", "latitude", "views"]
    ensures c == Some("area") <==>
      FitsDecimal(h.price, TenDigits, 2) && FitsDecimal(h.unitPrice, TenDigits, 2) && !FitsDecimal(h.area, EightDigits, 2)
  {
    if !FitsDecimal(h.price, TenDigits, 2) then Some("price")
    else if !FitsDecimal(h.unitPrice, TenDigits, 2) then Some("unit_price")
    else if !FitsDecimal(h.area, EightDigits, 2) then Some("area")
    else if !FitsInt(h.totalFloors) then Some("total_floors")
    else if h.buildYear.Some? && !FitsInt(h.buildYear.value) then Some("build_year")
    else if h.longitude.Some? && !FitsDecimal(h.longitude.value, TenDigits, 7) then Some("longitude")
    else if h.latitude.Some? && !FitsDecimal(h.latitude.value, TenDigits, 7) then Some("latitude")
    else if !FitsInt(h.views) then Some("views")
    else None
  }

  /** An area of a million square metres is 100000000.00 once rounded to two
      places: one digit more than DECIMAL(8, 2) holds. */
  lemma MillionSquareMetres(h: House)
    requires FitsDecimal(h.price, TenDigits, 2) && FitsDecimal(h.unitPrice, TenDigits, 2)
    ensures HouseMisfit(h.(area := Dec(1000000, 0))) == Some("area")
    ensures HouseMisfit(h.(area := Dec(99999999, 2))) != Some("area")
  {
    assert Pow10(2) == 100 && Pow10(0) == 1;
  }

  /** MySQL's refusal in strict mode (STRICT_TRANS_TABLES) of a value its
      column cannot hold. */
  function OutOfRange(column: string): string
  {
    "(1264, \"Out of range value for column '" + column + "' at row 1\")"
  }

  datatype Tables = Tables(
    districts: map<nat, District>, users: map<nat, User>, houses: map<nat, House>,
    images: map<nat, HouseImage>, transactions: map<nat, Transaction>,
    favorites: map<nat, Favorite>, alerts: map<nat, PriceAlert>, nextId: nat)
  {
    /** Every id in use was handed out by the counter. */
    predicate IdsBelow()
    {
      && DistrictIdsBelow()
      && (forall id :: id in users ==> id < nextId)
      && (forall id :: id in houses ==> id < nextId)
      && (forall id :: id in images ==> id < nextId)
      && (forall id :: id in transactions ==> id < nextId)
      && (forall id :: id in favorites ==> id < nextId)
      && (forall id :: id in alerts ==> id < nextId)
    }

    predicate DistrictIdsBelow()
    {
      forall id :: id in districts ==> id < nextId
    }

    predicate HousesLinked()
    {
      forall id :: id in houses ==>
        && houses[id].districtId in districts
        && (houses[id].agentId.Some? ==> houses[id].agentId.value in users)
    }

    predicate ChildrenLinked()
    {
      && (forall id :: id in images ==> images[id].houseId in houses)
      && (forall id :: id in transactions ==> transactions[id].houseId in houses)
      && (forall id :: id in favorites ==> favorites[id].userId in users && favorites[id].houseId in houses)
      && (forall id :: id in alerts ==> alerts[id].userId in users && alerts[id].houseId in houses)
    }

    /** The unique columns: District.name, User.username, User.phone and the
        (user, house) pair of a Favorite. */
    predicate Unique()
    {
      && DistrictNamesUnique()
      && (forall a, b :: a in users && b in users && a != b ==> users[a].username != users[b].username)
      && (forall a, b :: a in users && b in users && a != b ==> users[a].phone != users[b].phone)
      && (forall a, b :: a in favorites && b in favorites && a != b ==>
            !SamePair(favorites[a], favorites[b]))
    }

    predicate DistrictNamesUnique()
    {
      forall a, b :: a in districts && b in districts && a != b ==> districts[a].name != districts[b].name
    }

    predicate AlertStatusesValid()
    {
      forall id :: id in alerts ==> alerts[id].status in AlertStatusChoices
    }

    predicate Valid()
    {
      IdsBelow() && HousesLinked() && ChildrenLinked() && Unique() && AlertStatusesValid()
    }
  }

  // ------------------------------------------------- the cascade of deletes

  /** The tables after deleting the houses with the given ids and every row
      that refers to them. */
  function WithoutHouses(t: Tables, ids: set<nat>): (r: Tables)
    ensures r.districts == t.districts && r.users == t.users && r.nextId == t.nextId
    ensures r.houses.Keys == t.houses.Keys - ids
    ensures forall id :: id in r.houses ==> r.houses[id] == t.houses[id]
    ensures forall id :: id in r.images <==> id in t.images && t.images[id].houseId !in ids
    ensures forall id :: id in r.transactions <==> id in t.transactions && t.transactions[id].houseId !in ids
    ensures forall id :: id in r.favorites <==> id in t.favorites && t.favorites[id].houseId !in ids
    ensures forall id :: id in r.alerts <==> id in t.alerts && t.alerts[id].houseId !in ids
    ensures forall id :: id in r.images ==> r.images[id] == t.images[id]
    ensures forall id :: id in r.transactions ==> r.transactions[id] == t.transactions[id]
    ensures forall id :: id in r.favorites ==> r.favorites[id] == t.favorites[id]
    ensures forall id :: id in r.alerts ==> r.alerts[id] == t.alerts[id]
  {
    t.(houses := t.houses - ids,
       images := map id | id in t.images && t.images[id].houseId !in ids :: t.images[id],
       transactions := map id | id in t.transactions && t.transactions[id].houseId !in ids :: t.transactions[id],
       favorites := map id | id in t.favorites && t.favorites[id].houseId !in ids :: t.favorites[id],
       alerts := map id | id in t.alerts && t.alerts[id].houseId !in ids :: t.alerts[id])
  }

  /** How many rows the cascade removes, as QuerySet.delete() reports it. */
  function Removed(t: Tables, r: Tables): int
  {
    (|t.houses| - |r.houses|) + (|t.images| - |r.images|) + (|t.transactions| - |r.transactions|)
      + (|t.favorites| - |r.favorites|) + (|t.alerts| - |r.alerts|)
  }

  /** Districts added or patched, nothing else touched: every reference and
      counter bound still holds. */
  lemma DistrictsGrownLinked(t: Tables, districts: map<nat, District>, nextId: nat)
    requires t.IdsBelow() && t.HousesLinked() && t.ChildrenLinked() && t.AlertStatusesValid()
    requires t.districts.Keys <= districts.Keys && t.nextId <= nextId
    requires forall id :: id in districts ==> id < nextId
    ensures var r := t.(districts := districts, nextId := nextId);
      r.IdsBelow() && r.HousesLinked() && r.ChildrenLinked() && r.AlertStatusesValid()
  {
  }

  /** A district under a name no district has keeps the store consistent. */
  lemma DistrictAddedValid(t: Tables, d: District, r: Tables)
    requires t.Valid() && forall k :: k in t.districts ==> t.districts[k].name != d.name
    requires r == t.(districts := t.districts[t.nextId := d], nextId := t.nextId + 1)
    ensures r.Valid()
  {
    DistrictsGrownLinked(t, r.districts, r.nextId);
    DistrictNameSet(t, d, r);
  }

  lemma DistrictNameSet(t: Tables, d: District, r: Tables)
    requires t.Unique() && t.DistrictIdsBelow() && forall k :: k in t.districts ==> t.districts[k].name != d.name
    requires r == t.(districts := t.districts[t.nextId := d], nextId := t.nextId + 1)
    ensures r.Unique()
  {
    forall a, b | a in r.districts && b in r.districts && a != b
      ensures r.districts[a].name != r.districts[b].name
    {
      if a != t.nextId && b != t.nextId {
        assert r.districts[a] == t.districts[a] && r.districts[b] == t.districts[b];
      }
    }
    assert r.DistrictNamesUnique();
  }

  /** Deleting houses keeps every invariant: nothing is left pointing at them. */
  lemma WithoutHousesValid(t: Tables, ids: set<nat>)
    requires t.Valid()
    ensures WithoutHouses(t, ids).Valid()
  {
  }

  /** The tables after deleting one user, their favourites and alerts, and
      clearing the agent of the houses they published. */
  function WithoutUser(t: Tables, uid: nat): (r: Tables)
    ensures r.districts == t.districts && r.nextId == t.nextId && r.images == t.images
    ensures r.transactions == t.transactions
    ensures r.users == t.users - {uid}
    ensures r.houses.Keys == t.houses.Keys && forall id :: id in r.houses <==> id in t.houses
    ensures forall id :: id in r.houses ==>
      r.houses[id] == (if t.houses[id].agentId == Some(uid) then t.houses[id].(agentId := None) else t.houses[id])
    ensures forall id :: id in r.favorites <==> id in t.favorites && t.favorites[id].userId != uid
    ensures forall id :: id in r.alerts <==> id in t.alerts && t.alerts[id].userId != uid
    ensures forall id :: id in r.favorites ==> r.favorites[id] == t.favorites[id]
    ensures forall id :: id in r.alerts ==> r.alerts[id] == t.alerts[id]
  {
    t.(users := t.users - {uid},
       houses := map id | id in t.houses ::
         if t.houses[id].agentId == Some(uid) then t.houses[id].(agentId := None) else t.houses[id],
       favorites := map id | id in t.favorites && t.favorites[id].userId != uid :: t.favorites[id],
       alerts := map id | id in t.alerts && t.alerts[id].userId != uid :: t.alerts[id])
  }

  lemma WithoutUserValid(t: Tables, uid: nat)
    requires t.Valid()
    ensures WithoutUser(t, uid).Valid()
  {
    WithoutUserLinked(t, uid);
    WithoutUserUnique(t, uid);
  }

  lemma WithoutUserLinked(t: Tables, uid: nat)
    requires t.HousesLinked() && t.ChildrenLinked()
    ensures WithoutUser(t, uid).HousesLinked() && WithoutUser(t, uid).ChildrenLinked()
  {
    WithoutUserHouses(t, uid);
    WithoutUserChildren(t, uid);
  }

  lemma WithoutUserHouses(t: Tables, uid: nat)
    requires t.HousesLinked()
    ensures WithoutUser(t, uid).HousesLinked()
  {
  }

  lemma WithoutUserChildren(t: Tables, uid: nat)
    requires t.ChildrenLinked()
    ensures WithoutUser(t, uid).ChildrenLinked()
  {
    var r := WithoutUser(t, uid);
    forall id | id in r.favorites
      ensures r.favorites[id].userId in r.users && r.favorites[id].houseId in r.houses
    {
      assert id in t.favorites && r.favorites[id] == t.favorites[id];
    }
    forall id | id in r.alerts
      ensures r.alerts[id].userId in r.users && r.alerts[id].houseId in r.houses
    {
      assert id in t.alerts && r.alerts[id] == t.alerts[id];
    }
  }

  lemma WithoutUserUnique(t: Tables, uid: nat)
    requires t.Unique()
    ensures WithoutUser(t, uid).Unique()
  {
    var r := WithoutUser(t, uid);
    forall a, b | a in r.favorites && b in r.favorites && a != b
      ensures !SamePair(r.favorites[a], r.favorites[b])
    {
      assert r.favorites[a] == t.favorites[a] && r.favorites[b] == t.favorites[b];
    }
  }

  /** A favourite for a pair nobody has favourited keeps the pairs unique. */
  lemma FavoriteAddedValid(t: Tables, f: Favorite, r: Tables)
    requires t.Valid() && f.userId in t.users && f.houseId in t.houses
    requires forall k :: k in t.favorites ==> !SamePair(t.favorites[k], f)
    requires r == t.(favorites := t.favorites[t.nextId := f], nextId := t.nextId + 1)
    ensures r.Valid()
  {
    FavoriteAddedUnique(t, f);
    FavoriteAddedLinked(t, f);
  }

  lemma FavoriteAddedLinked(t: Tables, f: Favorite)
    requires t.IdsBelow() && t.ChildrenLinked() && f.userId in t.users && f.houseId in t.houses
    ensures t.(favorites := t.favorites[t.nextId := f], nextId := t.nextId + 1).IdsBelow()
    ensures t.(favorites := t.favorites[t.nextId := f], nextId := t.nextId + 1).ChildrenLinked()
  {
  }

  lemma FavoriteAddedUnique(t: Tables, f: Favorite)
    requires t.Unique() && t.IdsBelow()
    requires forall k :: k in t.favorites ==> !SamePair(t.favorites[k], f)
    ensures t.(favorites := t.favorites[t.nextId := f], nextId := t.nextId + 1).Unique()
  {
    var fs := t.favorites[t.nextId := f];
    forall a, b | a in fs && b in fs && a != b
      ensures !SamePair(fs[a], fs[b])
    {
      if a != t.nextId && b != t.nextId {
        assert fs[a] == t.favorites[a] && fs[b] == t.favorites[b];
      }
    }
  }

  // ------------------------------------ each invariant across one change

  /** Rows added under the counter's id, which then moves on: every id is
      still below it. */
  lemma IdsGrown(t: Tables, r: Tables)
    requires t.IdsBelow() && t.nextId < r.nextId
    requires r.districts.Keys <= t.districts.Keys + {t.nextId} && r.users.Keys <= t.users.Keys + {t.nextId}
    requires r.houses.Keys <= t.houses.Keys + {t.nextId} && r.images.Keys <= t.images.Keys + {t.nextId}
    requires r.transactions.Keys <= t.transactions.Keys + {t.nextId}
    requires r.favorites.Keys <= t.favorites.Keys + {t.nextId} && r.alerts.Keys <= t.alerts.Keys + {t.nextId}
    ensures r.IdsBelow()
  {
  }

  /** Rows saved in place: no new id. */
  lemma IdsSame(t: Tables, r: Tables)
    requires t.IdsBelow() && t.nextId == r.nextId
    requires r.districts.Keys <= t.districts.Keys && r.users.Keys <= t.users.Keys
    requires r.houses.Keys <= t.houses.Keys && r.images.Keys <= t.images.Keys
    requires r.transactions.Keys <= t.transactions.Keys
    requires r.favorites.Keys <= t.favorites.Keys && r.alerts.Keys <= t.alerts.Keys
    ensures r.IdsBelow()
  {
  }

  lemma HousesLinkedKept(t: Tables, r: Tables)
    requires t.HousesLinked() && r.houses == t.houses
    requires t.districts.Keys <= r.districts.Keys && t.users.Keys <= r.users.Keys
    ensures r.HousesLinked()
  {
  }

  /** One house saved whose district and agent exist. */
  lemma HouseLinkedSet(t: Tables, id: nat, h: House, nextId: nat)
    requires t.HousesLinked() && h.districtId in t.districts && (h.agentId.Some? ==> h.agentId.value in t.users)
    ensures t.(houses := t.houses[id := h], nextId := nextId).HousesLinked()
  {
  }

  lemma ChildrenLinkedKept(t: Tables, r: Tables)
    requires t.ChildrenLinked() && r.images == t.images && r.transactions == t.transactions
    requires r.favorites == t.favorites && r.alerts == t.alerts
    requires t.houses.Keys <= r.houses.Keys && t.users.Keys <= r.users.Keys
    ensures r.ChildrenLinked()
  {
  }

  lemma UniqueKept(t: Tables, r: Tables)
    requires t.Unique() && r.districts == t.districts && r.users == t.users && r.favorites == t.favorites
    ensures r.Unique()
  {
  }

  lemma StatusesKept(t: Tables, r: Tables)
    requires t.AlertStatusesValid() && r.alerts == t.alerts
    ensures r.AlertStatusesValid()
  {
  }

  /** An alert on an existing user and house, with a valid status, keeps the
      store consistent. */
  lemma AlertAddedValid(t: Tables, a: PriceAlert)
    requires t.Valid() && a.userId in t.users && a.houseId in t.houses && a.status in AlertStatusChoices
    ensures t.(alerts := t.alerts[t.nextId := a], nextId := t.nextId + 1).Valid()
  {
    var r := t.(alerts := t.alerts[t.nextId := a], nextId := t.nextId + 1);
    IdsGrown(t, r);
    AlertLinked(t, t.nextId, a, r.nextId);
    AlertStatusSet(t, t.nextId, a, r.nextId);
    HousesLinkedKept(t, r);
    UniqueKept(t, r);
  }

  /** Saving an alert that keeps its user and house and has a valid status
      keeps the store consistent. */
  lemma AlertSetValid(t: Tables, id: nat, a: PriceAlert)
    requires t.Valid() && id in t.alerts && a.userId == t.alerts[id].userId && a.houseId == t.alerts[id].houseId
    requires a.status in AlertStatusChoices
    ensures t.(alerts := t.alerts[id := a]).Valid()
  {
    var r := t.(alerts := t.alerts[id := a]);
    IdsSame(t, r);
    AlertLinked(t, id, a, r.nextId);
    AlertStatusSet(t, id, a, r.nextId);
    HousesLinkedKept(t, r);
    UniqueKept(t, r);
  }

  lemma AlertLinked(t: Tables, id: nat, a: PriceAlert, nextId: nat)
    requires t.ChildrenLinked() && a.userId in t.users && a.houseId in t.houses
    ensures t.(alerts := t.alerts[id := a], nextId := nextId).ChildrenLinked()
  {
  }

  lemma AlertStatusSet(t: Tables, id: nat, a: PriceAlert, nextId: nat)
    requires t.AlertStatusesValid() && a.status in AlertStatusChoices
    ensures t.(alerts := t.alerts[id := a], nextId := nextId).AlertStatusesValid()
  {
  }

  /** A house whose district and agent exist, added or saved, keeps the store
      consistent. */
  lemma HouseSavedValid(t: Tables, id: nat, h: House, nextId: nat, r: Tables)
    requires t.Valid() && h.districtId in t.districts && (h.agentId.Some? ==> h.agentId.value in t.users)
    requires (id == t.nextId && nextId == t.nextId + 1) || (id in t.houses && nextId == t.nextId)
    requires r == t.(houses := t.houses[id := h], nextId := nextId)
    ensures r.Valid()
  {
    if id in t.houses && nextId == t.nextId {
      IdsSame(t, r);
    } else {
      IdsGrown(t, r);
    }
    HouseLinkedSet(t, id, h, nextId);
    ChildrenLinkedKept(t, r);
    UniqueKept(t, r);
    StatusesKept(t, r);
  }

  /** An image or a transaction of an existing house keeps the store
      consistent. */
  lemma ImageAddedValid(t: Tables, img: HouseImage)
    requires t.Valid() && img.houseId in t.houses
    ensures t.(images := t.images[t.nextId := img], nextId := t.nextId + 1).Valid()
  {
    var r := t.(images := t.images[t.nextId := img], nextId := t.nextId + 1);
    IdsGrown(t, r);
    HousesLinkedKept(t, r);
    ImageLinked(t, img);
    UniqueKept(t, r);
    StatusesKept(t, r);
  }

  lemma TransactionAddedValid(t: Tables, x: Transaction)
    requires t.Valid() && x.houseId in t.houses
    ensures t.(transactions := t.transactions[t.nextId := x], nextId := t.nextId + 1).Valid()
  {
    var r := t.(transactions := t.transactions[t.nextId := x], nextId := t.nextId + 1);
    IdsGrown(t, r);
    HousesLinkedKept(t, r);
    TransactionLinked(t, x);
    UniqueKept(t, r);
    StatusesKept(t, r);
  }

  lemma ImageLinked(t: Tables, img: HouseImage)
    requires t.ChildrenLinked() && img.houseId in t.houses
    ensures t.(images := t.images[t.nextId := img], nextId := t.nextId + 1).ChildrenLinked()
  {
  }

  lemma TransactionLinked(t: Tables, x: Transaction)
    requires t.ChildrenLinked() && x.houseId in t.houses
    ensures t.(transactions := t.transactions[t.nextId := x], nextId := t.nextId + 1).ChildrenLinked()
  {
  }

  /** A user saved or added under a username and a phone no other user has
      keeps the store consistent. */
  lemma UserSavedValid(t: Tables, id: nat, u: User, nextId: nat, r: Tables)
    requires t.Valid()
    requires (id == t.nextId && nextId == t.nextId + 1) || (id in t.users && nextId == t.nextId)
    requires forall k :: k in t.users && k != id ==> t.users[k].username != u.username && t.users[k].phone != u.phone
    requires r == t.(users := t.users[id := u], nextId := nextId)
    ensures r.Valid()
  {
    if id in t.users && nextId == t.nextId {
      IdsSame(t, r);
    } else {
      IdsGrown(t, r);
    }
    HousesLinkedKept(t, r);
    ChildrenLinkedKept(t, r);
    UserUniqueSet(t, id, u, nextId);
    StatusesKept(t, r);
  }

  lemma UserUniqueSet(t: Tables, id: nat, u: User, nextId: nat)
    requires t.Unique()
    requires forall k :: k in t.users && k != id ==> t.users[k].username != u.username && t.users[k].phone != u.phone
    ensures t.(users := t.users[id := u], nextId := nextId).Unique()
  {
    var us := t.users[id := u];
    forall a, b | a in us && b in us && a != b
      ensures us[a].username != us[b].username && us[a].phone != us[b].phone
    {
      if a != id && b != id {
        assert us[a] == t.users[a] && us[b] == t.users[b];
      }
    }
    assert t.(users := us, nextId := nextId).DistrictNamesUnique();
  }

  // ------------------------------------------------- ordered lookups by id

  /** The smallest id in [from, bound) whose row satisfies p, as `.first()` on
      a filtered query ordered by id (or left unordered) returns it. */
  function FirstKey<V>(m: map<nat, V>, p: V -> bool, from: nat, bound: nat): (r: Option<nat>)
    ensures r.Some? ==> r.value in m && p(m[r.value]) && from <= r.value < bound
    ensures r.Some? ==> forall k :: from <= k < r.value && k in m ==> !p(m[k])
    ensures r.None? ==> forall k :: from <= k < bound && k in m ==> !p(m[k])
    decreases bound - from
  {
    if from >= bound then None
    else if from in m && p(m[from]) then Some(from)
    else FirstKey(m, p, from + 1, bound)
  }

  /** The largest id below bound whose row satisfies p: the newest row, as
      `.first()` on a filtered query ordered by -created_at returns it. */
  function LastKey<V>(m: map<nat, V>, p: V -> bool, bound: nat): (r: Option<nat>)
    ensures r.Some? ==> r.value in m && p(m[r.value]) && r.value < bound
    ensures r.Some? ==> forall k :: r.value < k < bound && k in m ==> !p(m[k])
    ensures r.None? ==> forall k :: k < bound && k in m ==> !p(m[k])
  {
    if bound == 0 then None
    else if bound - 1 in m && p(m[bound - 1]) then Some(bound - 1)
    else LastKey(m, p, bound - 1)
  }

  /** A search over ids is the same under any bound above every key. */
  lemma FirstKeyStable<V>(m: map<nat, V>, p: V -> bool, b1: nat, b2: nat)
    requires (forall k :: k in m ==> k < b1) && b1 <= b2
    ensures FirstKey(m, p, 0, b1) == FirstKey(m, p, 0, b2)
  {
    var x, y := FirstKey(m, p, 0, b1), FirstKey(m, p, 0, b2);
    if x.Some? && y.Some? {
      assert !(x.value < y.value) && !(y.value < x.value);
    }
  }

  lemma LastKeyStable<V>(m: map<nat, V>, p: V -> bool, b1: nat, b2: nat)
    requires (forall k :: k in m ==> k < b1) && b1 <= b2
    ensures LastKey(m, p, b1) == LastKey(m, p, b2)
  {
    var x, y := LastKey(m, p, b1), LastKey(m, p, b2);
    if x.Some? && y.Some? {
      assert !(x.value < y.value) && !(y.value < x.value);
    }
  }

  // ------------------------------------------------------------ the store

  class Db {
    var tables: Tables

    predicate Valid()
      reads this
    {
      tables.Valid()
    }

    /** An empty database; ids start at 1. */
    constructor()
      ensures tables == Tables(map[], map[], map[], map[], map[], map[], map[], 1) && Valid()
    {
      tables := Tables(map[], map[], map[], map[], map[], map[], map[], 1);
    }

    /** Puts back a state taken earlier: the rollback of a transaction. */
    method Restore(t: Tables)
      requires t.Valid()
      modifies this
      ensures Valid() && tables == t
    {
      tables := t;
    }

    /** Inserts a district under a fresh id. */
    method AddDistrict(d: District) returns (id: nat)
      requires Valid()
      requires forall k :: k in tables.districts ==> tables.districts[k].name != d.name
      modifies this
      ensures Valid() && id == old(tables.nextId) && id !in old(tables.districts)
      ensures tables == old(tables).(districts := old(tables.districts)[id := d], nextId := id + 1)
    {
      id := tables.nextId;
      DistrictAddedValid(tables, d, tables.(districts := tables.districts[id := d], nextId := id + 1));
      tables := tables.(districts := tables.districts[id := d], nextId := id + 1);
    }

    /** Inserts a user under a fresh id. */
    method AddUser(u: User) returns (id: nat)
      requires Valid()
      requires forall k :: k in tables.users ==> tables.users[k].username != u.username && tables.users[k].phone != u.phone
      modifies this
      ensures Valid() && id == old(tables.nextId) && id !in old(tables.users)
      ensures tables == old(tables).(users := old(tables.users)[id := u], nextId := id + 1)
    {
      id := tables.nextId;
      UserSavedValid(tables, id, u, id + 1, tables.(users := tables.users[id := u], nextId := id + 1));
      tables := tables.(users := tables.users[id := u], nextId := id + 1);
    }

    /** Inserts a house under a fresh id. */
    method AddHouse(h: House) returns (id: nat)
      requires Valid()
      requires h.districtId in tables.districts && (h.agentId.Some? ==> h.agentId.value in tables.users)
      modifies this
      ensures Valid() && id == old(tables.nextId) && id !in old(tables.houses)
      ensures tables == old(tables).(houses := old(tables.houses)[id := h], nextId := id + 1)
    {
      id := tables.nextId;
      HouseSavedValid(tables, id, h, id + 1, tables.(houses := tables.houses[id := h], nextId := id + 1));
      tables := tables.(houses := tables.houses[id := h], nextId := id + 1);
    }

    /** Inserts an image of a house under a fresh id. */
    method AddImage(img: HouseImage) returns (id: nat)
      requires Valid() && img.houseId in tables.houses
      modifies this
      ensures Valid() && id == old(tables.nextId) && id !in old(tables.images)
      ensures tables == old(tables).(images := old(tables.images)[id := img], nextId := id + 1)
    {
      id := tables.nextId;
      ImageAddedValid(tables, img);
      tables := tables.(images := tables.images[id := img], nextId := id + 1);
    }

    /** Inserts a transaction of a house under a fresh id. */
    method AddTransaction(x: Transaction) returns (id: nat)
      requires Valid() && x.houseId in tables.houses
      modifies this
      ensures Valid() && id == old(tables.nextId) && id !in old(tables.transactions)
      ensures tables == old(tables).(transactions := old(tables.transactions)[id := x], nextId := id + 1)
    {
      id := tables.nextId;
      TransactionAddedValid(tables, x);
      tables := tables.(transactions := tables.transactions[id := x], nextId := id + 1);
    }

    /** Inserts a favourite for a (user, house) pair not yet favourited. */
    method AddFavorite(f: Favorite) returns (id: nat)
      requires Valid() && f.userId in tables.users && f.houseId in tables.houses
      requires forall k :: k in tables.favorites ==> !SamePair(tables.favorites[k], f)
      modifies this
      ensures Valid() && id == old(tables.nextId) && id !in old(tables.favorites)
      ensures tables == old(tables).(favorites := old(tables.favorites)[id := f], nextId := id + 1)
    {
      id := tables.nextId;
      FavoriteAddedValid(tables, f, tables.(favorites := tables.favorites[tables.nextId := f], nextId := tables.nextId + 1));
      tables := tables.(favorites := tables.favorites[id := f], nextId := id + 1);
    }

    /** Inserts a price alert. */
    method AddAlert(a: PriceAlert) returns (id: nat)
      requires Valid() && a.userId in tables.users && a.houseId in tables.houses && a.status in AlertStatusChoices
      modifies this
      ensures Valid() && id == old(tables.nextId) && id !in old(tables.alerts)
      ensures tables == old(tables).(alerts := old(tables.alerts)[id := a], nextId := id + 1)
    {
      id := tables.nextId;
      AlertAddedValid(tables, a);
      tables := tables.(alerts := tables.alerts[id := a], nextId := id + 1);
    }

    /** Saves a changed district row. */
    method SetDistrict(id: nat, d: District)
      requires Valid() && id in tables.districts
      requires forall k :: k in tables.districts && k != id ==> tables.districts[k].name != d.name
      modifies this
      ensures Valid()
      ensures tables == old(tables).(districts := old(tables.districts)[id := d])
    {
      tables := tables.(districts := tables.districts[id := d]);
    }

    /** Saves a changed user row. */
    method SetUser(id: nat, u: User)
      requires Valid() && id in tables.users
      requires forall k :: k in tables.users && k != id ==>
        tables.users[k].username != u.username && tables.users[k].phone != u.phone
      modifies this
      ensures Valid()
      ensures tables == old(tables).(users := old(tables.users)[id := u])
    {
      UserSavedValid(tables, id, u, tables.nextId, tables.(users := tables.users[id := u]));
      tables := tables.(users := tables.users[id := u]);
    }

    /** Saves a changed house row. */
    method SetHouse(id: nat, h: House)
      requires Valid() && id in tables.houses
      requires h.districtId in tables.districts && (h.agentId.Some? ==> h.agentId.value in tables.users)
      modifies this
      ensures Valid()
      ensures tables == old(tables).(houses := old(tables.houses)[id := h])
    {
      HouseSavedValid(tables, id, h, tables.nextId, tables.(houses := tables.houses[id := h]));
      tables := tables.(houses := tables.houses[id := h]);
    }

    /** Saves a changed alert row, keeping its user and house. */
    method SetAlert(id: nat, a: PriceAlert)
      requires Valid() && id in tables.alerts
      requires a.userId == tables.alerts[id].userId && a.houseId == tables.alerts[id].houseId
      requires a.status in AlertStatusChoices
      modifies this
      ensures Valid()
      ensures tables == old(tables).(alerts := old(tables.alerts)[id := a])
    {
      AlertSetValid(tables, id, a);
      tables := tables.(alerts := tables.alerts[id := a]);
    }

    /** QuerySet.delete() on the houses with the given ids: the houses and every
        row referring to them go; the count covers all of them. */
    method DeleteHouses(ids: set<nat>) returns (count: int)
      requires Valid()
      modifies this
      ensures Valid()
      ensures tables == WithoutHouses(old(tables), ids)
      ensures count == Removed(old(tables), tables)
    {
      var r := WithoutHouses(tables, ids);
      WithoutHousesValid(tables, ids);
      count := Removed(tables, r);
      tables := r;
    }

    /** Model.delete() on a user. */
    method DeleteUser(uid: nat)
      requires Valid()
      modifies this
      ensures Valid()
      ensures tables == WithoutUser(old(tables), uid)
    {
      WithoutUserValid(tables, uid);
      tables := WithoutUser(tables, uid);
    }

    /** Deletes one favourite. */
    method DeleteFavorite(id: nat)
      requires Valid()
      modifies this
      ensures Valid()
      ensures tables == old(tables).(favorites := old(tables.favorites) - {id})
    {
      tables := tables.(favorites := tables.favorites - {id});
    }

    /** Deletes the transactions with the given ids. */
    method DeleteTransactions(ids: set<nat>)
      requires Valid()
      modifies this
      ensures Valid()
      ensures tables == old(tables).(transactions := old(tables.transactions) - ids)
    {
      tables := tables.(transactions := tables.transactions - ids);
    }

    /** Deletes a district that no house refers to. */
    method DeleteDistrict(id: nat)
      requires Valid()
      requires forall h :: h in tables.houses ==> tables.houses[h].districtId != id
      modifies this
      ensures Valid()
      ensures tables == old(tables).(districts := old(tables.districts) - {id})
    {
      tables := tables.(districts := tables.districts - {id});
    }
  }
}
