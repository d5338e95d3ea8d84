/** The load_fixtures management command: house and transaction entries of a
    JSON fixture file go into the store, each resolved against what is there
    and skipped when it cannot be placed or already exists. The calendar
    (datetime.fromisoformat) and the clock are parameters. */
module LoadFixtures {
  import opened Wrappers
  import opened Numbers
  import opened Store
  import opened Common
  import HouseViews
  import ExcelImporter

  /** The city District.city defaults to. */
  const FixtureCity := "上海"

  /** A JSON object as json.load builds the dict: a later key wins. */
  function Fields(j: Json): (r: Option<map<string, Json>>)
    ensures r.Some? <==> j.JObj?
  {
    if j.JObj? then Some(FieldMap(j.entries)) else None
  }

  function FieldMap(entries: seq<(string, Json)>): (m: map<string, Json>)
    ensures forall k :: k in m <==> exists i :: 0 <= i < |entries| && entries[i].0 == k
  {
    if entries == [] then map[]
    else
      var init := FieldMap(entries[..|entries| - 1]);
      var last := entries[|entries| - 1];
      assert forall i :: 0 <= i < |entries| - 1 ==> entries[..|entries| - 1][i] == entries[i];
      init[last.0 := last.1]
  }

  /** The value a CharField or TextField stores: str() of it; None (the
      NOT NULL constraint fails) for null. */
  function StoredText(j: Json): (r: Option<string>)
    ensures r.None? <==> j.JNull?
    ensures j.JStr? ==> r == Some(j.s)
  {
    if j.JNull? then None else Some(Show(j))
  }

  /** float(value) as a decimal; None when float() raises. */
  function FloatDec(j: Json): (r: Option<Dec>)
    ensures j.JInt? ==> r == Some(Dec(j.i, 0))
    ensures j.JStr? ==> r == ParseDec(j.s)
    ensures j.JNull? || j.JList? || j.JObj? ==> r.None?
  {
    match j
    case JInt(i) => Some(Dec(i, 0))
    case JNum(d) => Some(d)
    case JBool(b) => Some(Dec(if b then 1 else 0, 0))
    case JStr(s) => ParseDec(s)
    case _ => None
  }

  // ------------------------------------------------------------ load_houses

  /** Where an entry's district comes from. */
  datatype DistrictSource = ExistingId(id: nat) | ByName(name: string) | Unplaced

  /** district_id when truthy (a missing row or a non-number raises, so the
      entry is skipped), else get_or_create by district, then district_name;
      neither gives a skipped entry. */
  function DistrictSourceOf(t: Tables, f: map<string, Json>): (r: DistrictSource)
    ensures r.ExistingId? ==> r.id in t.districts
    ensures Truthy(HouseViews.Get(f, "district_id", JNull)) ==> !r.ByName?
  {
    var byId := HouseViews.Get(f, "district_id", JNull);
    var name := if "district" in f then f["district"] else HouseViews.Get(f, "district_name", JNull);
    if Truthy(byId) then
      match LookupKey(byId)
      case Ok(id) => if id >= 0 && id in t.districts then ExistingId(id) else Unplaced
      case Err(_) => Unplaced
    else if Truthy(name) then ByName(Show(name))
    else Unplaced
  }

  /** The tables after get_or_create(name=...) and the district's id. */
  function DistrictNamed(t: Tables, name: string): (r: (Tables, nat))
    ensures r.1 in r.0.districts && r.0.districts[r.1].name == name
    ensures r.0 == t || (r.1 == t.nextId && r.0 == t.(districts := t.districts[r.1 := District(name, FixtureCity, "")], nextId := t.nextId + 1))
    ensures ExcelImporter.NamedDistrict(t, name).Some? ==> r == (t, ExcelImporter.NamedDistrict(t, name).value)
  {
    match ExcelImporter.NamedDistrict(t, name)
    case Some(id) => (t, id)
    case None => (t.(districts := t.districts[t.nextId := District(name, FixtureCity, "")], nextId := t.nextId + 1), t.nextId)
  }

  function UsernameIs(name: string): User -> bool
  {
    (u: User) => u.username == name
  }

  /** The username an entry names: agent, else agent_username, else "agent1". */
  function AgentKey(f: map<string, Json>): Json
  {
    if "agent" in f then f["agent"] else HouseViews.Get(f, "agent_username", JStr("agent1"))
  }

  /** The user of that username, whatever their role; otherwise the agent
      with the smallest id; None when there is no agent at all. */
  function AgentFor(t: Tables, f: map<string, Json>): (r: Option<nat>)
    ensures r.Some? ==> r.value in t.users
    ensures r.None? ==> FirstKey(t.users, ExcelImporter.IsAgent(), 0, t.nextId).None?
  {
    var key := AgentKey(f);
    var named := if key.JNull? then None else FirstKey(t.users, UsernameIs(Show(key)), 0, t.nextId);
    if named.Some? then named
    else FirstKey(t.users, ExcelImporter.IsAgent(), 0, t.nextId)
  }

  /** filter(address=address).exists(): null matches no house. */
  predicate AddressTaken(t: Tables, address: Json)
  {
    !address.JNull? && exists k :: k in t.houses && t.houses[k].address == Show(address)
  }

  /** The columns House.objects.create writes for an entry, with the
      defaults of the command; None when a conversion or a NOT NULL column
      raises, or when a numeric column cannot hold its value (strict mode
      refuses the INSERT). The district, agent and timestamps are filled in
      by NewHouse. */
  function HouseColumns(f: map<string, Json>): (r: Option<House>)
    ensures r.Some? ==> StoredText(HouseViews.Get(f, "address", JNull)) == Some(r.value.address)
    ensures r.Some? ==> HouseFits(r.value)
    ensures "address" !in f ==> r.None?
  {
    var title := StoredText(HouseViews.Get(f, "title", JStr("房源")));
    var address := StoredText(HouseViews.Get(f, "address", JNull));
    var price := FloatDec(HouseViews.Get(f, "price", JInt(0)));
    var unitPrice := FloatDec(HouseViews.Get(f, "unit_price", JInt(0)));
    var area := FloatDec(HouseViews.Get(f, "area", JInt(0)));
    var houseType := StoredText(HouseViews.Get(f, "house_type", JStr("2室")));
    var floor := StoredText(HouseViews.Get(f, "floor", JStr("1/1")));
    var totalFloors := LookupKey(HouseViews.Get(f, "total_floors", JInt(1)));
    var orientation := StoredText(HouseViews.Get(f, "orientation", JStr("南")));
    var decoration := StoredText(HouseViews.Get(f, "decoration", JStr("精装")));
    var year := HouseViews.Get(f, "build_year", JInt(2020));
    var buildYear := if year.JNull? then Ok(None) else (match LookupKey(year) case Ok(y) => Ok(Some(y)) case Err(e) => Err(e));
    var latitude := FloatDec(HouseViews.Get(f, "latitude", JNum(Dec(312304, 4))));
    var longitude := FloatDec(HouseViews.Get(f, "longitude", JNum(Dec(1214737, 4))));
    var description := StoredText(HouseViews.Get(f, "description", JStr("")));
    var status := StoredText(HouseViews.Get(f, "status", JStr("available")));
    if title.Some? && address.Some? && price.Some? && unitPrice.Some? && area.Some? && houseType.Some?
      && floor.Some? && totalFloors.Ok? && orientation.Some? && decoration.Some? && buildYear.Ok?
      && latitude.Some? && longitude.Some? && description.Some? && status.Some?
    then
      var h := House(title.value, 0, address.value,
        Quantize(price.value, 2), Quantize(unitPrice.value, 2), Quantize(area.value, 2),
        houseType.value, floor.value, totalFloors.value, orientation.value, decoration.value, buildYear.value,
        Some(Quantize(longitude.value, 7)), Some(Quantize(latitude.value, 7)),
        description.value, "", status.value, None, 0, 0);
      if HouseFits(h) then Some(h) else None
    else None
  }

  /** The row created from an entry's columns, in the given district, of
      the given agent, stamped now. */
  function NewHouse(columns: House, districtId: nat, agentId: nat, now: int): (r: House)
    ensures r.districtId == districtId && r.agentId == Some(agentId) && r.updatedAt == now
    ensures r.address == columns.address
    ensures HouseFits(r) <==> HouseFits(columns)
  {
    columns.(districtId := districtId, agentId := Some(agentId), updatedAt := now)
  }

  /** An entry with an area of a million square metres and no prices: the
      area is 100000000.00, one digit more than DECIMAL(8, 2) holds, so the
      INSERT is refused and the entry is skipped with nothing added. */
  lemma MillionSquareMetresEntry(f: map<string, Json>, t: Tables, districtId: nat, now: int)
    requires "area" in f && f["area"] == JInt(1000000) && "price" !in f && "unit_price" !in f
    ensures HouseColumns(f).None?
    ensures PlaceHouse(t, f, HouseColumns(f), districtId, now) == (t, Skipped)
  {
    assert Pow10(2) == 100 && Pow10(0) == 1;
    assert Quantize(Dec(1000000, 0), 2) == Dec(100000000, 2);
  }

  /** What became of one entry: a house created, the entry skipped, or the
      whole call aborted (an entry that is not an object makes the except
      clause itself raise). */
  datatype Outcome = Created | Skipped | Aborted

  /** An entry of the houses list as the loop reads it: not an object, or
      its fields with the columns they convert to. */
  datatype Entry = NotAnObject | Entry(fields: map<string, Json>, columns: Option<House>)

  /** The columns of an entry carry its address. */
  predicate Consistent(x: Entry)
  {
    x.Entry? && x.columns.Some? ==>
      StoredText(HouseViews.Get(x.fields, "address", JNull)) == Some(x.columns.value.address)
  }

  function ReadEntry(e: Json): (x: Entry)
    ensures x.NotAnObject? <==> !e.JObj?
    ensures Consistent(x)
  {
    match Fields(e)
    case None => NotAnObject
    case Some(f) => Entry(f, HouseColumns(f))
  }

  function ReadAll(entries: seq<Json>): (xs: seq<Entry>)
    ensures |xs| == |entries|
    ensures forall i :: 0 <= i < |xs| ==> Consistent(xs[i]) && (xs[i].NotAnObject? <==> !entries[i].JObj?)
  {
    seq(|entries|, i requires 0 <= i < |entries| => ReadEntry(entries[i]))
  }

  /** One pass of the load_houses loop on the tables. A district made by
      get_or_create stays even when the entry is then skipped. */
  function HouseStep(t: Tables, x: Entry, now: int): (r: (Tables, Outcome))
  {
    match x
    case NotAnObject => (t, Aborted)
    case Entry(f, columns) =>
      match DistrictSourceOf(t, f)
      case Unplaced => (t, Skipped)
      case ExistingId(id) => PlaceHouse(t, f, columns, id, now)
      case ByName(name) =>
        var t1, id := DistrictNamed(t, name).0, DistrictNamed(t, name).1;
        PlaceHouse(t1, f, columns, id, now)
  }

  /** The rest of the pass once the district is known; columns is what
      HouseColumns makes of the entry. */
  function PlaceHouse(t: Tables, f: map<string, Json>, columns: Option<House>, districtId: nat, now: int): (r: (Tables, Outcome))
    ensures r.0.districts == t.districts && t.nextId <= r.0.nextId
  {
    match Placement(t, f, columns, districtId, now)
    case None => (t, Skipped)
    case Some(h) => (WithHouse(t, h), Created)
  }

  /** The house row the pass creates, if any: none without an agent, when
      the address is in use, or when the columns could not be made. */
  function Placement(t: Tables, f: map<string, Json>, columns: Option<House>, districtId: nat, now: int): (r: Option<House>)
    ensures r.Some? ==> r.value.districtId == districtId && r.value.agentId.Some? && r.value.agentId.value in t.users
  {
    match AgentFor(t, f)
    case None => None
    case Some(agent) =>
      if AddressTaken(t, HouseViews.Get(f, "address", JNull)) then None
      else match columns
        case None => None
        case Some(c) => Some(NewHouse(c, districtId, agent, now))
  }

  /** r is t with one house more, under the newest id, made from the entry. */
  predicate HouseAdded(t: Tables, r: Tables, f: map<string, Json>)
  {
    && t.nextId < r.nextId
    && r.houses.Keys == t.houses.Keys + {r.nextId - 1} && r.nextId - 1 !in t.houses
    && StoredText(HouseViews.Get(f, "address", JNull)) == Some(r.houses[r.nextId - 1].address)
    && (forall k :: k in t.houses ==> t.houses[k].address != r.houses[r.nextId - 1].address)
    && r.houses[r.nextId - 1].districtId in r.districts
    && r.houses[r.nextId - 1].agentId.Some? && r.houses[r.nextId - 1].agentId.value in t.users
  }

  /** r differs from t at most by rows added to districts and houses. */
  predicate Grown(t: Tables, r: Tables)
  {
    && r.users == t.users && r.images == t.images && r.transactions == t.transactions
    && r.favorites == t.favorites && r.alerts == t.alerts && t.nextId <= r.nextId
    && (forall k :: k in t.districts ==> k in r.districts && r.districts[k] == t.districts[k])
    && (forall k :: k in t.houses ==> k in r.houses && r.houses[k] == t.houses[k])
  }

  /** The tables with a house inserted under the next id. */
  function WithHouse(t: Tables, h: House): (r: Tables)
    ensures r.houses.Keys == t.houses.Keys + {t.nextId} && r.nextId == t.nextId + 1
  {
    t.(houses := t.houses[t.nextId := h], nextId := t.nextId + 1)
  }

  lemma WithHouseIs(t: Tables, h: House, id: nat, r: Tables)
    requires id == t.nextId && r == t.(houses := t.houses[id := h], nextId := id + 1)
    ensures r == WithHouse(t, h)
  {
  }

  /** Inserting a house of a known district and agent keeps the store
      consistent and only grows it. */
  lemma WithHouseValid(t: Tables, h: House)
    requires t.Valid() && h.districtId in t.districts && (h.agentId.Some? ==> h.agentId.value in t.users)
    ensures WithHouse(t, h).Valid() && Grown(t, WithHouse(t, h))
  {
    HouseSavedValid(t, t.nextId, h, t.nextId + 1, WithHouse(t, h));
    WithHouseGrown(t, h);
  }

  lemma WithHouseGrown(t: Tables, h: House)
    requires t.nextId !in t.houses
    ensures Grown(t, WithHouse(t, h))
  {
  }

  /** Placing a house keeps the store consistent, only ever adds a house,
      and changes nothing when it skips the entry. */
  lemma PlaceHouseValid(t: Tables, f: map<string, Json>, columns: Option<House>, districtId: nat, now: int)
    requires t.Valid() && districtId in t.districts
    ensures var r, o := PlaceHouse(t, f, columns, districtId, now).0, PlaceHouse(t, f, columns, districtId, now).1;
      && r.Valid() && o != Aborted && r.districts == t.districts && Grown(t, r)
      && (o == Skipped ==> r == t)
  {
    var placed := Placement(t, f, columns, districtId, now);
    if placed.Some? {
      WithHouseValid(t, placed.value);
    }
  }

  /** A house placed carries the entry's address, which no house had. */
  lemma PlaceHouseAdded(t: Tables, f: map<string, Json>, columns: Option<House>, districtId: nat, now: int)
    requires t.Valid() && districtId in t.districts
    requires columns.Some? ==> StoredText(HouseViews.Get(f, "address", JNull)) == Some(columns.value.address)
    ensures var r, o := PlaceHouse(t, f, columns, districtId, now).0, PlaceHouse(t, f, columns, districtId, now).1;
      o == Created ==> HouseAdded(t, r, f)
  {
    var r, o := PlaceHouse(t, f, columns, districtId, now).0, PlaceHouse(t, f, columns, districtId, now).1;
    if o == Created {
      var address := HouseViews.Get(f, "address", JNull);
      var h := r.houses[t.nextId];
      assert r.houses.Keys == t.houses.Keys + {t.nextId};
      assert !AddressTaken(t, address);
      assert h.address == Show(address);
    }
  }

  lemma GrownTransitive(a: Tables, b: Tables, c: Tables)
    requires Grown(a, b) && Grown(b, c)
    ensures Grown(a, c)
  {
  }

  /** get_or_create keeps the store consistent and only adds a district. */
  lemma DistrictNamedEffect(t: Tables, name: string)
    requires t.Valid()
    ensures DistrictNamed(t, name).0.Valid() && Grown(t, DistrictNamed(t, name).0)
    ensures DistrictNamed(t, name).0.houses == t.houses
  {
    if ExcelImporter.NamedDistrict(t, name).None? {
      DistrictAddedValid(t, District(name, FixtureCity, ""), DistrictNamed(t, name).0);
    }
  }

  /** A house added after a district was created is added to the tables
      before that district too. */
  lemma HouseAddedAfter(t: Tables, t1: Tables, r: Tables, f: map<string, Json>)
    requires HouseAdded(t1, r, f) && t1.houses == t.houses && t1.users == t.users && t.nextId <= t1.nextId
    ensures HouseAdded(t, r, f)
  {
  }

  /** What a pass promises about the store: it stays consistent; only the
      districts and houses ever change, and no row already there is changed;
      a skipped entry adds no house; an aborted one changes nothing. */
  lemma HouseStepValid(t: Tables, x: Entry, now: int)
    requires t.Valid()
    ensures var r, o := HouseStep(t, x, now).0, HouseStep(t, x, now).1;
      && r.Valid() && Grown(t, r)
      && (o != Created ==> r.houses == t.houses)
      && (o == Aborted <==> x.NotAnObject?)
      && (o == Aborted ==> r == t)
  {
    var r := HouseStep(t, x, now).0;
    if x.Entry? {
      var f, columns := x.fields, x.columns;
      match DistrictSourceOf(t, f)
      case Unplaced =>
        assert r == t;
      case ExistingId(id) =>
        PlaceHouseValid(t, f, columns, id, now);
        assert r == PlaceHouse(t, f, columns, id, now).0;
      case ByName(name) =>
        var t1, id := DistrictNamed(t, name).0, DistrictNamed(t, name).1;
        DistrictNamedEffect(t, name);
        PlaceHouseValid(t1, f, columns, id, now);
        assert r == PlaceHouse(t1, f, columns, id, now).0;
        GrownTransitive(t, t1, r);
    } else {
      assert r == t;
    }
    assert Grown(t, r);
  }

  /** What a pass promises about a created house: it sits under the newest
      id with the entry's address, which no house had, in a district of the
      store and with one of its users as agent. */
  lemma HouseStepAdded(t: Tables, x: Entry, now: int)
    requires t.Valid() && Consistent(x)
    ensures var r, o := HouseStep(t, x, now).0, HouseStep(t, x, now).1;
      o == Created ==> x.Entry? && HouseAdded(t, r, x.fields)
  {
    if x.Entry? {
      var f, columns := x.fields, x.columns;
      match DistrictSourceOf(t, f)
      case Unplaced =>
      case ExistingId(id) =>
        PlaceHouseAdded(t, f, columns, id, now);
      case ByName(name) =>
        var t1, id := DistrictNamed(t, name).0, DistrictNamed(t, name).1;
        DistrictNamedEffect(t, name);
        PlaceHouseAdded(t1, f, columns, id, now);
        var r, o := PlaceHouse(t1, f, columns, id, now).0, PlaceHouse(t1, f, columns, id, now).1;
        if o == Created {
          HouseAddedAfter(t, t1, r, f);
        }
    }
  }

  /** An entry whose address is in use is skipped, whatever its district. */
  lemma PlaceHouseTaken(t: Tables, f: map<string, Json>, columns: Option<House>, districtId: nat, now: int)
    requires AddressTaken(t, HouseViews.Get(f, "address", JNull))
    ensures PlaceHouse(t, f, columns, districtId, now) == (t, Skipped)
  {
  }

  /** Once a district of that name exists, get_or_create changes nothing. */
  lemma DistrictNamedExisting(t: Tables, name: string, id: nat)
    requires t.DistrictIdsBelow() && id in t.districts && t.districts[id].name == name
    ensures DistrictNamed(t, name).0 == t
  {
    assert ExcelImporter.NamedDistrict(t, name).Some?;
  }

  /** The district of an entry is already in the store. */
  predicate DistrictKnown(t: Tables, f: map<string, Json>)
  {
    match DistrictSourceOf(t, f)
    case Unplaced => false
    case ExistingId(_) => true
    case ByName(name) => exists id :: id in t.districts && t.districts[id].name == name
  }

  /** An entry whose district is known and whose address is in use is
      skipped and changes nothing. */
  lemma StepTaken(t: Tables, x: Entry, now: int)
    requires t.DistrictIdsBelow() && x.Entry? && DistrictKnown(t, x.fields)
    requires AddressTaken(t, HouseViews.Get(x.fields, "address", JNull))
    ensures HouseStep(t, x, now) == (t, Skipped)
  {
    match DistrictSourceOf(t, x.fields)
    case ExistingId(id) =>
      PlaceHouseTaken(t, x.fields, x.columns, id, now);
    case ByName(name) =>
      var id :| id in t.districts && t.districts[id].name == name;
      DistrictNamedExisting(t, name, id);
      PlaceHouseTaken(t, x.fields, x.columns, DistrictNamed(t, name).1, now);
  }

  /** Every district id stays below the counter across a pass. */
  lemma StepDistrictIdsBelow(t: Tables, x: Entry, now: int)
    requires t.DistrictIdsBelow()
    ensures HouseStep(t, x, now).0.DistrictIdsBelow()
  {
    if x.Entry? && DistrictSourceOf(t, x.fields).ByName? {
      var name := DistrictSourceOf(t, x.fields).name;
      var t1, id := DistrictNamed(t, name).0, DistrictNamed(t, name).1;
      assert t1.DistrictIdsBelow();
      assert HouseStep(t, x, now).0 == PlaceHouse(t1, x.fields, x.columns, id, now).0;
    }
  }

  /** A created house's district stays known. */
  lemma CreatedDistrictKnown(t: Tables, x: Entry, now: int)
    requires HouseStep(t, x, now).1 == Created
    ensures x.Entry? && DistrictKnown(HouseStep(t, x, now).0, x.fields)
  {
    var r := HouseStep(t, x, now).0;
    match DistrictSourceOf(t, x.fields)
    case Unplaced =>
    case ExistingId(id) =>
      SourceKept(t, r, x.fields);
    case ByName(name) =>
      var t1, id := DistrictNamed(t, name).0, DistrictNamed(t, name).1;
      assert r == PlaceHouse(t1, x.fields, x.columns, id, now).0;
      SourceKept(t, r, x.fields);
  }

  /** Where an entry's district comes from is unchanged by more districts. */
  lemma SourceKept(t: Tables, r: Tables, f: map<string, Json>)
    requires t.districts.Keys <= r.districts.Keys && !DistrictSourceOf(t, f).Unplaced?
    ensures DistrictSourceOf(r, f) == DistrictSourceOf(t, f)
  {
  }

  /** A house whose address is already in the store is never created again,
      so loading the same entry right after it was created skips it and
      changes nothing. */
  lemma ReloadSkips(t: Tables, x: Entry, now: int, later: int)
    requires t.Valid() && Consistent(x) && HouseStep(t, x, now).1 == Created
    ensures HouseStep(HouseStep(t, x, now).0, x, later) == (HouseStep(t, x, now).0, Skipped)
  {
    var r := HouseStep(t, x, now).0;
    HouseStepAdded(t, x, now);
    StepDistrictIdsBelow(t, x, now);
    var address := HouseViews.Get(x.fields, "address", JNull);
    assert AddressTaken(r, address) by {
      assert r.houses[r.nextId - 1].address == Show(address);
    }
    CreatedDistrictKnown(t, x, now);
    StepTaken(r, x, later);
  }

  /** The rest of a pass on the store once the district is known. */
  method PlaceHouseIn(db: Db, f: map<string, Json>, columns: Option<House>, districtId: nat, now: int) returns (o: Outcome)
    requires db.Valid() && districtId in db.tables.districts
    modifies db
    ensures db.Valid()
    ensures (db.tables, o) == PlaceHouse(old(db.tables), f, columns, districtId, now)
  {
    var placed := Placement(db.tables, f, columns, districtId, now);
    if placed.Some? {
      ghost var t := db.tables;
      var id := db.AddHouse(placed.value);
      WithHouseIs(t, placed.value, id, db.tables);
      o := Created;
    } else {
      o := Skipped;
    }
  }

  /** One pass on the store. */
  method LoadHouse(db: Db, x: Entry, now: int) returns (o: Outcome)
    requires db.Valid()
    modifies db
    ensures db.Valid()
    ensures (db.tables, o) == HouseStep(old(db.tables), x, now)
  {
    ghost var t := db.tables;
    if x.NotAnObject? {
      return Aborted;
    }
    var source := DistrictSourceOf(db.tables, x.fields);
    var districtId: nat;
    match source {
      case Unplaced =>
        return Skipped;
      case ExistingId(id) =>
        districtId := id;
      case ByName(name) =>
        var found := ExcelImporter.NamedDistrict(db.tables, name);
        if found.Some? {
          districtId := found.value;
        } else {
          districtId := db.AddDistrict(District(name, FixtureCity, ""));
        }
        assert (db.tables, districtId) == DistrictNamed(t, name);
    }
    ghost var t1 := db.tables;
    assert HouseStep(t, x, now) == PlaceHouse(t1, x.fields, x.columns, districtId, now);
    o := PlaceHouseIn(db, x.fields, x.columns, districtId, now);
  }

  /** load_houses on the tables: the entries in order, stopping at the
      first that aborts; the number of houses created, or Err. */
  function LoadAll(t: Tables, xs: seq<Entry>, now: int): (r: (Tables, Result<nat>))
    decreases |xs|
  {
    if xs == [] then (t, Ok(0))
    else
      var p, count := LoadAll(t, xs[..|xs| - 1], now).0, LoadAll(t, xs[..|xs| - 1], now).1;
      if count.Err? then (p, count)
      else
        var q, o := HouseStep(p, xs[|xs| - 1], now).0, HouseStep(p, xs[|xs| - 1], now).1;
        if o == Aborted then (q, Err(NoGet))
        else (q, Ok(count.value + if o == Created then 1 else 0))
  }

  /** Every house in r but not in t has an address no other house of r has. */
  predicate NewAddressesDistinct(t: Tables, r: Tables)
  {
    forall a, b :: a in r.houses && b in r.houses && a != b && a !in t.houses ==>
      r.houses[a].address != r.houses[b].address
  }

  /** What one pass from t to r with outcome o does to the store. */
  predicate StepKeeps(t: Tables, r: Tables, o: Outcome, x: Entry)
  {
    && r.Valid() && Grown(t, r)
    && (o != Created ==> r.houses == t.houses)
    && (o == Created ==> x.Entry? && HouseAdded(t, r, x.fields))
  }

  lemma HouseStepKeeps(t: Tables, x: Entry, now: int)
    requires t.Valid() && Consistent(x)
    ensures StepKeeps(t, HouseStep(t, x, now).0, HouseStep(t, x, now).1, x)
  {
    HouseStepValid(t, x, now);
    HouseStepAdded(t, x, now);
  }

  /** One more entry after a run that did not abort: its pass decides the
      store and the count. */
  lemma LoadAllLast(t: Tables, xs: seq<Entry>, now: int)
    requires xs != [] && LoadAll(t, xs[..|xs| - 1], now).1.Ok?
    ensures var p, n := LoadAll(t, xs[..|xs| - 1], now).0, LoadAll(t, xs[..|xs| - 1], now).1.value;
      var q, o := HouseStep(p, xs[|xs| - 1], now).0, HouseStep(p, xs[|xs| - 1], now).1;
      LoadAll(t, xs, now) == (q, if o == Aborted then Err(NoGet) else Ok(n + if o == Created then 1 else 0))
  {
  }

  /** After an abort, the rest of the entries change nothing. */
  lemma LoadAllAborted(t: Tables, xs: seq<Entry>, now: int)
    requires xs != [] && LoadAll(t, xs[..|xs| - 1], now).1.Err?
    ensures LoadAll(t, xs, now) == LoadAll(t, xs[..|xs| - 1], now)
  {
  }

  /** The loader keeps the store consistent, only adds districts and houses,
      gives every new house an address no other house has, and counts
      exactly the houses it adds. */
  lemma {:induction false} LoadAllEffect(t: Tables, xs: seq<Entry>, now: int)
    requires t.Valid() && forall i :: 0 <= i < |xs| ==> Consistent(xs[i])
    ensures LoadAll(t, xs, now).0.Valid() && Grown(t, LoadAll(t, xs, now).0)
    ensures NewAddressesDistinct(t, LoadAll(t, xs, now).0)
    ensures LoadAll(t, xs, now).1.Ok? ==>
      LoadAll(t, xs, now).1.value == |LoadAll(t, xs, now).0.houses| - |t.houses|
    decreases |xs|
  {
    if xs != [] {
      var init := xs[..|xs| - 1];
      var x := xs[|xs| - 1];
      LoadAllEffect(t, init, now);
      var p, count := LoadAll(t, init, now).0, LoadAll(t, init, now).1;
      if count.Ok? {
        var q, o := HouseStep(p, x, now).0, HouseStep(p, x, now).1;
        HouseStepKeeps(p, x, now);
        LoadAllLast(t, xs, now);
        assert StepKeeps(p, q, o, x);
        GrownTransitive(t, p, q);
        if o == Created {
          HouseAddedCount(p, q, x.fields);
          DistinctAfterAdd(t, p, q, x.fields);
        }
      } else {
        LoadAllAborted(t, xs, now);
      }
    }
  }

  /** A pass aborts exactly on an entry that is not an object. */
  lemma HouseStepAborts(t: Tables, x: Entry, now: int)
    ensures HouseStep(t, x, now).1 == Aborted <==> x.NotAnObject?
  {
    if x.Entry? {
      match DistrictSourceOf(t, x.fields)
      case Unplaced =>
      case ExistingId(id) =>
      case ByName(name) =>
    }
  }

  /** load_houses fails exactly when some entry is not an object. */
  lemma {:induction false} LoadAllFails(t: Tables, xs: seq<Entry>, now: int)
    ensures LoadAll(t, xs, now).1.Ok? <==> forall i :: 0 <= i < |xs| ==> xs[i].Entry?
    decreases |xs|
  {
    if xs != [] {
      var init := xs[..|xs| - 1];
      var x := xs[|xs| - 1];
      LoadAllFails(t, init, now);
      AllEntriesSnoc(xs, init);
      var p, count := LoadAll(t, init, now).0, LoadAll(t, init, now).1;
      if count.Ok? {
        HouseStepAborts(p, x, now);
        LoadAllLast(t, xs, now);
      } else {
        LoadAllAborted(t, xs, now);
      }
    }
  }

  lemma AllEntriesSnoc(xs: seq<Entry>, init: seq<Entry>)
    requires xs != [] && init == xs[..|xs| - 1]
    ensures (forall i :: 0 <= i < |xs| ==> xs[i].Entry?) <==>
      (forall i :: 0 <= i < |init| ==> init[i].Entry?) && xs[|xs| - 1].Entry?
  {
    assert forall i :: 0 <= i < |init| ==> init[i] == xs[i];
  }

  /** One house added means one row more. */
  lemma HouseAddedCount(t: Tables, r: Tables, f: map<string, Json>)
    requires HouseAdded(t, r, f)
    ensures |r.houses| == |t.houses| + 1
  {
    assert |r.houses.Keys| == |t.houses.Keys| + 1;
  }

  /** Adding one house whose address no house had keeps new addresses
      distinct. */
  lemma DistinctAfterAdd(t: Tables, p: Tables, q: Tables, f: map<string, Json>)
    requires NewAddressesDistinct(t, p) && HouseAdded(p, q, f) && Grown(t, p) && Grown(p, q)
    ensures NewAddressesDistinct(t, q)
  {
    var n := q.nextId - 1;
    forall a, b | a in q.houses && b in q.houses && a != b && a !in t.houses
      ensures q.houses[a].address != q.houses[b].address
    {
      if a != n && b != n {
        assert a in p.houses && b in p.houses;
      }
    }
  }

  /** Once an entry aborts, the entries after it are not looked at. */
  lemma {:induction false} LoadAllStops(t: Tables, xs: seq<Entry>, i: nat, now: int)
    requires i <= |xs| && LoadAll(t, xs[..i], now).1.Err?
    ensures LoadAll(t, xs, now) == LoadAll(t, xs[..i], now)
    decreases |xs| - i
  {
    if i < |xs| {
      assert xs[..i + 1][..i] == xs[..i];
      LoadAllStops(t, xs, i + 1, now);
    } else {
      assert xs[..i] == xs;
    }
  }

  /** The loader one entry further. */
  lemma LoadAllNext(t: Tables, xs: seq<Entry>, i: nat, now: int, p: Tables, count: nat, q: Tables, o: Outcome)
    requires i < |xs| && LoadAll(t, xs[..i], now) == (p, Ok(count)) && HouseStep(p, xs[i], now) == (q, o)
    ensures LoadAll(t, xs[..i + 1], now) == (q, if o == Aborted then Err(NoGet) else Ok(count + if o == Created then 1 else 0))
  {
    var ys := xs[..i + 1];
    assert ys[..|ys| - 1] == xs[..i];
    assert ys[|ys| - 1] == xs[i];
    LoadAllLast(t, ys, now);
  }

  /** load_houses: the number of houses created, or Err when an entry that is
      not an object aborted the call (the houses of the entries before it
      stay). */
  method LoadHouses(db: Db, entries: seq<Json>, now: int) returns (r: Result<nat>)
    requires db.Valid()
    modifies db
    ensures db.Valid()
    ensures (db.tables, r) == LoadAll(old(db.tables), ReadAll(entries), now)
  {
    ghost var t := db.tables;
    var xs := ReadAll(entries);
    var count := 0;
    var i := 0;
    assert xs[..0] == [];
    assert LoadAll(t, xs[..0], now) == (t, Ok(0));
    while i < |entries|
      invariant 0 <= i <= |entries| && db.Valid()
      invariant (db.tables, Ok(count)) == LoadAll(t, xs[..i], now)
    {
      ghost var p := db.tables;
      var o := LoadHouse(db, xs[i], now);
      LoadAllNext(t, xs, i, now, p, count, db.tables, o);
      if o == Aborted {
        LoadAllStops(t, xs, i + 1, now);
        return Err(NoGet);
      }
      ghost var c0 := count;
      if o == Created {
        count := count + 1;
      }
      assert count == c0 + if o == Created then 1 else 0;
      assert LoadAll(t, xs[..i + 1], now) == (db.tables, Ok(count));
      i := i + 1;
    }
    assert xs[..i] == xs;
    r := Ok(count);
  }

  /** The AttributeError an entry that is not an object raises. */
  const NoGet := "object has no attribute 'get'"

  // ------------------------------------------------------ load_transactions

  /** An entry of the transactions list as the loop reads it: not an
      object, or its fields with the deal date (None unless deal_date is a
      string that datetime.fromisoformat reads, after 'Z' is replaced by
      '+00:00'), the deal price as the column stores it (None when float()
      raises or DECIMAL(10, 2) cannot hold it), and the buyer. */
  datatype Deal = NotARecord | Deal(fields: map<string, Json>, date: Option<int>, price: Option<Dec>, buyer: Option<string>)

  /** The day datetime.fromisoformat gives for a text is a parameter; None
      where it raises. */
  function ReadDeal(e: Json, isoDate: string -> Option<int>): (x: Deal)
    ensures x.NotARecord? <==> !e.JObj?
    ensures x.Deal? ==> (x.buyer.None? <==> HouseViews.Get(x.fields, "buyer_name", JStr("买家")).JNull?)
    ensures x.Deal? && x.date.Some? ==> HouseViews.Get(x.fields, "deal_date", JNull).JStr?
    ensures x.Deal? && x.price.Some? ==> x.price.value.places == 2 && FitsDecimal(x.price.value, TenDigits, 2)
    ensures x.Deal? && x.price.None? ==>
      var p := FloatDec(HouseViews.Get(x.fields, "deal_price", JInt(0)));
      p.None? || !FitsDecimal(p.value, TenDigits, 2)
  {
    match Fields(e)
    case None => NotARecord
    case Some(f) =>
      var day := HouseViews.Get(f, "deal_date", JNull);
      var price := FloatDec(HouseViews.Get(f, "deal_price", JInt(0)));
      Deal(f,
        if day.JStr? then isoDate(day.s) else None,
        if price.Some? && FitsDecimal(price.value, TenDigits, 2) then Some(Quantize(price.value, 2)) else None,
        StoredText(HouseViews.Get(f, "buyer_name", JStr("买家"))))
  }

  function ReadDeals(entries: seq<Json>, isoDate: string -> Option<int>): (xs: seq<Deal>)
    ensures |xs| == |entries|
  {
    seq(|entries|, i requires 0 <= i < |entries| => ReadDeal(entries[i], isoDate))
  }

  function AddressIs(address: string): House -> bool
  {
    (h: House) => h.address == address
  }

  /** How the house of a deal is found. */
  datatype HouseLookup = Found(id: nat) | NoHouse | Raised

  /** house_id when truthy and present (a value that is not an id raises);
      otherwise House.objects.get(address=house_address) when that is
      truthy, which raises MultipleObjectsReturned when two houses share
      the address. */
  function DealHouse(t: Tables, f: map<string, Json>): (r: HouseLookup)
    ensures r.Found? ==> r.id in t.houses
    ensures r.Found? && !Truthy(HouseViews.Get(f, "house_id", JNull)) ==>
      t.houses[r.id].address == Show(HouseViews.Get(f, "house_address", JNull))
    ensures r.Found? && !Truthy(HouseViews.Get(f, "house_id", JNull)) ==>
      forall k :: k in t.houses && k != r.id && k < t.nextId ==> t.houses[k].address != t.houses[r.id].address
  {
    var byId := HouseViews.Get(f, "house_id", JNull);
    var address := HouseViews.Get(f, "house_address", JNull);
    var id := if Truthy(byId) then LookupKey(byId) else Err("");
    if Truthy(byId) && id.Err? then Raised
    else if id.Ok? && id.value >= 0 && id.value in t.houses then Found(id.value)
    else if Truthy(address) then
      var p := AddressIs(Show(address));
      match FirstKey(t.houses, p, 0, t.nextId)
      case None => NoHouse
      case Some(k) => if LastKey(t.houses, p, t.nextId) == Some(k) then Found(k) else Raised
    else NoHouse
  }

  /** Some transaction of the house on that day is already there. */
  predicate DealRecorded(t: Tables, houseId: nat, day: int)
  {
    exists k :: k in t.transactions && t.transactions[k].houseId == houseId && t.transactions[k].dealDate == day
  }

  /** The tables with a transaction inserted under the next id. */
  function WithTransaction(t: Tables, x: Transaction): (r: Tables)
    ensures r.transactions.Keys == t.transactions.Keys + {t.nextId} && r.nextId == t.nextId + 1
  {
    t.(transactions := t.transactions[t.nextId := x], nextId := t.nextId + 1)
  }

  /** One pass of the load_transactions loop: every failure skips the entry. */
  function DealStep(t: Tables, x: Deal): (r: (Tables, Outcome))
  {
    match x
    case NotARecord => (t, Skipped)
    case Deal(f, date, price, buyer) =>
      match DealHouse(t, f)
      case Found(h) =>
        if date.None? || DealRecorded(t, h, date.value) || price.None? || buyer.None? then (t, Skipped)
        else (WithTransaction(t, Transaction(h, price.value, date.value, buyer.value)), Created)
      case _ => (t, Skipped)
  }

  /** Inserting a transaction of a house in the store keeps it consistent. */
  lemma WithTransactionValid(t: Tables, x: Transaction)
    requires t.Valid() && x.houseId in t.houses
    ensures WithTransaction(t, x).Valid() && DealsGrown(t, WithTransaction(t, x))
  {
    var r := WithTransaction(t, x);
    WithTransactionIds(t, x);
    WithTransactionLinked(t, x);
    WithTransactionGrown(t, x);
    assert r.HousesLinked() && r.Unique() && r.AlertStatusesValid() by {
      assert r.houses == t.houses && r.users == t.users && r.districts == t.districts;
      assert r.favorites == t.favorites && r.alerts == t.alerts;
    }
  }

  lemma WithTransactionGrown(t: Tables, x: Transaction)
    requires t.IdsBelow()
    ensures DealsGrown(t, WithTransaction(t, x))
  {
    assert t.nextId !in t.transactions;
  }

  lemma WithTransactionIds(t: Tables, x: Transaction)
    requires t.IdsBelow()
    ensures WithTransaction(t, x).IdsBelow()
  {
  }

  lemma WithTransactionLinked(t: Tables, x: Transaction)
    requires t.ChildrenLinked() && x.houseId in t.houses
    ensures WithTransaction(t, x).ChildrenLinked()
  {
  }

  /** What one pass from t to r with outcome o does to the store. */
  predicate DealKeeps(t: Tables, r: Tables, o: Outcome)
  {
    && r.Valid() && o != Aborted && DealsGrown(t, r)
    && (o == Skipped ==> r == t)
    && (o == Created ==> DealAdded(t, r))
  }

  /** A pass only ever adds one transaction, of a house in the store, on a
      day that house had none; it keeps the store consistent. */
  lemma DealStepKeeps(t: Tables, x: Deal)
    requires t.Valid()
    ensures DealKeeps(t, DealStep(t, x).0, DealStep(t, x).1)
  {
    var r, o := DealStep(t, x).0, DealStep(t, x).1;
    if o == Created {
      var h := DealHouse(t, x.fields).id;
      var deal := Transaction(h, x.price.value, x.date.value, x.buyer.value);
      assert r == WithTransaction(t, deal);
      WithTransactionValid(t, deal);
      assert t.nextId !in t.transactions;
    }
  }

  /** A transaction added is one more in the count. */
  lemma DealAddedCount(t: Tables, r: Tables)
    requires DealAdded(t, r)
    ensures |r.transactions| == |t.transactions| + 1
  {
    assert |r.transactions.Keys| == |t.transactions.Keys| + 1;
  }

  /** r is t with one transaction more, under the newest id, of a house in
      the store, on a day that house had none. */
  predicate DealAdded(t: Tables, r: Tables)
  {
    && t.nextId < r.nextId
    && r.transactions.Keys == t.transactions.Keys + {r.nextId - 1} && r.nextId - 1 !in t.transactions
    && r.transactions[r.nextId - 1].houseId in t.houses
    && !DealRecorded(t, r.transactions[r.nextId - 1].houseId, r.transactions[r.nextId - 1].dealDate)
  }

  /** Loading a deal right after it was recorded skips it. */
  lemma DealReloadSkips(t: Tables, x: Deal)
    requires t.Valid() && DealStep(t, x).1 == Created
    ensures DealStep(DealStep(t, x).0, x) == (DealStep(t, x).0, Skipped)
  {
    var r := DealStep(t, x).0;
    DealStepKeeps(t, x);
    var f := x.fields;
    var h := DealHouse(t, f).id;
    var n := t.nextId;
    assert r.houses == t.houses && r.nextId == n + 1;
    assert DealHouse(r, f) == DealHouse(t, f) by {
      DealHouseStable(t, r, f);
    }
    assert r.transactions[n].houseId == h && r.transactions[n].dealDate == x.date.value;
    assert DealRecorded(r, h, x.date.value);
  }

  /** A deal price of 100000000 (1e8) is 100000000.00, one digit more than
      DECIMAL(10, 2) holds: the INSERT is refused and the deal is skipped
      with nothing added, wherever its house is. */
  lemma HundredMillionDeal(e: Json, isoDate: string -> Option<int>, t: Tables)
    requires e.JObj? && HouseViews.Get(Fields(e).value, "deal_price", JInt(0)) == JInt(100000000)
    ensures ReadDeal(e, isoDate).price.None?
    ensures DealStep(t, ReadDeal(e, isoDate)) == (t, Skipped)
  {
    assert Pow10(2) == 100 && Pow10(0) == 1;
    assert Quantize(Dec(100000000, 0), 2) == Dec(10000000000, 2);
  }

  /** Handing out more ids does not change where a deal's house is found. */
  lemma DealHouseStable(t: Tables, r: Tables, f: map<string, Json>)
    requires t.IdsBelow() && r.houses == t.houses && t.nextId <= r.nextId
    ensures DealHouse(r, f) == DealHouse(t, f)
  {
    var address := HouseViews.Get(f, "house_address", JNull);
    var p := AddressIs(Show(address));
    FirstKeyStable(t.houses, p, t.nextId, r.nextId);
    LastKeyStable(t.houses, p, t.nextId, r.nextId);
  }

  /** load_transactions on the tables: the number of transactions created. */
  function LoadDeals(t: Tables, xs: seq<Deal>): (r: (Tables, nat))
    decreases |xs|
  {
    if xs == [] then (t, 0)
    else
      var p, count := LoadDeals(t, xs[..|xs| - 1]).0, LoadDeals(t, xs[..|xs| - 1]).1;
      var q, o := DealStep(p, xs[|xs| - 1]).0, DealStep(p, xs[|xs| - 1]).1;
      (q, count + if o == Created then 1 else 0)
  }

  /** No transaction added since t shares its house and day with another. */
  predicate NewDealsDistinct(t: Tables, r: Tables)
  {
    forall a, b :: a in r.transactions && b in r.transactions && a != b && a !in t.transactions ==>
      !(r.transactions[a].houseId == r.transactions[b].houseId && r.transactions[a].dealDate == r.transactions[b].dealDate)
  }

  /** r differs from t at most by transactions added. */
  predicate DealsGrown(t: Tables, r: Tables)
  {
    && r.districts == t.districts && r.users == t.users && r.houses == t.houses
    && r.images == t.images && r.favorites == t.favorites && r.alerts == t.alerts && t.nextId <= r.nextId
    && (forall k :: k in t.transactions ==> k in r.transactions && r.transactions[k] == t.transactions[k])
  }

  lemma DealsGrownTransitive(a: Tables, b: Tables, c: Tables)
    requires DealsGrown(a, b) && DealsGrown(b, c)
    ensures DealsGrown(a, c)
  {
  }

  /** The loader keeps the store consistent, changes nothing but the
      transactions, and counts exactly the transactions it adds. */
  lemma {:induction false} LoadDealsEffect(t: Tables, xs: seq<Deal>)
    requires t.Valid()
    ensures LoadDeals(t, xs).0.Valid() && DealsGrown(t, LoadDeals(t, xs).0)
    ensures LoadDeals(t, xs).1 == |LoadDeals(t, xs).0.transactions| - |t.transactions|
    decreases |xs|
  {
    if xs != [] {
      var init := xs[..|xs| - 1];
      LoadDealsEffect(t, init);
      var p, count := LoadDeals(t, init).0, LoadDeals(t, init).1;
      var x := xs[|xs| - 1];
      DealStepKeeps(p, x);
      var q, o := DealStep(p, x).0, DealStep(p, x).1;
      LoadDealsLast(t, xs, p, count, q, o);
      assert DealKeeps(p, q, o);
      DealsGrownTransitive(t, p, q);
      if o == Created {
        DealAddedCount(p, q);
      }
    }
  }

  lemma LoadDealsLast(t: Tables, xs: seq<Deal>, p: Tables, count: nat, q: Tables, o: Outcome)
    requires xs != [] && LoadDeals(t, xs[..|xs| - 1]) == (p, count) && DealStep(p, xs[|xs| - 1]) == (q, o)
    ensures LoadDeals(t, xs) == (q, count + if o == Created then 1 else 0)
  {
  }

  /** The loader never records a house's deal twice on one day. */
  lemma {:induction false} LoadDealsDistinct(t: Tables, xs: seq<Deal>)
    requires t.Valid()
    ensures NewDealsDistinct(t, LoadDeals(t, xs).0)
    decreases |xs|
  {
    if xs != [] {
      var init := xs[..|xs| - 1];
      LoadDealsDistinct(t, init);
      LoadDealsEffect(t, init);
      var p := LoadDeals(t, init).0;
      var x := xs[|xs| - 1];
      DealStepKeeps(p, x);
      var q, o := DealStep(p, x).0, DealStep(p, x).1;
      assert LoadDeals(t, xs).0 == q;
      assert DealKeeps(p, q, o);
      if o == Created {
        DealsDistinctAfterAdd(t, p, q);
      }
    }
  }

  lemma DealsDistinctAfterAdd(t: Tables, p: Tables, q: Tables)
    requires NewDealsDistinct(t, p) && DealAdded(p, q)
    requires forall k :: k in t.transactions ==> k in p.transactions && p.transactions[k] == t.transactions[k]
    requires forall k :: k in p.transactions ==> k in q.transactions && q.transactions[k] == p.transactions[k]
    ensures NewDealsDistinct(t, q)
  {
    var n := q.nextId - 1;
    forall a, b | a in q.transactions && b in q.transactions && a != b && a !in t.transactions
      ensures !(q.transactions[a].houseId == q.transactions[b].houseId && q.transactions[a].dealDate == q.transactions[b].dealDate)
    {
      if a == n {
        assert b in p.transactions;
      } else if b == n {
        assert a in p.transactions;
      }
    }
  }

  lemma LoadDealsNext(t: Tables, xs: seq<Deal>, i: nat, p: Tables, count: nat, q: Tables, o: Outcome)
    requires i < |xs| && LoadDeals(t, xs[..i]) == (p, count) && DealStep(p, xs[i]) == (q, o)
    ensures LoadDeals(t, xs[..i + 1]) == (q, count + if o == Created then 1 else 0)
  {
    assert xs[..i + 1][..i] == xs[..i];
    assert xs[..i + 1][i] == xs[i];
  }

  /** One pass on the store. */
  method LoadDeal(db: Db, x: Deal) returns (o: Outcome)
    requires db.Valid()
    modifies db
    ensures db.Valid()
    ensures (db.tables, o) == DealStep(old(db.tables), x)
  {
    ghost var t := db.tables;
    if x.NotARecord? {
      return Skipped;
    }
    var house := DealHouse(db.tables, x.fields);
    if !house.Found? || x.date.None? || DealRecorded(db.tables, house.id, x.date.value) || x.price.None? || x.buyer.None? {
      return Skipped;
    }
    var deal := Transaction(house.id, x.price.value, x.date.value, x.buyer.value);
    assert DealStep(t, x) == (WithTransaction(t, deal), Created);
    var _ := db.AddTransaction(deal);
    o := Created;
  }

  /** load_transactions: the number of transactions created. */
  method LoadTransactions(db: Db, entries: seq<Json>, isoDate: string -> Option<int>) returns (count: nat)
    requires db.Valid()
    modifies db
    ensures db.Valid()
    ensures (db.tables, count) == LoadDeals(old(db.tables), ReadDeals(entries, isoDate))
  {
    ghost var t := db.tables;
    var xs := ReadDeals(entries, isoDate);
    count := 0;
    var i := 0;
    assert xs[..0] == [];
    while i < |entries|
      invariant 0 <= i <= |entries| && db.Valid()
      invariant (db.tables, count) == LoadDeals(t, xs[..i])
    {
      ghost var p := db.tables;
      var o := LoadDeal(db, xs[i]);
      LoadDealsNext(t, xs, i, p, count, db.tables, o);
      if o == Created {
        count := count + 1;
      }
      i := i + 1;
    }
    assert xs[..i] == xs;
  }

  // ----------------------------------------------------------------- handle

  /** What a for loop visits in a value: the items of a list, the keys of a
      dict, the one-character strings of a str; None (a TypeError) for
      anything else. A dict with a repeated key visits it once, but every
      key is a str, which the house loop aborts on and the transaction loop
      skips, so only whether there is one matters. */
  function Iterated(j: Json): (r: Option<seq<Json>>)
    ensures r.Some? <==> j.JList? || j.JObj? || j.JStr?
    ensures r.Some? ==> (|r.value| == 0 <==> j == JList([]) || j == JObj([]) || j == JStr(""))
    ensures r.Some? && !j.JList? ==> forall i :: 0 <= i < |r.value| ==> r.value[i].JStr?
  {
    match j
    case JList(items) => Some(items)
    case JObj(entries) => Some(seq(|entries|, i requires 0 <= i < |entries| => JStr(entries[i].0)))
    case JStr(s) => Some(seq(|s|, i requires 0 <= i < |s| => JStr([s[i]])))
    case _ => None
  }

  /** What one file gives: the two counts, or the message of the exception
      that stopped it. */
  datatype FileResult = Loaded(houses: nat, transactions: nat) | Failed(error: string)

  const NotIterable := "object is not iterable"

  /** One file of handle: houses under "houses" (else "房源数据"),
      transactions under "transactions" (else "成交记录"), both empty lists
      by default. */
  function LoadFile(t: Tables, data: Json, now: int, isoDate: string -> Option<int>): (r: (Tables, FileResult))
  {
    match Fields(data)
    case None => (t, Failed(NoGet))
    case Some(f) =>
      var houses := Iterated(HouseViews.Get(f, "houses", HouseViews.Get(f, "房源数据", JList([]))));
      var deals := Iterated(HouseViews.Get(f, "transactions", HouseViews.Get(f, "成交记录", JList([]))));
      if houses.None? then (t, Failed(NotIterable))
      else LoadLists(t, houses.value, deals, now, isoDate)
  }

  /** The houses are loaded before the transaction list is even iterated,
      and nothing is rolled back: the houses of a file that fails
      afterwards stay in the store. */
  function LoadLists(t: Tables, houses: seq<Json>, deals: Option<seq<Json>>, now: int, isoDate: string -> Option<int>): (r: (Tables, FileResult))
  {
    var p, h := LoadAll(t, ReadAll(houses), now).0, LoadAll(t, ReadAll(houses), now).1;
    if h.Err? then (p, Failed(h.error))
    else if deals.None? then (p, Failed(NotIterable))
    else
      var q, d := LoadDeals(p, ReadDeals(deals.value, isoDate)).0, LoadDeals(p, ReadDeals(deals.value, isoDate)).1;
      (q, Loaded(h.value, d))
  }

  /** r keeps every row of t: users, images, favourites and alerts are the
      same, and districts, houses and transactions only gain rows. */
  predicate Kept(t: Tables, r: Tables)
  {
    && r.users == t.users && r.images == t.images && r.favorites == t.favorites && r.alerts == t.alerts
    && t.nextId <= r.nextId
    && (forall k :: k in t.districts ==> k in r.districts && r.districts[k] == t.districts[k])
    && (forall k :: k in t.houses ==> k in r.houses && r.houses[k] == t.houses[k])
    && (forall k :: k in t.transactions ==> k in r.transactions && r.transactions[k] == t.transactions[k])
  }

  lemma KeptTransitive(a: Tables, b: Tables, c: Tables)
    requires Kept(a, b) && Kept(b, c)
    ensures Kept(a, c)
  {
  }

  /** A map that keeps every key of another is at least as large. */
  lemma KeysGrow<V>(m: map<nat, V>, n: map<nat, V>)
    requires forall k :: k in m ==> k in n
    ensures |m| <= |n|
  {
    assert m.Keys <= n.Keys;
    assert n.Keys == m.Keys + (n.Keys - m.Keys);
  }

  /** What loading a file from t to r with result res does to the store. */
  predicate FileKeeps(t: Tables, r: Tables, res: FileResult)
  {
    && r.Valid() && Kept(t, r)
    && (res.Loaded? ==> res.houses == |r.houses| - |t.houses| && res.transactions == |r.transactions| - |t.transactions|)
  }

  lemma LoadListsEffect(t: Tables, houses: seq<Json>, deals: Option<seq<Json>>, now: int, isoDate: string -> Option<int>)
    requires t.Valid()
    ensures FileKeeps(t, LoadLists(t, houses, deals, now, isoDate).0, LoadLists(t, houses, deals, now, isoDate).1)
  {
    var xs := ReadAll(houses);
    LoadAllEffect(t, xs, now);
    var p, h := LoadAll(t, xs, now).0, LoadAll(t, xs, now).1;
    var r := LoadLists(t, houses, deals, now, isoDate);
    if h.Ok? && deals.Some? {
      var ys := ReadDeals(deals.value, isoDate);
      LoadDealsEffect(p, ys);
      var q, d := LoadDeals(p, ys).0, LoadDeals(p, ys).1;
      BothKept(t, p, q, h.value, d);
      assert r == (q, Loaded(h.value, d));
    } else {
      assert r.0 == p && r.1.Failed?;
      FailedKept(t, p, r.1);
    }
  }

  /** A file that fails keeps what the houses it loaded left. */
  lemma FailedKept(t: Tables, p: Tables, res: FileResult)
    requires p.Valid() && Grown(t, p) && res.Failed?
    ensures FileKeeps(t, p, res)
  {
    GrownKept(t, p);
  }

  lemma GrownKept(t: Tables, r: Tables)
    requires Grown(t, r)
    ensures Kept(t, r)
  {
  }

  /** Houses then transactions: the two counts are the two growths. */
  lemma BothKept(t: Tables, p: Tables, q: Tables, h: nat, d: nat)
    requires q.Valid() && Grown(t, p) && DealsGrown(p, q)
    requires h == |p.houses| - |t.houses| && d == |q.transactions| - |p.transactions|
    ensures FileKeeps(t, q, Loaded(h, d))
  {
    GrownKept(t, p);
    assert Kept(p, q);
    KeptTransitive(t, p, q);
  }

  /** Loading a file keeps the store consistent and keeps every row; a file
      that loads counts exactly the houses and transactions it adds, and a
      file that is not an object changes nothing. */
  lemma LoadFileEffect(t: Tables, data: Json, now: int, isoDate: string -> Option<int>)
    requires t.Valid()
    ensures FileKeeps(t, LoadFile(t, data, now, isoDate).0, LoadFile(t, data, now, isoDate).1)
    ensures !data.JObj? ==> LoadFile(t, data, now, isoDate) == (t, Failed(NoGet))
  {
    var f := Fields(data);
    if f.Some? {
      var houses := Iterated(HouseViews.Get(f.value, "houses", HouseViews.Get(f.value, "房源数据", JList([]))));
      var deals := Iterated(HouseViews.Get(f.value, "transactions", HouseViews.Get(f.value, "成交记录", JList([]))));
      if houses.Some? {
        LoadListsEffect(t, houses.value, deals, now, isoDate);
      }
    }
  }

  /** The file is a dict whose house list is iterable and holds only
      objects, and whose transaction list is iterable: exactly then it
      loads. */
  predicate Loadable(data: Json)
  {
    && data.JObj?
    && var f := Fields(data).value;
    && var houses := Iterated(HouseViews.Get(f, "houses", HouseViews.Get(f, "房源数据", JList([]))));
    && var deals := Iterated(HouseViews.Get(f, "transactions", HouseViews.Get(f, "成交记录", JList([]))));
    && houses.Some? && deals.Some?
    && forall i :: 0 <= i < |houses.value| ==> houses.value[i].JObj?
  }

  lemma LoadFileLoads(t: Tables, data: Json, now: int, isoDate: string -> Option<int>)
    ensures LoadFile(t, data, now, isoDate).1.Loaded? <==> Loadable(data)
  {
    var f := Fields(data);
    if f.Some? {
      var houses := Iterated(HouseViews.Get(f.value, "houses", HouseViews.Get(f.value, "房源数据", JList([]))));
      if houses.Some? {
        LoadAllFails(t, ReadAll(houses.value), now);
      }
    }
  }

  /** The --clear option: Transaction.objects.all().delete(), then
      House.objects.all().delete(), which cascades to the images,
      favourites and alerts. */
  method Clear(db: Db)
    requires db.Valid()
    modifies db
    ensures db.Valid()
    ensures db.tables == WithoutHouses(old(db.tables).(transactions := map[]), old(db.tables.houses).Keys)
  {
    var all := db.tables.transactions.Keys;
    db.DeleteTransactions(all);
    assert db.tables.transactions == map[];
    var _ := db.DeleteHouses(db.tables.houses.Keys);
  }

  /** After clearing, no house is left and nothing that refers to one;
      districts and users stay. */
  lemma ClearEmpties(t: Tables)
    requires t.Valid()
    ensures var r := WithoutHouses(t.(transactions := map[]), t.houses.Keys);
      && r.houses == map[] && r.images == map[] && r.transactions == map[]
      && r.favorites == map[] && r.alerts == map[]
      && r.districts == t.districts && r.users == t.users
  {
    var r := WithoutHouses(t.(transactions := map[]), t.houses.Keys);
    assert r.houses.Keys == {};
    assert forall k :: k !in r.images by {
      forall k | k in t.images ensures t.images[k].houseId in t.houses.Keys { }
    }
    assert forall k :: k !in r.favorites by {
      forall k | k in t.favorites ensures t.favorites[k].houseId in t.houses.Keys { }
    }
    assert forall k :: k !in r.alerts by {
      forall k | k in t.alerts ensures t.alerts[k].houseId in t.houses.Keys { }
    }
  }

  /** One file on the store. */
  method LoadFileInto(db: Db, data: Json, now: int, isoDate: string -> Option<int>) returns (res: FileResult)
    requires db.Valid()
    modifies db
    ensures db.Valid()
    ensures (db.tables, res) == LoadFile(old(db.tables), data, now, isoDate)
  {
    if !data.JObj? {
      return Failed(NoGet);
    }
    var f := Fields(data).value;
    var houses := Iterated(HouseViews.Get(f, "houses", HouseViews.Get(f, "房源数据", JList([]))));
    var deals := Iterated(HouseViews.Get(f, "transactions", HouseViews.Get(f, "成交记录", JList([]))));
    if houses.None? {
      return Failed(NotIterable);
    }
    var h := LoadHouses(db, houses.value, now);
    if h.Err? {
      return Failed(h.error);
    }
    if deals.None? {
      return Failed(NotIterable);
    }
    var d := LoadTransactions(db, deals.value, isoDate);
    res := Loaded(h.value, d);
  }

  /** The files of the folder in order, each the JSON it holds or None
      where json.load raises: the store after them and the two totals,
      which only count files that loaded. */
  function LoadFiles(t: Tables, files: seq<Option<Json>>, now: int, isoDate: string -> Option<int>): (r: (Tables, nat, nat))
    decreases |files|
  {
    if files == [] then (t, 0, 0)
    else FileStep(LoadFiles(t, files[..|files| - 1], now, isoDate), files[|files| - 1], now, isoDate)
  }

  /** One pass of handle's loop over the files. */
  function FileStep(p: (Tables, nat, nat), file: Option<Json>, now: int, isoDate: string -> Option<int>): (r: (Tables, nat, nat))
  {
    match file
    case None => p
    case Some(data) => Counted(p, LoadFile(p.0, data, now, isoDate))
  }

  /** The totals after a file: its counts go in only when it loaded. */
  function Counted(p: (Tables, nat, nat), loaded: (Tables, FileResult)): (r: (Tables, nat, nat))
    ensures r.0 == loaded.0 && p.1 <= r.1 && p.2 <= r.2
    ensures !loaded.1.Loaded? ==> r.1 == p.1 && r.2 == p.2
  {
    var res := loaded.1;
    if res.Loaded? then (loaded.0, p.1 + res.houses, p.2 + res.transactions) else (loaded.0, p.1, p.2)
  }

  lemma LoadFilesNext(t: Tables, files: seq<Option<Json>>, i: nat, now: int, isoDate: string -> Option<int>)
    requires i < |files|
    ensures LoadFiles(t, files[..i + 1], now, isoDate) == FileStep(LoadFiles(t, files[..i], now, isoDate), files[i], now, isoDate)
  {
    assert files[..i + 1][..i] == files[..i];
    assert files[..i + 1][i] == files[i];
  }

  /** Every file of the folder is valid JSON and loads. */
  predicate AllLoadable(files: seq<Option<Json>>)
  {
    forall i :: 0 <= i < |files| ==> files[i].Some? && Loadable(files[i].value)
  }

  /** What the files from t to r with totals (h, d) do to the store. */
  predicate FilesKeep(t: Tables, r: Tables, h: nat, d: nat, exact: bool)
  {
    && r.Valid() && Kept(t, r)
    && h <= |r.houses| - |t.houses| && d <= |r.transactions| - |t.transactions|
    && (exact ==> h == |r.houses| - |t.houses| && d == |r.transactions| - |t.transactions|)
  }

  /** The folder keeps the store consistent and keeps every row; the totals
      never exceed what was added (a file that fails after its houses were
      loaded adds them uncounted), and are exact when every file loads. */
  lemma {:induction false} LoadFilesEffect(t: Tables, files: seq<Option<Json>>, now: int, isoDate: string -> Option<int>)
    requires t.Valid()
    ensures var r := LoadFiles(t, files, now, isoDate); FilesKeep(t, r.0, r.1, r.2, AllLoadable(files))
    decreases |files|
  {
    if files != [] {
      var init := files[..|files| - 1];
      LoadFilesEffect(t, init, now, isoDate);
      var p := LoadFiles(t, init, now, isoDate);
      var last := files[|files| - 1];
      AllLoadableInit(files);
      FileStepKeeps(t, p, last, now, isoDate, AllLoadable(init), AllLoadable(files));
      assert LoadFiles(t, files, now, isoDate) == FileStep(p, last, now, isoDate);
    }
  }

  lemma AllLoadableInit(files: seq<Option<Json>>)
    requires files != []
    ensures AllLoadable(files) ==> AllLoadable(files[..|files| - 1]) && files[|files| - 1].Some? && Loadable(files[|files| - 1].value)
  {
    if AllLoadable(files) {
      var init := files[..|files| - 1];
      forall i | 0 <= i < |init| ensures init[i].Some? && Loadable(init[i].value) {
        assert init[i] == files[i];
      }
    }
  }

  lemma FileStepKeeps(t: Tables, p: (Tables, nat, nat), file: Option<Json>, now: int, isoDate: string -> Option<int>, before: bool, after: bool)
    requires FilesKeep(t, p.0, p.1, p.2, before)
    requires after ==> before && file.Some? && Loadable(file.value)
    ensures var r := FileStep(p, file, now, isoDate); FilesKeep(t, r.0, r.1, r.2, after)
  {
    if file.Some? {
      var data := file.value;
      LoadFileEffect(p.0, data, now, isoDate);
      LoadFileLoads(p.0, data, now, isoDate);
      var q, res := LoadFile(p.0, data, now, isoDate).0, LoadFile(p.0, data, now, isoDate).1;
      FilesStep(t, p.0, q, p.1, p.2, res, before, after);
    }
  }

  lemma FilesStep(t: Tables, p: Tables, q: Tables, h: nat, d: nat, res: FileResult, before: bool, after: bool)
    requires FilesKeep(t, p, h, d, before) && FileKeeps(p, q, res)
    requires after ==> before && res.Loaded?
    ensures res.Loaded? ==> FilesKeep(t, q, h + res.houses, d + res.transactions, after)
    ensures !res.Loaded? ==> FilesKeep(t, q, h, d, after)
  {
    KeptTransitive(t, p, q);
    KeysGrow(p.houses, q.houses);
    KeysGrow(p.transactions, q.transactions);
  }

  /** handle: nothing happens when the folder is missing (None); otherwise
      the optional clear, then every file in turn. The totals are what the
      final summary reports. */
  method Handle(db: Db, clear: bool, folder: Option<seq<Option<Json>>>, now: int, isoDate: string -> Option<int>)
    returns (totalHouses: nat, totalTransactions: nat)
    requires db.Valid()
    modifies db
    ensures db.Valid()
    ensures folder.None? ==> db.tables == old(db.tables) && totalHouses == 0 && totalTransactions == 0
    ensures folder.Some? ==>
      var start := if clear then WithoutHouses(old(db.tables).(transactions := map[]), old(db.tables.houses).Keys) else old(db.tables);
      (db.tables, totalHouses, totalTransactions) == LoadFiles(start, folder.value, now, isoDate)
  {
    if folder.None? {
      return 0, 0;
    }
    if clear {
      Clear(db);
    }
    totalHouses, totalTransactions := LoadFolder(db, folder.value, now, isoDate);
  }

  /** The loop over the files. */
  method LoadFolder(db: Db, files: seq<Option<Json>>, now: int, isoDate: string -> Option<int>)
    returns (totalHouses: nat, totalTransactions: nat)
    requires db.Valid()
    modifies db
    ensures db.Valid()
    ensures (db.tables, totalHouses, totalTransactions) == LoadFiles(old(db.tables), files, now, isoDate)
  {
    ghost var t := db.tables;
    totalHouses, totalTransactions := 0, 0;
    var i := 0;
    assert files[..0] == [];
    while i < |files|
      invariant 0 <= i <= |files| && db.Valid()
      invariant (db.tables, totalHouses, totalTransactions) == LoadFiles(t, files[..i], now, isoDate)
    {
      LoadFilesNext(t, files, i, now, isoDate);
      totalHouses, totalTransactions := LoadFileCounted(db, files[i], totalHouses, totalTransactions, now, isoDate);
      i := i + 1;
    }
    assert files[..i] == files;
  }

  /** One pass of the loop: the file's counts go into the totals when it
      loads. */
  method LoadFileCounted(db: Db, file: Option<Json>, h: nat, d: nat, now: int, isoDate: string -> Option<int>)
    returns (h': nat, d': nat)
    requires db.Valid()
    modifies db
    ensures db.Valid()
    ensures (db.tables, h', d') == FileStep((old(db.tables), h, d), file, now, isoDate)
  {
    h', d' := h, d;
    if file.Some? {
      ghost var t := db.tables;
      var res := LoadFileInto(db, file.value, now, isoDate);
      ghost var loaded := (db.tables, res);
      assert loaded == LoadFile(t, file.value, now, isoDate);
      if res.Loaded? {
        h', d' := h + res.houses, d + res.transactions;
      }
      assert Counted((t, h, d), loaded).1 == h' && Counted((t, h, d), loaded).2 == d';
      assert Counted((t, h, d), loaded).0 == db.tables;
    }
  }
}
