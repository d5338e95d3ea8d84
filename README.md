# Second-hand housing platform: a Dafny model of its core

The system is a Django REST back end with a Vue front end for browsing, analysing and
managing second-hand housing listings. This project models its core in Dafny and proves
properties of that model:

- **Listing pipeline.** A scraper turns the nodes of a listing page into listing records
  and exports them to a spreadsheet. An importer reads those spreadsheets into the
  database, and a management command loads JSON fixture files.
- **Database.** The store is one class over maps: districts, users, houses, images,
  transactions, favourites and price alerts. Its consistency invariant covers ids below a
  counter, foreign keys, unique columns and valid alert statuses, and every operation keeps it.
- **HTTP API.** House views and serializers, favourites and price alerts, the analysis
  classifiers, and the users app (register, login, list, update, delete, password, profile).
  Every response uses the shared envelope, the exception handler and the permission classes.
- **Periodic tasks.** A price-alert sweep, a market report and a clean-up of old data.
- **Front end.** The route guard, the display helpers and the house search store.

Code that mutates the database is modelled as methods on `Store.Db`, specified against
functions on the `Tables` value. Pure helpers are functions with lemmas. The front-end
store is a class with the three refs as fields.

Files:

| file | module | what it models |
|---|---|---|
| wrappers.dfy, text.dfy, numbers.dfy, seqs.dfy, cells.dfy | Wrappers, Text, Numbers, Seqs, Cells | Option/Result, Python string helpers, exact decimals, sequence folds, spreadsheet cells |
| store.dfy | Store | the ORM tables, their invariant, the cascade of deletes |
| common.dfy | Common | JSON values, the response envelope, the exception handler, the permissions |
| fang_scraper.dfy | FangScraper | apps/tasks/fang_scraper.py |
| excel_importer.dfy | ExcelImporter | apps/tasks/excel_importer.py |
| favorites.dfy | Favorites | apps/favorites (models, serializers, views) |
| tasks.dfy | Tasks | apps/tasks/tasks.py |
| house_serializers.dfy, house_views.dfy | HouseSerializers, HouseViews | apps/houses/serializers.py, apps/houses/views.py |
| analysis.dfy | Analysis | the classifiers of apps/analysis/views.py |
| load_fixtures.dfy | LoadFixtures | apps/houses/management/commands/load_fixtures.py |
| users.dfy | Users | apps/users/serializers.py, apps/users/views.py |
| router.dfy, front_utils.dfy, house_store.dfy | Router, FrontUtils, HouseStore | front/src/router/index.js, front/src/utils/index.js, front/src/stores/house.js |

Effects that cannot be modelled become parameters:

- **Randomness and the clock:** `Draw` records, phone draws, timestamps.
- **The URL resolver:** `join`.
- **Django's password validators:** `check`.
- **JWT issuing:** `tokens`.
- **File contents:** already-decoded JSON values.

## Model

| member | source | states |
|---|---|---|
| FangScraper.NormalizeUrl | apps/tasks/fang_scraper.py:301-308 | a missing or empty link is ""; a "//" link gets "https:"; an "http…" link is kept; any other link is resolved against the page address |
| FangScraper.NormalizeUrlIdempotent | apps/tasks/fang_scraper.py:301-308 | normalising a normalised link changes nothing, for a resolver whose results resolve to themselves |
| FangScraper.SplitRegion | apps/tasks/fang_scraper.py:294-298 | without a hyphen the region is the district and the sub-district is ""; otherwise the halves around the first hyphen, stripped |
| FangScraper.SplitRegionJoin | apps/tasks/fang_scraper.py:294-298 | splitting "district-sub" gives both halves back |
| FangScraper.NormalizeOrientation | apps/tasks/fang_scraper.py:311-312 | no "向" is left and the result is stripped; a value already in that form is unchanged |
| FangScraper.NormalizeOrientationIdempotent | apps/tasks/fang_scraper.py:311-312 | normalising twice is normalising once |
| FangScraper.RoomsToHouseType | apps/tasks/fang_scraper.py:318-321 | five rooms and more share "5室及以上"; one to four rooms give the matching house-type choice |
| FangScraper.ToHouseType | apps/tasks/fang_scraper.py:315-322 | "" exactly when no "(digits)室" occurs in the layout; otherwise the number of the leftmost "(digits)室" decides: five and more "5室及以上", else "N室"; `\d` is every Unicode decimal digit, read by value as int() reads it |
| FangScraper.ToHouseTypeOfRooms | apps/tasks/fang_scraper.py:315-321 | a layout starting with n rooms reads as the house type of n |
| FangScraper.ToHouseTypeOfDecimals | apps/tasks/fang_scraper.py:315-321 | a layout starting with a room count in any decimal digits, full-width ones included, reads as the house type of their value |
| FangScraper.FullWidthRooms | apps/tasks/fang_scraper.py:315-321 | "３室" reads as "3室" |
| FangScraper.FindTotalFloors | apps/tasks/fang_scraper.py:52 | the leftmost "共(digits)层" over Unicode decimal digits, or none when the pattern occurs nowhere |
| FangScraper.AreaOf | apps/tasks/fang_scraper.py:244-245 | the area is the number of the leftmost "(decimal digits or dots) ㎡" in the first part mentioning ㎡, read by float() with every Unicode decimal digit at its value, never negative; absent when no part mentions ㎡ or that part has no such number; a failure when float() cannot read the captured text |
| FangScraper.AreaOfLeading | apps/tasks/fang_scraper.py:244-245 | a part opening with a number directly followed by ㎡ has that number as its area |
| FangScraper.FullWidthArea | apps/tasks/fang_scraper.py:244-245 | "８９.５㎡" is an area of 89.5 |
| FangScraper.ExtractHouseInfo | apps/tasks/fang_scraper.py:236-255 | no tel_shop line gives empty fields; the floor text stops before "（"; the orientation is "" or ends in "向"; an area is never negative |
| FangScraper.ExtractHouseInfoFields | apps/tasks/fang_scraper.py:236-255 | layout is the first part; floor text and total floors come from the first part containing 层; orientation is the first part ending in 向; the area is AreaOf's, and the line fails exactly when AreaOf does |
| FangScraper.TotalFloorsOf | apps/tasks/fang_scraper.py:247-249 | the number of the leftmost "共(digits)层", digits being any Unicode decimal digits read by value; None exactly when it occurs nowhere |
| FangScraper.FullWidthFloors | apps/tasks/fang_scraper.py:247-249 | "共１８层" gives 18 total floors |
| FangScraper.FirstWith | apps/tasks/fang_scraper.py:244-253 | next() over a generator: the position of the first part that satisfies the test, None exactly when none does |
| FangScraper.FirstPart | apps/tasks/fang_scraper.py:247-253 | the first part that satisfies the test, or "" when none does |
| FangScraper.InfoParts | apps/tasks/fang_scraper.py:241 | the parts are non-empty, stripped and free of "\|" |
| FangScraper.ExtractMetadata | apps/tasks/fang_scraper.py:225-233 | a missing or undecodable attribute gives {}; only a non-object value gives no dictionary |
| FangScraper.MetaOr | apps/tasks/fang_scraper.py:164 | a missing or falsy value falls back; a truthy one is its non-empty str() |
| FangScraper.NonEmpty | apps/tasks/fang_scraper.py:160 | only non-empty strings survive, in order, and an all-non-empty list is unchanged |
| FangScraper.ParseNode | apps/tasks/fang_scraper.py:140-191 | NoTitle exactly without a title link; Raised exactly when the metadata is no object or a number cannot be read; otherwise the assembled record |
| FangScraper.Assemble | apps/tasks/fang_scraper.py:146-191 | each field of the record: source id, address, tags, description, region split, house type, status, decoration choice, city, data source, title |
| FangScraper.SourceIdFallback | apps/tasks/fang_scraper.py:164 | the title is the source id exactly when the metadata has no usable "houseid" |
| FangScraper.AddressShapes | apps/tasks/fang_scraper.py:160 | the address joins community and region with " / ", leaving out empty ones |
| FangScraper.Outcomes | apps/tasks/fang_scraper.py:130-136 | one outcome per node, in node order |
| FangScraper.Kept | apps/tasks/fang_scraper.py:133-134 | at most one listing per outcome |
| FangScraper.KeptAppend | apps/tasks/fang_scraper.py:130-136 | keeping distributes over concatenation, so node order is preserved |
| FangScraper.KeptAllParsed | apps/tasks/fang_scraper.py:130-136 | when every node parses, each contributes exactly its listing, in place |
| FangScraper.KeptDropsFailed | apps/tasks/fang_scraper.py:133-136 | a node without a title link, or one that raised, adds nothing |
| FangScraper.ParseListings | apps/tasks/fang_scraper.py:125-138 | the loop returns exactly the kept listings of the node outcomes |
| FangScraper.AsDict | apps/tasks/fang_scraper.py:93-96 | the row has exactly the dataclass's field names as keys, each holding its own field, with the tags joined by ", " |
| FangScraper.AsDictReadBack | apps/tasks/fang_scraper.py:93-96 | reading every column of the row back gives the listing again |
| FangScraper.DedupFirst | apps/tasks/fang_scraper.py:203 | drop_duplicates on source_id never adds rows |
| FangScraper.KeptPositions | apps/tasks/fang_scraper.py:203 | each kept row is the batch row at a recorded position, and the positions strictly increase, so the batch order is kept |
| FangScraper.DedupFirstIds | apps/tasks/fang_scraper.py:203 | the kept listings cover every source id once |
| FangScraper.DedupFirstKeepsFirst | apps/tasks/fang_scraper.py:203 | every kept listing is the first of the batch with its source id |
| FangScraper.DistinctIdsCount | apps/tasks/fang_scraper.py:203-211 | a duplicate-free batch has as many ids as rows |
| FangScraper.ExportToExcel | apps/tasks/fang_scraper.py:193-211 | an empty batch gives no path and 0; otherwise BASE_DIR/data/fang_top_<timestamp>.xlsx, and the count of distinct source ids, with the rows in first-occurrence order |
| FangScraper.DataPath | apps/tasks/fang_scraper.py:205-208 | the path starts with BASE_DIR and ends in "/data/" and the file name |
| FangScraper.Run | apps/tasks/fang_scraper.py:213-222 | the count is the number of distinct source ids parsed; the path is "" when nothing parsed, otherwise the workbook's path under BASE_DIR/data |
| ExcelImporter.ToDecimal | apps/tasks/excel_importer.py:327-336 | None, "" and "null" give 0; unreadable text gives 0; otherwise the value quantised to the wanted places, within 28 digits |
| ExcelImporter.ToDecimalOfNumber | apps/tasks/excel_importer.py:328-334 | a number cell comes back as its quantised value |
| ExcelImporter.ToDecimalStable | apps/tasks/excel_importer.py:328-334 | an already quantised value is imported unchanged |
| ExcelImporter.ToInt | apps/tasks/excel_importer.py:338-345 | empty markers give the default; numbers truncate toward zero; text that is no number gives the default; a present default is never lost |
| ExcelImporter.ToIntOfText | apps/tasks/excel_importer.py:339-343 | the decimal text of an integer reads back as that integer |
| ExcelImporter.KeepAsciiAlnum | apps/tasks/excel_importer.py:301 | the result holds only ASCII letters and digits, and is empty exactly when the name has none |
| ExcelImporter.Lower | apps/tasks/excel_importer.py:304 | lower-cases character by character, keeping the length |
| ExcelImporter.SanitizeUsername | apps/tasks/excel_importer.py:299-304 | "bj_" then 1 to 12 lower-case ASCII letters or digits; "bj_agent" when the name has none |
| ExcelImporter.UsernameBase | apps/tasks/excel_importer.py:301-304 | the name's ASCII letters and digits lower-cased, or "agent" when it has none |
| ExcelImporter.NormalizeHouseType | apps/tasks/excel_importer.py:306-319 | falsy gives "1室"; a truthy non-text value raises "'float' object has no attribute 'strip'"; the result is a house-type choice (or "0室") |
| ExcelImporter.HouseTypeOf | apps/tasks/excel_importer.py:310-319 | a choice is kept; no Unicode decimal digit gives "1室"; otherwise the first run of decimal digits, read by value, decides |
| ExcelImporter.HouseTypeOfRooms | apps/tasks/excel_importer.py:313-318 | five rooms or more give "5室及以上", one to four "N室", zero "0室" |
| ExcelImporter.HouseTypeOfDecimals | apps/tasks/excel_importer.py:313-318 | a room count in any decimal digits, full-width ones included, decides by its value |
| ExcelImporter.FullWidthHouseType | apps/tasks/excel_importer.py:313-318 | "３室" is "3室", not the "1室" fallback |
| ExcelImporter.HouseTypeUnspaced | apps/tasks/excel_importer.py:310-312 | every produced category is already stripped |
| ExcelImporter.ScrapedHouseTypeKept | apps/tasks/excel_importer.py:306-319 | a house type the scraper produced is imported unchanged |
| ExcelImporter.NormalizeOrientation | apps/tasks/excel_importer.py:321-325 | falsy gives ""; text loses every "向" and is stripped, by the scraper's own rule; a truthy non-text value raises "'float' object has no attribute 'replace'" |
| ExcelImporter.StrippedText | apps/tasks/excel_importer.py:171-176 | `(value or fallback).strip()[:n]`: at most n characters; a truthy non-text value raises the AttributeError for strip |
| ExcelImporter.StatusOf | apps/tasks/excel_importer.py:154 | always a House status; a valid status is kept |
| ExcelImporter.DecorationOf | apps/tasks/excel_importer.py:155-157 | always one of the three decorations; a known one is kept |
| ExcelImporter.TruthyTexts | apps/tasks/excel_importer.py:161-163 | defined exactly when every truthy part is text; keeps only non-empty parts, in order |
| ExcelImporter.FirstNonText | apps/tasks/excel_importer.py:161-163 | none exactly when every truthy part is text; otherwise the first truthy non-text part and the number of kept texts before it |
| ExcelImporter.MultipleHouses | apps/tasks/excel_importer.py:133 | the MultipleObjectsReturned text names the count below 21 and says "more than 20" from 21 on |
| ExcelImporter.SeveralCounted | apps/tasks/excel_importer.py:133 | two distinct matches make a count of at least two |
| ExcelImporter.JoinTruthy | apps/tasks/excel_importer.py:161-163 | the join succeeds exactly when every truthy part is text, and is then the kept texts joined by "\n"; otherwise the TypeError "sequence item K: expected str instance, float found" gives the first bad part's position K among the kept parts |
| ExcelImporter.DescriptionStartsWithProvenance | apps/tasks/excel_importer.py:160-163 | without a description of its own the text starts with the provenance line |
| ExcelImporter.HouseTextFields | apps/tasks/excel_importer.py:152-183 | the text columns in the order the builder reads them (house type, orientation, description join, title, address, floor), so the first failing one decides the error; on success the limits 200, 20 and 1000 and the stripped title |
| ExcelImporter.BuiltHouseShape | apps/tasks/excel_importer.py:145-188 | the house row built from a row, its district and agent: stripped title, column limits and choices, zero views, the given cover and clock; a non-text title raises |
| ExcelImporter.DistrictName | apps/tasks/excel_importer.py:191 | the text before the first "-", stripped, from district_name, region or "未知区域"; a truthy non-text district_name raises the AttributeError for split |
| ExcelImporter.DistrictNameDefault | apps/tasks/excel_importer.py:191 | a row without district and region lands in "未知区域" |
| ExcelImporter.DistrictOfScrapedRegion | apps/tasks/excel_importer.py:191 | a scraped "district-sub" region lands in its district |
| ExcelImporter.MediaRelative | apps/tasks/excel_importer.py:291-293 | the MEDIA_URL prefix and the slashes after it are removed; other paths unchanged |
| ExcelImporter.Patched | apps/tasks/excel_importer.py:200-208 | the city becomes 北京; an empty description takes the region; the name is kept |
| ExcelImporter.NamedDistrict | apps/tasks/excel_importer.py:196 | the id of the district with the name, None exactly when there is none |
| ExcelImporter.DistrictUpsert | apps/tasks/excel_importer.py:190-209 | the named district in 北京 with its id; other districts and every other table unchanged; a new district takes the next id |
| ExcelImporter.DistrictUpsertValid | apps/tasks/excel_importer.py:190-209 | the upsert keeps the store consistent |
| ExcelImporter.DistrictUpsertLinked | apps/tasks/excel_importer.py:190-209 | the upsert keeps every reference valid |
| ExcelImporter.DistrictUpsertUnique | apps/tasks/excel_importer.py:196 | district names stay unique |
| ExcelImporter.DistrictUpsertIdempotent | apps/tasks/excel_importer.py:190-209 | a second upsert of the same row finds the same district and changes nothing |
| ExcelImporter.GetOrCreateDistrict | apps/tasks/excel_importer.py:190-209 | fails exactly when the name cannot be read, leaving the store; otherwise the store becomes DistrictUpsert of it |
| ExcelImporter.PhoneOf | apps/tasks/excel_importer.py:265-267 | an eleven-digit number starting with one of the twelve prefixes |
| ExcelImporter.GenerateUniquePhone | apps/tasks/excel_importer.py:263-269 | the first drawn phone that no user has; None only when every draw is taken |
| ExcelImporter.NewAgent | apps/tasks/excel_importer.py:234-242 | a verified, active agent of 北京经纪联盟, not staff |
| ExcelImporter.CreateAgent | apps/tasks/excel_importer.py:232-242 | a taken username fails with MySQL's duplicate-entry error for users.username (the table is `users`), changing nothing; success adds exactly one agent with the next id and a fresh mobile number |
| ExcelImporter.DefaultAgent | apps/tasks/excel_importer.py:245-261 | the first agent by id is returned and nothing changes; with no agent, exactly one user is added: agent "beijing_agent", real name 北京经纪人; a failure changes nothing |
| ExcelImporter.NewUsername | apps/tasks/excel_importer.py:228-230 | the sanitised name, with the clock appended only when it is taken |
| ExcelImporter.AgentName | apps/tasks/excel_importer.py:212 | the stripped agent_name text, "" for a falsy cell; a truthy non-text cell raises the AttributeError for strip |
| ExcelImporter.AgentFound | apps/tasks/excel_importer.py:212-226 | an agent found without changing anything: the first agent for a blank name, otherwise by real name, then by a username whose real name is set |
| ExcelImporter.AgentFoundOutcome | apps/tasks/excel_importer.py:211-226 | when such an agent exists, _get_or_create_agent returns it and changes nothing |
| ExcelImporter.AgentOutcomeFound | apps/tasks/excel_importer.py:211-243 | after a successful call its agent is found by a later search |
| ExcelImporter.AgentOutcomeRepeat | apps/tasks/excel_importer.py:211-243 | a second call for the same row returns the same agent and changes nothing: no second user and no overwritten real name |
| ExcelImporter.GetOrCreateAgent | apps/tasks/excel_importer.py:211-243 | only the users and the id counter change; the new state and reply are AgentOutcome: a non-text name fails, a blank one is the default agent, otherwise the first agent by real name, then by username with an empty real name filled in, else a new agent with that real name |
| ExcelImporter.NamedAgent | apps/tasks/excel_importer.py:216-243 | for a non-blank name: the first agent by real name with no change, else the first by username with an empty real name filled in, else a new agent with that real name, or no change on failure |
| ExcelImporter.HouseLookupComplete | apps/tasks/excel_importer.py:124-134 | the update_or_create lookup by title, district and address reports several matches exactly when two distinct houses match; a single match is the only one; no match means none matches |
| ExcelImporter.UpsertHouse | apps/tasks/excel_importer.py:124-134 | fails exactly when several houses match or a numeric column cannot hold the house's value, leaving the store as it was; several matches come first and raise "get() returned more than one House -- it returned N!" with the count N of at least 2 (or "more than 20"); otherwise the save raises MySQL's out-of-range error naming the first column, in column order, that cannot hold its value; one match is overwritten with the row; none adds the house with the next id and reports it created |
| ExcelImporter.PlaceHouse | apps/tasks/excel_importer.py:134-141 | fails exactly when several houses share the lookup or a numeric column cannot hold the house's value, with the same two errors and no change; otherwise the house is upserted and its image ensured |
| ExcelImporter.MillionSquareMetresRow | apps/tasks/excel_importer.py:148 | a row whose area_sqm is 1000000 and whose prices fit builds a house whose save names the area column, so the row is refused |
| ExcelImporter.PlacedFrom | apps/tasks/excel_importer.py:134-141 | the upsert followed by the image step places the house |
| ExcelImporter.PlacedAgain | apps/tasks/excel_importer.py:134-141 | placing a house already in place reports it updated under the same id and changes nothing |
| ExcelImporter.ImportParties | apps/tasks/excel_importer.py:120-121 | the district and the agent are placed, changing only districts, users and the counter; when both already exist nothing changes |
| ExcelImporter.PartiesFrom | apps/tasks/excel_importer.py:120-121 | the district upsert and a successful agent lookup together place both parties |
| ExcelImporter.PartiesAgain | apps/tasks/excel_importer.py:120-121 | when both parties exist, placing them changes nothing and returns the existing agent |
| ExcelImporter.PlaceRowHouse | apps/tasks/excel_importer.py:123-141 | with the parties placed, a failure changes nothing and success is RowImported; a row already in place changes nothing |
| ExcelImporter.RowImportedFrom | apps/tasks/excel_importer.py:119-143 | placing the parties and then the house built from them imports the row |
| ExcelImporter.SettledAgain | apps/tasks/excel_importer.py:119-143 | importing a row already in place reports it updated under the same id and changes nothing |
| ExcelImporter.NotSettled | apps/tasks/excel_importer.py:119-143 | a row whose district, agent or house cannot be made was not in place before |
| ExcelImporter.EnsureHouseImage | apps/tasks/excel_importer.py:287-297 | afterwards the house has an image whose path is the cover without "/media/"; one already there leaves the store unchanged; otherwise exactly one image, order 0, is added |
| ExcelImporter.ImportRowSteps | apps/tasks/excel_importer.py:119-143 | success is RowImported: the house built from the row sits in its district with its agent and cover image, only that house changes, created exactly for a new id, and an update keeps the lookup; a row already in place is reported updated with nothing changed |
| ExcelImporter.ImportRow | apps/tasks/excel_importer.py:118-143 | atomic: a failure leaves the store as it was; success is RowImported; a row already imported is reported updated, under the same house, with the store unchanged |
| ExcelImporter.ImportRowTwice | apps/tasks/excel_importer.py:118-143 | importing the same row twice, with the same random draws and clock both times: when the first import succeeds, the second reports the house updated and leaves the store as the first left it |
| ExcelImporter.SettledImported | apps/tasks/excel_importer.py:118-143 | a row in place is an imported house: in its district, with its agent and its cover image |
| ExcelImporter.ProcessRow | apps/tasks/excel_importer.py:100-113 | a row without a title counts skipped and changes nothing; otherwise created grows for a new house, updated for an existing one, and errors with one message for a failure that changes nothing; a row already imported counts updated |
| ExcelImporter.ImportRows | apps/tasks/excel_importer.py:100-113 | the four counters add up to the number of rows; skipped counts the untitled rows; one message per error |
| ExcelImporter.ProcessFile | apps/tasks/excel_importer.py:86-116 | an unreadable file counts one error "读取失败: …" and is not archived; a readable one is archived with the row counts |
| ExcelImporter.Run | apps/tasks/excel_importer.py:60-84 | a missing directory gives the empty summary; one entry per file in order; the totals are the sums of the counters |
| Favorites.CheckedAlert | apps/favorites/models.py:62-72 | fires exactly when the alert is active and the price is at most the target; when it does not fire the alert is unchanged |
| Favorites.AlertLifecycle | apps/favorites/models.py:35-72 | a trigger sets status "triggered" and triggered_at and nothing else; the status stays one of the three choices; a second check never fires again |
| Favorites.CheckAndTrigger | apps/favorites/models.py:62-72 | the stored alert becomes CheckedAlert of itself at its house's price; no trigger leaves the store unchanged |
| Favorites.FavoritesOf | apps/favorites/views.py:24-25 | exactly the favourites of the requesting user |
| Favorites.AlertsOf | apps/favorites/views.py:97-98 | exactly the alerts of the requesting user |
| Favorites.PairFound | apps/favorites/views.py:59 | the lookup finds a favourite exactly when the (user, house) pair is favourited |
| Favorites.PairsAdded | apps/favorites/views.py:65 | inserting a favourite adds its pair and nothing else |
| Favorites.PairsRemoved | apps/favorites/models.py:24 | deleting a favourite removes its pair and no other |
| Favorites.ToggledPairs | apps/favorites/views.py:59-69 | toggling flips the membership of (user, house) and of no other pair |
| Favorites.ToggledValid | apps/favorites/models.py:24 | toggling keeps the store consistent, at most one favourite per pair |
| Favorites.ToggleTwice | apps/favorites/views.py:59-69 | two toggles restore the favourited pairs |
| Favorites.Toggle | apps/favorites/views.py:47-69 | anonymous is refused; no house id gives "缺少房源ID" with no change; an unknown house is 404; otherwise the store becomes Toggled and the reply reports the new membership |
| Favorites.CheckFavorite | apps/favorites/views.py:71-86 | "缺少房源ID" without an id; otherwise is_favorited exactly when the pair is favourited |
| Favorites.CheckAfterToggle | apps/favorites/views.py:59-86 | check after a toggle reports the new membership; after two toggles the original one |
| Favorites.HouseIdField | apps/favorites/serializers.py:14-18 | an existing house id is accepted; a missing one is "required"; a boolean or a value that is no id is refused with "类型不正确" naming its Python type |
| Favorites.NoteField | apps/favorites/models.py:18 | an absent note is ""; a string is stored trimmed, as CharField does |
| Favorites.NoteTrimmed | apps/favorites/models.py:18 | an accepted note is already trimmed, so sending it back stores the same text |
| Favorites.Failures | apps/favorites/serializers.py:9-31 | the errors dict is empty exactly when every field passed, one message per failed field |
| Favorites.FavoriteFromRequest | apps/favorites/serializers.py:25-35 | accepted exactly when the house id is valid and the pair is not yet favourited; the new row belongs to the requesting user |
| Favorites.CreateFavorite | apps/favorites/views.py:27-36 | a rejected body gives "收藏失败" with the errors and no change; an accepted one inserts the favourite, "收藏成功" |
| Favorites.PrecisionError | apps/favorites/models.py:45-46 | more than two decimal places, more than ten digits or more than eight whole digits is refused |
| Favorites.TargetPriceValue | apps/favorites/serializers.py:55-58 | an accepted target is positive and has two places |
| Favorites.TargetPriceField | apps/favorites/serializers.py:43-58 | a missing target is "required"; an accepted one is positive with two places |
| Favorites.TargetPriceRule | apps/favorites/serializers.py:55-58 | a well-formed amount is accepted exactly when positive, with its value kept; otherwise "目标价格必须大于0" |
| Favorites.AlertFromRequest | apps/favorites/serializers.py:60-63 | accepted exactly when both fields are; the alert belongs to the user, is active and untriggered, and its current price is the house's |
| Favorites.AlertReadOnlyFields | apps/favorites/serializers.py:53 | id, current_price, status, triggered_at and created_at in the body change nothing |
| Favorites.CreateAlert | apps/favorites/views.py:100-109 | a rejected body gives "创建失败" with the errors and no change; an accepted one inserts the alert, "价格提醒创建成功" |
| Favorites.AlertJson | apps/favorites/serializers.py:51-52 | the five alert fields of the reply; target_price and current_price go out as decimal text with two places, as DRF renders a DecimalField |
| Favorites.Cancel | apps/favorites/views.py:120-129 | an alert of the user becomes "cancelled" and nothing else changes; another user's alert is 404 |
| Favorites.RefreshAndTrigger | apps/favorites/views.py:182-186 | the alert's current price becomes its house's price, then CheckedAlert applies |
| Favorites.CheckHouseAlert | apps/favorites/views.py:161-195 | no id gives "缺少房源ID"; no active alert of the user on the house gives has_alert false and no change; otherwise the newest one is refreshed and checked and the reply reports it |
| Tasks.Swept | apps/tasks/tasks.py:28-32 | the alert's current price becomes its house's; it turns "triggered" at `now` exactly when it fires; nothing else changes |
| Tasks.SweptFrom | apps/tasks/tasks.py:23-33 | the sweep keeps the set of alerts |
| Tasks.SweptFromAt | apps/tasks/tasks.py:23-33 | each active alert at or above the start is swept, every other alert is unchanged |
| Tasks.SweptBelow | apps/tasks/tasks.py:23-33 | alerts below the start are not yet touched |
| Tasks.FiresStep | apps/tasks/tasks.py:32-33 | the counter grows by one exactly for an alert that fires |
| Tasks.SweepOne | apps/tasks/tasks.py:26-33 | one loop step: the store advances by one alert, it fires exactly when that alert is active and fires, and the running count becomes the count of firing alerts from i on |
| Tasks.SweepAll | apps/tasks/tasks.py:23-33 | after the loop every alert is swept and the count is the number that fired |
| Tasks.CheckPriceAlerts | apps/tasks/tasks.py:13-38 | only the alerts change, each active one refreshed and checked; the count and "检查完成, 触发N个提醒" report how many triggered |
| Tasks.SweepTriggers | apps/tasks/tasks.py:23-33 | the counted alerts are exactly those moved to "triggered"; inactive alerts are untouched |
| Tasks.ReportSpan | apps/tasks/tasks.py:55-63 | 30 days "月度", 90 "季度", anything else 365 "年度" |
| Tasks.PeriodsAdjacent | apps/tasks/tasks.py:67-95 | the two periods are disjoint and together cover the days from the previous start to today |
| Tasks.ReportTitle | apps/tasks/tasks.py:72-79 | the district's name or 全市, the period word, then 市场报告 |
| Tasks.ChangeRate | apps/tasks/tasks.py:99-105 | the relative change in percent, 0 when the previous average is not positive |
| Tasks.ChangeRateSign | apps/tasks/tasks.py:102-112 | positive exactly when the average rose, negative exactly when it fell, never below -100 |
| Tasks.TwoPlacesReadBack | apps/tasks/tasks.py:108-109 | the text reads back as the value rounded to two places |
| Tasks.SummaryAsWritten | apps/tasks/tasks.py:108-112 | there is a summary exactly when both averages exist |
| Tasks.Summary | apps/tasks/tasks.py:108-112 | counts as given, 上涨 exactly when the rate is positive, a missing average shown as 0.00, and the same text as written whenever that one exists |
| Tasks.NoListingsNoSummary | apps/tasks/tasks.py:82-112 | with no house on sale the written summary fails and the corrected one reads 0.00 |
| Tasks.MarketReport | apps/tasks/tasks.py:41-130 | fails exactly for an unknown district id, a missing average (the summary's format raises, as written), a report type wider than its VARCHAR(20) column, an average that DECIMAL(10, 2) cannot hold, or a change rate that DECIMAL(5, 2) cannot hold (strictly within ±999.995), each with its own error, in that order; a falsy id means the whole city; the stored row has the given id, the counts of the houses on sale and the deals of the period in scope, both averages rounded to two places, the rate, the written summary and the period's two days; the task returns "报告生成完成: <id>" |
| Tasks.LargeRiseRefused | apps/analysis/models.py:36-37 | a rise of the average deal price from 50 to 600 (1100%) is refused with MySQL's out-of-range error for price_change_rate |
| Tasks.AverageStoredRounded | apps/tasks/tasks.py:120-121 | an average of 266.666667, as AVG gives it over DECIMAL(10, 2) prices, is stored as 266.67 in both average columns |
| Tasks.OldSold | apps/tasks/tasks.py:144-147 | exactly the sold houses last updated before the cut-off day |
| Tasks.OldDeals | apps/tasks/tasks.py:152-154 | exactly the transactions dated before the cut-off day |
| Tasks.CleanupOldData | apps/tasks/tasks.py:133-159 | old sold houses are removed with what cascades from them, then the old transactions left; the counts and the message report both |
| Tasks.CleanupKeeps | apps/tasks/tasks.py:141-156 | every house not selected stays unchanged, and every recent transaction of a kept house stays |
| HouseSerializers.HousesOf | apps/houses/serializers.py:19-20 | exactly the houses of the district |
| HouseSerializers.AvailableOf | apps/houses/serializers.py:19-20 | a subset of the district's houses |
| HouseSerializers.HouseCountAvailableOnly | apps/houses/serializers.py:19-20 | house_count is at most the district's houses, zero when none is available, and unchanged by adding a house that is not available |
| HouseSerializers.FileUrl | apps/houses/serializers.py:43 | a file's URL is the stored name under MEDIA_URL |
| HouseSerializers.Served | apps/houses/serializers.py:35-43 | absolute when there is a request, otherwise the relative URL |
| HouseSerializers.ImageUrl | apps/houses/serializers.py:31-44 | null exactly for an image without a file, else its URL |
| HouseSerializers.ImageUrlRoundTrip | apps/houses/serializers.py:31-44 | the URL shown for a stored path normalises back to that path |
| HouseSerializers.FirstImage | apps/houses/serializers.py:71 | the image of the house with the smallest order, the oldest among equals; None exactly when it has none |
| HouseSerializers.CoverFallback | apps/houses/serializers.py:60-133 | the cover is null exactly when there is neither a cover nor an image; a set cover wins; otherwise the first image |
| HouseSerializers.CoverUnchanged | apps/houses/serializers.py:106-133 | the cover depends only on the house's cover_image and its images, so saving another field leaves it |
| HouseSerializers.ValidatePrices | apps/houses/serializers.py:147-153 | the only complaint is "总价与单价面积不匹配" |
| HouseSerializers.PriceRule | apps/houses/serializers.py:147-153 | nothing is checked unless all three fields are present; then refused exactly when unit price × area / 10000 is more than 1 away from the price |
| HouseSerializers.PriceMismatchEnvelope | apps/houses/serializers.py:152 | the refusal reaches the client as a 400 carrying the message |
| HouseViews.WriteRefusal | apps/houses/views.py:96-99 | no refusal exactly when IsAgentOrAdmin lets the writer through |
| HouseViews.GuardLayers | apps/houses/views.py:152-175 | a refused writer gets 401 when anonymous and 403 otherwise; an agent that does not own the house passes the viewset check but not the view's own; the admin role passes both |
| HouseViews.Invalid | apps/houses/views.py:162 | a validation error is a 400 |
| HouseViews.DistrictDestroy | apps/houses/views.py:66-73 | a district with houses is refused with their number and kept; an empty one is removed with code 204; an unknown one is 404 |
| HouseViews.DistrictWithSoldHouse | apps/houses/views.py:70-71 | a district whose only house is sold shows house_count 0 and still cannot be deleted |
| HouseViews.Bound | apps/houses/views.py:105-118 | an absent or empty parameter sets no bound; a decimal sets it; other text makes the query fail |
| HouseViews.QueryBounds | apps/houses/views.py:101-120 | the four bounds, read in order; fails exactly when one of them fails |
| HouseViews.BoundsInclusive | apps/houses/views.py:107-118 | the bounds are inclusive; no parameters means no filter; an empty parameter is ignored |
| HouseViews.Retrieve | apps/houses/views.py:144-150 | an unknown house is 404; otherwise its views grow by one and nothing else changes; the reply carries the id, the cover as the detail serializer computes it and the new views |
| HouseViews.FieldCheck | apps/houses/serializers.py:136-145 | a field fails exactly when it is required and missing from a full update, or given and invalid |
| HouseViews.Validated | apps/houses/serializers.py:136-153 | accepted data has a known district, a valid status, a consistent price and, for a full update, the required fields; a rejection carries a message |
| HouseViews.Patched | apps/houses/views.py:159-163 | the given fields replaced, agent and views kept, updated_at set |
| HouseViews.Update | apps/houses/views.py:152-164 | a writer that neither owns the house nor is admin gets 403 "您没有权限编辑该房源" with no change; an invalid body is a 400 with no change; otherwise only the house is patched, "更新成功" |
| HouseViews.PatchEffect | apps/houses/views.py:159-163 | an update keeps agent, views and every other row; an empty PATCH changes only updated_at; a stored status is a choice |
| HouseViews.FullUpdateNeedsTitle | apps/houses/serializers.py:140-145 | a full update without a title is refused with the title's error first |
| HouseViews.Destroy | apps/houses/views.py:166-175 | a non-owner non-admin gets 403 "您没有权限删除该房源" with no change; otherwise the house and every row referring to it go, code 204 |
| HouseViews.IdItems | apps/houses/views.py:200 | the ids of the list, null items dropped; a non-integer item fails |
| HouseViews.IdValues | apps/houses/views.py:200 | a list gives its items |
| HouseViews.Matched | apps/houses/views.py:200 | exactly the houses whose id is listed |
| HouseViews.StatusError | apps/houses/views.py:195-197 | no complaint exactly when the status is one of the allowed strings |
| HouseViews.StatusSet | apps/houses/views.py:200 | only the selected houses change, and only their status |
| HouseViews.HousesRewrittenValid | apps/houses/views.py:200 | rewriting houses in place without changing keys or references keeps the store consistent |
| HouseViews.SetStatuses | apps/houses/views.py:200 | the store becomes StatusSet of the selection |
| HouseViews.BatchUpdateStatus | apps/houses/views.py:177-205 | anonymous 401; non-admin 403; missing ids or status, a bad status or bad ids leave the store unchanged; otherwise the selected statuses are set and the count reported |
| HouseViews.BatchUpdateEffect | apps/houses/views.py:200-204 | the count is at most the houses; unlisted houses are untouched; listed ones change only their status |
| HouseViews.BatchStatusesAsWritten | apps/houses/views.py:195-197 | "rented" and "pending" are accepted though not House choices, and "reserved" is refused |
| HouseViews.CorrectedBatchStatus | apps/houses/models.py:30-34 | checked against the model's choices, every status stays a choice |
| HouseViews.BatchDelete | apps/houses/views.py:207-229 | anonymous 401; non-admin 403; no ids or bad ids leave the store unchanged; otherwise the selected houses and everything referring to them go, and the count is the rows deleted |
| HouseViews.BatchDeleteCountsCascade | apps/houses/views.py:224-228 | deleting one house with one image reports 2 |
| HouseViews.HousesDeletedCount | apps/houses/views.py:224 | the houses removed are the listed houses that existed, at most the reported count |
| HouseViews.DifferenceCard | apps/houses/views.py:224 | removing a subset removes exactly its size |
| HouseViews.MapIds | apps/houses/views.py:274-279 | only available houses inside the bounds that have both coordinates |
| HouseViews.MapIdsExactly | apps/houses/views.py:274-283 | exactly those houses, newest first |
| HouseViews.Features | apps/houses/views.py:282-311 | one feature per shown house, in order |
| HouseViews.FeaturesListed | apps/houses/views.py:282-311 | every listed house has its feature among the features |
| HouseViews.MapData | apps/houses/views.py:268-318 | a bad bound fails through the exception handler; otherwise a FeatureCollection of the shown houses, each with the cover the intended cover lookup gives |
| HouseViews.MapDataAsWritten | apps/houses/views.py:285 | as written, a bad bound fails as in MapData; a map without houses is an empty FeatureCollection; any shown house gives a 500 for the missing get_cover_image_url |
| HouseViews.MapDataAsWrittenFails | apps/houses/views.py:282-285 | for every store with one available house with coordinates in the bounds, the map as written answers 500 while MapData lists that house's feature |
| HouseViews.MapCoverIsSerializerCover | apps/houses/views.py:284-290 | the corrected cover entry equals the house serializer's absolute cover URL: the cover image, else the first image, else null |
| HouseViews.FeatureLoop | apps/houses/views.py:282-311 | the loop builds exactly Features of the shown houses |
| HouseViews.MapDistrictName | apps/houses/views.py:307-308 | the district id and name always come from the house's district |
| HouseViews.OrderField | apps/houses/serializers.py:23-29 | an absent or empty order is 0; an integer is kept; text is read as an integer after a fraction of zeros is dropped, and fails exactly when that reading fails; null, lists and objects fail |
| HouseViews.StripZeroFraction | apps/houses/serializers.py:23-29 | a point followed only by zeros and then white space is dropped with what follows; text without one is unchanged |
| HouseViews.OrderZeroFraction | apps/houses/serializers.py:23-29 | an order written n.000 reads as n |
| HouseViews.ImageFromRequest | apps/houses/serializers.py:23-29 | accepted exactly when the house key and the file are valid; the image belongs to that house |
| HouseViews.ImageCreate | apps/houses/views.py:372-401 | no file gives "请选择要上传的图片文件"; an invalid body is a 400; a non-owner non-admin gets 403 "您没有权限为该房源上传图片"; otherwise the image is added, code 201 |
| HouseViews.UnknownHouseIs400 | apps/houses/views.py:388-397 | an upload for a missing house is refused by the serializer with 400, so the 404 branch is unreachable |
| Analysis.ShareBounds | apps/analysis/views.py:205 | a share is 0 without a total, between 0 and 100 for a count within the total, and 100 for the whole; the reported percentage, rounded to two places, keeps all three and lies within 0.005 of the share |
| Analysis.BucketOf | apps/analysis/views.py:184-191 | a non-negative price falls in one of the six ranges |
| Analysis.BucketsPartition | apps/analysis/views.py:184-200 | the ranges are disjoint and cover the non-negative prices; a negative price is in none |
| Analysis.QuerysetPrices | apps/analysis/views.py:179-181 | the prices of the available houses, of the district when one is given |
| Analysis.CountIn | apps/analysis/views.py:197-200 | a range's count is at most the number of prices |
| Analysis.HitsOnce | apps/analysis/views.py:184-191 | a non-negative price is in exactly one range |
| Analysis.TallyStep | apps/analysis/views.py:196-200 | adding a price adds its hits to the tally |
| Analysis.TallyCoversNonNegative | apps/analysis/views.py:184-200 | the six counts add up to the number of non-negative prices |
| Analysis.PriceRangeDistribution | apps/analysis/views.py:171-211 | one row per range in order, with its label, its count and its share of the total |
| Analysis.DistributionAccountsForAll | apps/analysis/views.py:194-206 | with no negative price the counts add up to total_count |
| Analysis.HeatIndex | apps/analysis/views.py:313 | the index is non-negative, and positive for a district with houses on sale |
| Analysis.Heats | apps/analysis/views.py:291-313 | one index per district |
| Analysis.MaxHeat | apps/analysis/views.py:289-316 | the largest index, or 0: at least every index and attained unless 0 |
| Analysis.HeatRows | apps/analysis/views.py:291-325 | the first loop yields every district's row and the largest unrounded index |
| Analysis.Normalise | apps/analysis/views.py:327-333 | every row gets its percentage, 0 when the maximum is 0 |
| Analysis.HeatMap | apps/analysis/views.py:276-338 | one row per district with its index and percentage |
| Analysis.NoHeatNoPercentage | apps/analysis/views.py:331-333 | without any heat every percentage is 0 |
| Analysis.NormalisedHeatBounded | apps/analysis/views.py:327-330 | with the unrounded index every percentage lies in [0, 100] and the hottest district gets 100 |
| Analysis.NormalisedBounded | apps/analysis/views.py:330 | one percentage lies in [0, 100] |
| Rounding.RoundBounded | apps/analysis/views.py:330 | rounding to one or two places keeps a value in [0, 100], and 100 stays 100 |
| Rounding.RoundClose | apps/analysis/views.py:330 | rounding to one or two places moves a value by at most half a unit of the last kept place |
| Rounding.RoundMono | apps/analysis/views.py:330 | rounding never reverses an order |
| Rounding.RoundSign | apps/analysis/views.py:450-455 | a value rounded to two places is positive only when the value is, and a positive value does not round below 0 |
| Analysis.HeatPercentageOvershoots | apps/analysis/views.py:321-330 | one district with one house at 302 shows 100.1 |
| Analysis.AgentGuard | apps/analysis/views.py:362-363 | passes exactly the roles agent and admin; others get 403 "此功能仅限经纪人使用" |
| Analysis.AgentGuardIgnoresStaff | apps/analysis/views.py:362-363 | a staff member with role "user" passes IsAgentOrAdmin but not this guard |
| Analysis.ToFloat | apps/analysis/views.py:375-378 | integers convert; text converts exactly when it is a number; other values are type errors |
| Analysis.FirstFailure | apps/analysis/views.py:374-380 | None exactly when every argument converts |
| Analysis.AssessmentsMonotone | apps/analysis/views.py:410-443 | a cheaper house never rates worse and a higher net ROI never rates worse; the band edges fall as written |
| Analysis.ExactRoi | apps/analysis/views.py:383-397 | income, cost and net as twelve months; the ROIs as percentages of the price in yuan; a payback exactly for a positive net income, with payback times net income equal to the price in yuan |
| Analysis.RoiFigures | apps/analysis/views.py:449-456 | the reported figures are the exact ones rounded to two places, the payback to one place; each lies within half a unit of the exact figure; the payback is reported exactly when the exact net income is positive; the verdict is taken on the exact net ROI |
| Analysis.VerdictBand | apps/analysis/views.py:431-443 | the verdict on the exact net ROI lies between the verdicts for the reported net ROI minus and plus 0.005 |
| Analysis.RoiHouse | apps/analysis/views.py:400-429 | no house id leaves the report; an unknown house is "unknown"; a known one is rated against its district's average |
| Analysis.RoiArgs | apps/analysis/views.py:366-369 | the four arguments, fee and other costs 0 when absent |
| Analysis.Roi | apps/analysis/views.py:341-469 | the role guard, "缺少必要参数：购入价格和月租金", "参数必须是数字", then the figures and the rating; in a report, a positive net income comes with a payback, the annual income is the rounded twelve months of rent, and without a house the verdict lies in the band of the reported net ROI |
| Analysis.RoiZeroPriceText | apps/analysis/views.py:371-391 | a purchase price "0" given as text passes the check and divides by zero |
| Analysis.SupplyDemandRatio | apps/analysis/views.py:514 | houses for sale per deal, or the supply itself without deals |
| Analysis.MarketHeatBounds | apps/analysis/views.py:529-539 | between 20 and 100, at least its base, 100 exactly for a ratio below 1 with ten deals or more, never lowered by more deals |
| Analysis.ActivityThresholds | apps/analysis/views.py:517-525 | high above 20 deals, medium above 10, else low |
| Analysis.ForecastContract | apps/analysis/views.py:472-615 | role refusal; the ratio reported rounded and the heat and activity from the counts; a trend only with both averages, decided on the exact change and reported rounded; within 3% it is stable and forecasts the current price; beyond it the reported change and forecast move the same way, at least 3% and 2.4% |
| Analysis.ProjectionRounded | apps/analysis/views.py:549-568 | the trend follows the exact change; after rounding, an upward move reports at least 3% and forecasts at least 2.4%, a downward one the mirror, and a stable one forecasts 0 and the current price |
| Analysis.TrendRounded | apps/analysis/views.py:553-564 | the bounds of each trend survive rounding to two places |
| Analysis.SuggestionCases | apps/analysis/views.py:585-596 | the suggestion text for each combination of heat and direction |
| LoadFixtures.Fields | apps/houses/management/commands/load_fixtures.py:69 | an object's fields, a later key winning; None for anything else |
| LoadFixtures.StoredText | apps/houses/management/commands/load_fixtures.py:130-147 | a string is stored as itself; null fails the NOT NULL column |
| LoadFixtures.FloatDec | apps/houses/management/commands/load_fixtures.py:134-144 | integers and numeric text convert; null, lists and objects make float() raise |
| LoadFixtures.DistrictSourceOf | apps/houses/management/commands/load_fixtures.py:102-111 | a truthy district_id must name a district; otherwise the entry's name, else the entry is skipped |
| LoadFixtures.DistrictNamed | apps/houses/management/commands/load_fixtures.py:108 | the district of that name, created in 上海 only when there is none |
| LoadFixtures.AgentFor | apps/houses/management/commands/load_fixtures.py:114-122 | the user of the named username, else the first agent; None only when there is no agent |
| LoadFixtures.HouseColumns | apps/houses/management/commands/load_fixtures.py:125-148 | the columns of the new house, carrying the entry's address, every numeric column holding its value; an entry without an address cannot be created |
| LoadFixtures.NewHouse | apps/houses/management/commands/load_fixtures.py:130-148 | the new house is in the given district, of the given agent, with the entry's address; its numeric columns fit exactly when the entry's do |
| LoadFixtures.MillionSquareMetresEntry | apps/houses/management/commands/load_fixtures.py:130-154 | an entry with area 1000000 and no prices makes no columns, since DECIMAL(8, 2) cannot hold it, and the entry is skipped with nothing added |
| LoadFixtures.ReadEntry | apps/houses/management/commands/load_fixtures.py:99 | an entry that is not an object is recognised as such |
| LoadFixtures.WithHouseValid | apps/houses/management/commands/load_fixtures.py:130-148 | inserting a house of a known district and agent keeps the store consistent |
| LoadFixtures.PlaceHouseValid | apps/houses/management/commands/load_fixtures.py:113-154 | placing a house keeps the store consistent, only adds one house, and a skip changes nothing |
| LoadFixtures.PlaceHouseAdded | apps/houses/management/commands/load_fixtures.py:124-148 | a created house carries the entry's address, which no house had |
| LoadFixtures.DistrictNamedEffect | apps/houses/management/commands/load_fixtures.py:108 | get_or_create keeps the store consistent and only adds a district |
| LoadFixtures.HouseStepValid | apps/houses/management/commands/load_fixtures.py:99-154 | one entry keeps the store consistent; only districts and houses grow; a skip adds no house; an abort changes nothing |
| LoadFixtures.HouseStepAdded | apps/houses/management/commands/load_fixtures.py:124-150 | a created house sits under the newest id with a fresh address, a known district and an existing agent |
| LoadFixtures.PlaceHouseTaken | apps/houses/management/commands/load_fixtures.py:125-127 | an entry whose address is in use is skipped |
| LoadFixtures.DistrictNamedExisting | apps/houses/management/commands/load_fixtures.py:108 | get_or_create of an existing name changes nothing |
| LoadFixtures.StepTaken | apps/houses/management/commands/load_fixtures.py:124-127 | an entry with a known district and an address in use changes nothing |
| LoadFixtures.ReloadSkips | apps/houses/management/commands/load_fixtures.py:124-127 | loading an entry again right after it was created is skipped |
| LoadFixtures.PlaceHouseIn | apps/houses/management/commands/load_fixtures.py:113-154 | the store and outcome are PlaceHouse's |
| LoadFixtures.LoadHouse | apps/houses/management/commands/load_fixtures.py:99-154 | one pass of the loop on the store |
| LoadFixtures.LoadAllEffect | apps/houses/management/commands/load_fixtures.py:95-156 | the loader keeps the store consistent, only adds districts and houses, gives every new house a distinct address, and counts exactly the houses added |
| LoadFixtures.HouseStepAborts | apps/houses/management/commands/load_fixtures.py:152-153 | a pass aborts exactly on an entry that is not an object |
| LoadFixtures.LoadAllFails | apps/houses/management/commands/load_fixtures.py:95-156 | load_houses fails exactly when some entry is not an object |
| LoadFixtures.LoadAllStops | apps/houses/management/commands/load_fixtures.py:152-153 | entries after an aborting one are not looked at |
| LoadFixtures.LoadHouses | apps/houses/management/commands/load_fixtures.py:95-156 | the loop computes LoadAll of the entries |
| LoadFixtures.ReadDeal | apps/houses/management/commands/load_fixtures.py:185-200 | a non-object is recognised; the date is read only from text; a null buyer is kept null; the price is kept only when float() reads it and DECIMAL(10, 2) holds it, with two places |
| LoadFixtures.HundredMillionDeal | apps/houses/management/commands/load_fixtures.py:196-207 | a deal price of 1e8 cannot be stored, so the entry is skipped with nothing added, whatever house it names |
| LoadFixtures.DealHouse | apps/houses/management/commands/load_fixtures.py:165-182 | house_id first, then a unique house with the address |
| LoadFixtures.WithTransactionValid | apps/houses/management/commands/load_fixtures.py:196-201 | inserting a transaction of a known house keeps the store consistent |
| LoadFixtures.DealStepKeeps | apps/houses/management/commands/load_fixtures.py:162-207 | one entry adds at most one transaction, of a known house, on a day it had none |
| LoadFixtures.DealReloadSkips | apps/houses/management/commands/load_fixtures.py:191-193 | loading the same deal again is skipped |
| LoadFixtures.DealHouseStable | apps/houses/management/commands/load_fixtures.py:165-182 | handing out more ids does not change where a deal's house is found |
| LoadFixtures.LoadDealsEffect | apps/houses/management/commands/load_fixtures.py:158-209 | the loader keeps the store consistent, changes only the transactions and counts exactly those added |
| LoadFixtures.LoadDealsDistinct | apps/houses/management/commands/load_fixtures.py:191-193 | no house gets two new deals on one day |
| LoadFixtures.LoadDeal | apps/houses/management/commands/load_fixtures.py:162-207 | one pass of the loop on the store |
| LoadFixtures.LoadTransactions | apps/houses/management/commands/load_fixtures.py:158-209 | the loop computes LoadDeals of the entries |
| LoadFixtures.Iterated | apps/houses/management/commands/load_fixtures.py:99-162 | lists, dicts and strings are iterable, other values raise |
| LoadFixtures.LoadListsEffect | apps/houses/management/commands/load_fixtures.py:72-83 | houses are loaded before the transactions and are kept when those fail |
| LoadFixtures.LoadFileEffect | apps/houses/management/commands/load_fixtures.py:67-88 | a file keeps the store consistent and every row; a file that loads counts exactly what it adds; a non-object changes nothing |
| LoadFixtures.LoadFileLoads | apps/houses/management/commands/load_fixtures.py:67-88 | a file loads exactly when its lists are iterable and every house entry is an object |
| LoadFixtures.Clear | apps/houses/management/commands/load_fixtures.py:45-49 | no transactions are left, and no house with anything that refers to one |
| LoadFixtures.ClearEmpties | apps/houses/management/commands/load_fixtures.py:45-49 | after clearing, no house is left and nothing that refers to one; districts and users stay |
| LoadFixtures.LoadFileInto | apps/houses/management/commands/load_fixtures.py:67-83 | one file on the store, as LoadFile |
| LoadFixtures.Counted | apps/houses/management/commands/load_fixtures.py:78-79 | a file's counts go into the totals only when it loaded |
| LoadFixtures.LoadFilesEffect | apps/houses/management/commands/load_fixtures.py:64-88 | the totals never exceed what was added and are exact when every file loads |
| LoadFixtures.Handle | apps/houses/management/commands/load_fixtures.py:30-93 | a missing folder changes nothing; otherwise the optional clear, then every file in turn |
| LoadFixtures.LoadFolder | apps/houses/management/commands/load_fixtures.py:64-88 | the loop computes LoadFiles |
| LoadFixtures.LoadFileCounted | apps/houses/management/commands/load_fixtures.py:66-88 | one pass of the loop over the files |
| Users.Gate | apps/users/views.py:26-35 | the request passes exactly when the action's permission allows it; a refusal is 401 for the anonymous user and 403 otherwise |
| Users.GateTable | apps/users/views.py:26-35 | anonymous users reach only register and login; administrators reach everything; other signed-in users are refused exactly the six CRUD actions |
| Users.TextField | apps/users/serializers.py:25-93 | a text field: trimmed; absent is required or skipped; blank is refused unless allowed; otherwise the validators decide |
| Users.Hook | apps/users/serializers.py:37-50 | a validate_<field> method refuses only a present value it rejects, with its message |
| Users.RoleField | apps/users/models.py:21 | an accepted role is one of the choices; absent is skipped |
| Users.BoolField | apps/users/serializers.py:81-82 | booleans and DRF's true/false texts are read; absent is skipped |
| Users.ErrorsOf | apps/users/serializers.py:21-35 | the errors dict is empty exactly when no field has a message, and holds each field's messages |
| Users.UsernameField | apps/users/serializers.py:30-50 | an accepted username is not taken |
| Users.PhoneField | apps/users/serializers.py:30-40 | an accepted phone is not taken |
| Users.EmailField | apps/users/serializers.py:30-45 | optional; an accepted e-mail is not already some user's |
| Users.HooksInert | apps/users/serializers.py:37-50 | validate_username and validate_phone never refuse anything the unique validators let through |
| Users.NormalizeEmail | apps/users/serializers.py:52-55 | create_user lower-cases the domain after the last "@" and keeps the length |
| Users.NoErrorsAllValues | apps/users/serializers.py:21-35 | without errors every required field has a value |
| Users.ReadRegister | apps/users/serializers.py:21-50 | the six fields, each read soundly |
| Users.RegisterCheck | apps/users/serializers.py:21-55 | an accepted registration has a free username and phone, a valid role, and an active, non-staff account; a rejection carries errors |
| Users.RegisterPasswordsAgree | apps/users/serializers.py:32-35 | two readable passwords that differ are refused with "两次密码不一致" under password |
| Users.RegisterRefusesTaken | apps/users/serializers.py:37-50 | a taken username, phone or e-mail is refused under its field |
| Users.RegisterIgnoresPassword2 | apps/users/serializers.py:52-55 | password2 is not stored: bodies that differ only in it create the same user |
| Users.RegisterChoosesRole | apps/users/serializers.py:30 | the role is whatever the request names among the choices, "user" otherwise |
| Users.UserJson | apps/users/serializers.py:9-18 | the public fields of a user, never the password |
| Users.Register | apps/users/views.py:127-143 | a rejected body gives the errors and no change; an accepted one adds exactly that user and returns it |
| Users.Create | apps/users/views.py:80-93 | the admin gate; then as Register |
| Users.InsertUser | apps/users/serializers.py:52-55 | the user is added under the next id |
| Users.Authenticate | apps/users/views.py:156 | a user with that username, the password matching, and active |
| Users.AuthenticateExactly | apps/users/views.py:156 | fails exactly when no active user has that username and password |
| Users.LoginWellFormed | apps/users/serializers.py:58-63 | two non-blank texts are accepted, trimmed |
| Users.LoginOutcome | apps/users/views.py:145-169 | succeeds exactly for an active user's credentials, with the tokens; otherwise "用户名或密码错误" with code 401 and HTTP status 400 |
| Users.Listed | apps/users/views.py:37-78 | exactly the matching users, newest first |
| Users.ListUsers | apps/users/views.py:37-78 | the search, role and is_active filters, ordered by -date_joined |
| Users.ActiveFilter | apps/users/views.py:62-66 | only "true" in any case means active; "1" selects the inactive users; no filter selects all |
| Users.SearchFindsUsername | apps/users/views.py:45-55 | a user whose username contains the term, in any ASCII case, is found |
| Users.ReadAdminUpdate | apps/users/serializers.py:75-83 | PUT requires the phone; a given phone is not another user's; an absent key is skipped; a role is a choice |
| Users.AdminUpdateCheck | apps/users/serializers.py:75-83 | an accepted update keeps the username; the phone is unchanged or free |
| Users.AdminUpdateKeeps | apps/users/serializers.py:75-83 | username, password and the staff and superuser flags never change; columns the body does not name keep their value; PUT without a phone is refused |
| Users.Update | apps/users/views.py:95-107 | the admin gate; an unknown user is 404; a rejected body gives "更新失败" and no change; otherwise only that user is updated, "用户更新成功" |
| Users.SaveUser | apps/users/views.py:188 | one row replaced, the rest unchanged |
| Users.ReadProfileUpdate | apps/users/serializers.py:66-72 | only e-mail, real name and company are read |
| Users.ProfileCannotEscalate | apps/users/serializers.py:66-72 | editing one's profile cannot change username, phone, role, activity, verification or password |
| Users.UpdateProfile | apps/users/views.py:180-190 | anonymous 401; a rejected body gives "更新失败"; otherwise the caller's row is updated, "更新成功" |
| Users.ReadPasswordChange | apps/users/serializers.py:86-93 | all three fields are required; the new password passes the validators |
| Users.NoPasswordErrors | apps/users/serializers.py:86-93 | without errors all three fields have values |
| Users.PasswordCheck | apps/users/serializers.py:86-98 | an accepted change has a new password that passes the validators |
| Users.PasswordCheckAgree | apps/users/serializers.py:95-98 | two readable new passwords that differ are refused under new_password |
| Users.PasswordSetValid | apps/users/views.py:206-207 | setting a password keeps the store consistent |
| Users.ChangePasswordOutcome | apps/users/views.py:192-209 | the password changes exactly when the caller is signed in, the form is accepted and the old password is right, and only the caller's; afterwards the new password signs in and a different old one does not |
| Users.SignsInExactly | apps/users/views.py:156 | a user's username and a password sign in as that user exactly when the password is theirs and they are active |
| Users.ChangePassword | apps/users/views.py:192-209 | the store and the reply are ChangePasswordOn |
| Users.DestroyGuards | apps/users/views.py:109-125 | only an administrator deletes, never themself and never a superuser; a deletion removes exactly that user with code 204; a refusal changes nothing |
| Users.Destroy | apps/users/views.py:109-125 | the store and the reply are DestroyOn |
| Users.Profile | apps/users/views.py:171-178 | the caller's own row, or 401 |
| Users.Logout | apps/users/views.py:211-217 | the same answer for every signed-in caller, 401 otherwise |
| Common.Lookup | apps/common/exceptions.py:22-25 | the value under a key is found exactly when some entry carries that key, and it is that entry's value |
| Common.ParseIntRender | apps/favorites/views.py:54-58 | reading back the decimal text of any integer gives that integer, so a house id sent as text resolves to the same row as the number |
| Common.LookupKey | apps/favorites/views.py:54-58 | an integer id is used as is; a text id is accepted exactly when int() accepts it and then has its value; a list, object or null is refused |
| Common.Param | apps/favorites/views.py:77-83 | an absent query parameter and an empty one are both falsy; any other text is truthy |
| Common.StatusFor | apps/common/response.py:20-29 | an explicit status is kept; otherwise the status is 200, 400 or 500, keeps the hundreds digit of a 2xx, 4xx or 5xx code, and is 200 for every other code |
| Common.ApiResponse | apps/common/response.py:13-31 | the body carries the given code and msg, data None becomes {}, any other data is kept, and the status is the one StatusFor chooses |
| Common.SuccessResponse | apps/common/response.py:34-36 | success_response is APIResponse with no explicit status |
| Common.ErrorResponse | apps/common/response.py:39-41 | error_response is APIResponse with no explicit status |
| Common.ResponseDefaults | apps/common/response.py:13-41 | a bare success is code and status 200 with msg "success" and data {}; a bare error is code and status 400; both helpers make the same envelope from the same arguments; every 2xx code is sent with status 200 |
| Common.ErrorMessage | apps/common/exceptions.py:17-37 | the message is "detail" when present, else "error", else the first field as "key: value" (the first item of a list); a list payload gives its first item or the default text; anything else its str(); extraction fails exactly when the first field is an empty list |
| Common.ExceptionHandler | apps/common/exceptions.py:9-52 | a handled exception answers with its own status as both code and HTTP status and data {}, and fails exactly when the message extraction does; an unhandled one always answers code and status 500 with the server-error prefix before its text |
| Common.Refusal | apps/common/exceptions.py:16-44 | one of DRF's own 401, 403 or 404 refusals answers with that status as code and HTTP status, its detail as msg and data {} |
| Common.MessagePrecedence | apps/common/exceptions.py:20-35 | "detail" wins over "error" whatever the order of keys, "error" wins over an earlier field, a list field reports its first item, an empty list field makes the handler fail, and an empty list payload gives the default text |
| Common.OwnerOrReadOnlyExactly | apps/common/permissions.py:11-17 | the owner may use any verb; anyone else, the anonymous user included, passes exactly for GET, HEAD and OPTIONS |
| Common.RolePredicates | apps/common/permissions.py:20-35 | the anonymous user passes neither predicate; the admin role passes both; an agent passes IsAgentOrAdmin; a user who is neither admin role nor superuser fails IsAdminUser |
| Common.SuperuserIsNotAgent | apps/common/permissions.py:24-35 | a superuser with role "user" who is not staff passes IsAdminUser and fails IsAgentOrAdmin, so neither predicate implies the other |
| Store.HouseMisfit | apps/houses/models.py:60-86 | none exactly when every numeric column of the house holds its value: price and unit_price DECIMAL(10, 2), area DECIMAL(8, 2), the coordinates DECIMAL(10, 7), total_floors, build_year and views INT; otherwise the first column, in column order, that cannot |
| Store.MillionSquareMetres | apps/houses/models.py:62 | an area of 1000000 is the first column that does not fit when the prices fit, and 999999.99 fits |
| Store.WithoutHouses | apps/houses/models.py:103-136 | deleting houses removes exactly those houses and every image, transaction, favourite and alert of one of them, and leaves districts, users and every other row as they were |
| Store.WithoutHousesValid | apps/favorites/models.py:41-44 | after the cascade no row refers to a deleted house, and every key and uniqueness invariant still holds |
| Store.WithoutUser | apps/houses/models.py:84-85 | deleting a user removes that user, their favourites and their alerts, and clears the agent of exactly the houses they published; images and transactions are untouched |
| Store.WithoutUserValid | apps/favorites/models.py:14-17 | after deleting a user every invariant still holds |
| Store.WithoutUserLinked | apps/favorites/models.py:41-44 | after deleting a user no house, favourite or alert refers to them |
| Store.WithoutUserUnique | apps/users/models.py:19 | deleting a user keeps district names, usernames, phones and favourite pairs unique |
| Store.FavoriteAddedValid | apps/favorites/models.py:20-24 | adding a favourite for a pair nobody has favourited keeps every invariant |
| Store.FavoriteAddedLinked | apps/favorites/models.py:14-17 | a favourite whose user and house exist keeps every row pointing at existing rows |
| Store.FavoriteAddedUnique | apps/favorites/models.py:24 | a favourite for a new pair keeps the (user, house) pairs unique |
| Store.FirstKey | apps/tasks/excel_importer.py:216-220 | `.first()` returns the oldest matching row in the range, and None exactly when no row in the range matches |
| Store.LastKey | apps/favorites/views.py:59 | `.first()` under newest-first ordering returns the newest matching row, and None exactly when no row matches |
| Store.Db.constructor | apps/houses/models.py:9-136 | an empty database whose ids start at 1 |
| Store.Db.Restore | apps/tasks/excel_importer.py:118-134 | the rollback of a failed atomic block puts back the state taken before it |
| Store.Db.AddDistrict | apps/houses/models.py:9-15 | a new district takes the next id and nothing else changes |
| Store.Db.AddUser | apps/users/models.py:9-24 | a new user takes the next id and nothing else changes |
| Store.Db.AddHouse | apps/houses/models.py:26-92 | a new house takes the next id and nothing else changes |
| Store.Db.AddImage | apps/houses/models.py:103-116 | a new image of an existing house takes the next id and nothing else changes |
| Store.Db.AddTransaction | apps/houses/models.py:122-136 | a new transaction of an existing house takes the next id and nothing else changes |
| Store.Db.AddFavorite | apps/favorites/models.py:10-25 | a favourite for an unfavourited pair takes the next id and nothing else changes |
| Store.Db.AddAlert | apps/favorites/models.py:31-57 | a new alert takes the next id and nothing else changes |
| Store.Db.SetDistrict | apps/houses/models.py:9-15 | saving a district replaces that row only |
| Store.Db.SetUser | apps/users/models.py:9-24 | saving a user replaces that row only |
| Store.Db.SetHouse | apps/houses/models.py:26-92 | saving a house replaces that row only |
| Store.Db.SetAlert | apps/favorites/models.py:64-70 | saving an alert replaces that row only |
| Store.Db.DeleteHouses | apps/tasks/tasks.py:149 | the state becomes WithoutHouses of the old state, the invariant holds, and the count covers the houses and every cascaded row |
| Store.Db.DeleteUser | apps/users/views.py:124 | the state becomes WithoutUser of the old state and the invariant holds |
| Store.Db.DeleteFavorite | apps/favorites/views.py:62 | only that favourite is gone |
| Store.Db.DeleteTransactions | apps/tasks/tasks.py:156 | only those transactions are gone |
| Store.Db.DeleteDistrict | apps/houses/views.py:66-73 | a district no house refers to is removed and nothing else changes |
| Router.RouteTableConsistent | front/src/router/index.js:5-109 | every admin route also requires a login; the root, home, login and register pages require none, so a redirect is never redirected again; no two routes share a path |
| Router.PageTitle | front/src/router/index.js:122 | a route with a non-empty title gets "title - site name", any other the site name alone; the title always ends with the site name |
| Router.Property | front/src/router/index.js:139 | a property read from the parsed stored user is one of the object's entries under that key, and is absent exactly when no entry carries the key |
| Router.GuardDecision | front/src/router/index.js:124-149 | navigation proceeds exactly when the route needs no login, or a token is stored and the route needs no administrator or the stored user's role is "admin"; a missing token redirects to /login remembering the full path, a missing administrator to /; a redirect always comes with its toast and a pass never does |
| Router.GuardIgnoresStorage | front/src/router/index.js:124-149 | a route without requireAuth passes whatever storage holds, and the stored user matters only for admin routes |
| Router.Page.constructor | front/src/router/index.js:111-117 | a page with the given title and no toasts |
| Router.Page.BeforeEach | front/src/router/index.js:120-150 | the title becomes PageTitle of the target, next() receives the guard's decision, and exactly one toast is shown when it redirects |
| FrontUtils.Shortest | front/src/utils/index.js:33 | the text of a price drops trailing fractional zeros and keeps the value: the shorter coefficient scaled back gives the original |
| FrontUtils.FormatPrice | front/src/utils/index.js:31-34 | a missing or zero price is shown as "0" |
| FrontUtils.GroupedDigits | front/src/utils/index.js:33 | on a run of digits the regular expression puts a comma before every group of three counted from the right, the first group being the short one |
| FrontUtils.WholePrice | front/src/utils/index.js:31-34 | a nonzero whole price shows its digits grouped by threes, a negative one after its minus sign |
| FrontUtils.Ungroup | front/src/utils/index.js:33 | the commas are the only change: deleting them from the formatted text gives back the text without commas it came from |
| FrontUtils.FractionGroupedAsWritten | front/src/utils/index.js:33 | the regular expression also groups fractional digits: "1234.5678" becomes "1,234.5,678" |
| FrontUtils.FractionPriceAsWritten | front/src/utils/index.js:31-34 | the price 1234.5678 is shown as "1,234.5,678" by formatPrice and as "1,234.5678" by the corrected form |
| FrontUtils.GroupedWhole | front/src/utils/index.js:33 | the corrected grouping leaves the fraction from the decimal point on unchanged at the end, and on text without a point is the original grouping |
| FrontUtils.FormatPriceWhole | front/src/utils/index.js:31-34 | the corrected formatPrice still shows a missing or zero price as "0" |
| FrontUtils.GroupedWholeCorrect | front/src/utils/index.js:33 | the corrected grouping shows 1234.5678 as "1,234.5678" and loses nothing but its commas |
| FrontUtils.Label | front/src/utils/index.js:88 | JavaScript's `map[key] or fallback` idiom: the label when the map has a non-empty one for the key, the fallback otherwise |
| FrontUtils.UnknownKeys | front/src/utils/index.js:81-142 | an unknown house status, role or alert status is echoed by the text helpers, and the type helpers answer "info" |
| FrontUtils.LabelsCoverChoices | front/src/utils/index.js:81-142 | every house status, role and alert status the back end defines has a label of its own, and every tag type is one Element Plus knows |
| HouseStore.Merged | front/src/stores/house.js:28 | the object spread: the keys of both, the new value for every key given, the old value for every other |
| HouseStore.MergeLaws | front/src/stores/house.js:27-29 | merging nothing changes nothing, merging the same conditions twice is merging them once, and two merges in a row are one merge of both with the later values winning |
| HouseStore.DefaultsShape | front/src/stores/house.js:6-16 | the nine search conditions, with status "available" and ordering "-created_at" and every other condition empty |
| HouseStore.State.constructor | front/src/stores/house.js:6-22 | a fresh store holds the default conditions, an empty list and no current house |
| HouseStore.State.UpdateSearchParams | front/src/stores/house.js:27-29 | the conditions become the merge of the old ones with the given ones; the list and the current house are untouched |
| HouseStore.State.ResetSearchParams | front/src/stores/house.js:34-46 | the conditions are the defaults again whatever was merged before; the rest is untouched |
| HouseStore.State.SetHouseList | front/src/stores/house.js:51-53 | the list is replaced and nothing else changes |
| HouseStore.State.SetCurrentHouse | front/src/stores/house.js:58-60 | the current house is replaced and nothing else changes |

## Left out

Effects and platform behaviour:

- Network, HTML and files: fetching the page, selecting nodes with BeautifulSoup, reading and writing spreadsheets, and moving an imported file to the archive (`_archive_file`) are not modelled. A node arrives as the strings read from it, a sheet as its rows, and archiving as a flag.
- Randomness and the clock: `random.choice`, `random.uniform`, `time.sleep`, `timezone.now()` and `datetime.fromisoformat` are parameters (`Draw`, `RowEnv`, `now`, the calendar of a fixture).
- `urljoin`: resolution of a relative link against the page address (section 5.2 of RFC 3986) is the parameter `join`.
- Placeholder images: `_load_placeholder_images` and `_choose_cover_image` list a directory and draw from it; the chosen path is a parameter.
- Floating point: Python floats are exact reals or exact decimals (`Dec`), so binary rounding, Django's rounding of a float to max_digits significant digits before a DecimalField stores it (the fixture loader's columns), and JavaScript's exponent forms of `Number.prototype.toString` are not modelled. `round(x, n)` is `Rounding.RoundTo` on the exact value with ties rounded up; Python rounds the nearest binary float, which can differ in the last place on a tie.
- ORM aggregates: the averages and counts that `aggregate`, `annotate` and `count` compute in the analysis views and the market report are inputs.
- Django and DRF internals: Django's own field validators in the users serializers (the username pattern, lengths, the e-mail format and `validate_password`) are the parameter `check`; the house write view receives its fields already converted to their types (`HouseViews.HousePatch`), so DRF's conversion of them is not modelled; field length limits are not enforced, except the report type of Tasks.MarketReport; numeric column ranges are enforced where the importer, the fixture loader and the market report save (`Store.HouseMisfit`, `Tasks.RateFits`), while the house write view's range checks belong to the DRF conversion that is not modelled; DRF's own error texts are approximated by constants; filter backends, search and ordering are not modelled; pagination is not modelled, so lists are whole.
- Password hashing: a password is stored as the text `check_password` compares with.
- JWT: issuing tokens is the parameter `tokens`; logout revokes nothing, as in the source.
- Username normalisation: Django's NFKC normalisation of usernames is not modelled, and case folding is ASCII only.
- Logging and console output: `logger` calls and the management command's `stdout` messages are not modelled.
- Concurrency: Celery scheduling, retries and concurrent requests are not modelled; each call runs alone.

Operations not modelled:

- Scraper: `fetch_html`, `_build_headers` and `_random_beijing_coordinates` are left out. The coordinates are drawn values, and the HTTP fetch is I/O.
- Analysis: `price_trend`, `district_comparison`, `house_type_distribution` and `predict_price` are left out. They are pandas and ORM aggregation with no branching beyond the percentage rule, which `Analysis.ShareBounds` states. `MarketReportViewSet` is left out too.
- Houses: `DistrictViewSet` list, retrieve, create and update, `HouseViewSet.list`, `create`, `stats`, `my_houses` and `hot_houses`, `TransactionViewSet`, and `HouseImageViewSet.destroy` are left out. They are standard DRF plumbing or ORM aggregation outside the modelled core.
- Favourites: `FavoriteViewSet.list` and `destroy`, and `PriceAlertViewSet.active_alerts`, `triggered_alerts` and `destroy`, are left out. They filter the per-user querysets that `Favorites.FavoritesOf` and `Favorites.AlertsOf` state, or delete one row.
- Tasks: `send_notification_email` sends mail, and `update_house_statistics` only logs; both are left out.
- Users: `UserViewSet.retrieve` is DRF's inherited action and is not modelled. `date_joined` is not part of `Users.UserJson`.
- Front end: `auth.js`, `stores/user.js` and `localStorage` are reduced to the token and the parsed user the guard is given. `debounce`, `throttle`, `formatDate`, `fromNow`, `formatArea` and `downloadFile` are left out (timers, dates and the DOM). Object keys that JavaScript inherits from `Object.prototype` (such as `constructor`) are not modelled in the label maps. The key order of `searchParams` is not modelled, because the store is a map. `ElMessage` toasts are recorded in `Router.Page.toasts`.

Weaker contracts:

- ExcelImporter.GenerateUniquePhone: the source draws phones until one is free and never stops; here the draws are a finite sequence, and None means every draw was taken.
- LoadFixtures.LoadFilesEffect: when a file fails after some of its houses were saved, those houses stay, but the totals do not count them; so the totals are stated as at most the growth of the tables, and exact only when every file loads.
- FangScraper.ExtractMetadata: the attribute's JSON text arrives already decoded, or as a failed decode; the JSON grammar itself is not modelled.
- Analysis.HeatMap: the final sort of `district_heat_map` by heat index is not modelled; the rows come in district order.
- FrontUtils.FormatPrice: its own contract states only the falsy case; the text of a nonzero price is stated by `FrontUtils.WholePrice`, `FrontUtils.Ungroup` and `FrontUtils.FractionGroupedAsWritten`. The price is taken as a number, as the JSDoc says. The API sends House prices as DecimalField strings with two places, where "0.00" is truthy and printed as it is, so the fraction defect in Findings concerns numeric input only.
- HouseViews.Retrieve: the reply holds id, cover_image and views. The other HouseDetailSerializer fields are not part of it: title, district_info, agent_info, images, the prices and the remaining columns.
- HouseViews.OrderField: DRF refuses text longer than 1000 characters, and `int()` also reads `str(float)` exponent forms and Python's wider numeric syntax. Neither is modelled.
- Common.ParseInt: Python's `int()` also accepts underscores between digits ("1_000") and non-ASCII Unicode digits; only ASCII digits with an optional sign and surrounding white space are modelled.
- Numbers.ParseDec: `Decimal()` and `float()` also accept exponents ("1e3"), "inf", "nan", underscores and Unicode digits; only ASCII positional notation is modelled, and the rest reads as unreadable text.
- Users.UsernameField: the database is MySQL with its case-insensitive default collation, so "Alice" and "alice" collide there. The model compares exactly, as do Users.PhoneField, Users.EmailField and Users.Authenticate.
- ExcelImporter.NormalizeOrientation: a cell is Null, text or a number, and every number is named 'float' in the AttributeError. pandas hands an integer column over as int, whose message says 'int' instead.
- ExcelImporter.JoinTruthy: the TypeError names a number part 'float', as for ExcelImporter.NormalizeOrientation; an integer column would give 'int'.
- ExcelImporter.HouseTextFields: the number cells' type name is 'float' in every message, as for ExcelImporter.NormalizeOrientation.
- ExcelImporter.CreateAgent: the duplicate-key text is the one MySQL 8.0.19 and later give, which names the key with its table; older servers write 'username' alone.
- ExcelImporter.UpsertHouse: the lookup's count is taken over the whole table, as get() counts it; the MySQL collation is not modelled, as for ExcelImporter.NamedDistrict.
- HouseSerializers.FileUrl: the storage's URL also percent-encodes characters outside the URL-safe set and drops leading slashes of the name; the model joins "/media/" and the stored name as they are.
- Tasks.Summary: the size of the change is kept as a number; its two-decimal text is not modelled.
- ExcelImporter.NamedDistrict: district names are compared exactly, not under the case-insensitive MySQL collation. The same holds for ExcelImporter.HouseLookup and the agent searches of ExcelImporter.GetOrCreateAgent, and for the username, address and house lookups of LoadFixtures.AgentFor, LoadFixtures.AddressTaken and LoadFixtures.DealHouse.
- Tasks.MarketReport: the stored price_change_rate is the exact rate; the column's rounding to two places is not applied. The averages are rounded half-even, as Django before 5.0 quantises them; from 5.0 on MySQL rounds them itself and sends an exact tie in the third place away from zero. The refusals are MySQL's, which Django 5.0 and later reach by passing the Decimal through; older Django versions quantise first and raise decimal.InvalidOperation at the same bounds. The same holds for the numeric refusals of ExcelImporter.UpsertHouse, ExcelImporter.PlaceHouse, LoadFixtures.HouseColumns and LoadFixtures.ReadDeal. The content line's two dates are kept as day numbers; their ISO text is not rendered.
- Favorites.CreateFavorite: the reply carries id and note. FavoriteSerializer also sends the nested `house` (HouseListSerializer) and `created_at`; neither is modelled.
- Favorites.CreateAlert: the reply is Favorites.AlertJson's five fields. PriceAlertSerializer also sends the nested `house` and `created_at`.
- Favorites.AlertJson: the nested `house` (the HouseListSerializer rendering of the house) and the `created_at` text are left out. The nested serializer is not part of this model, and the clock's rendering is not modelled.
- Store.Db.Restore: every table draws its ids from one counter (`Store.Tables.nextId`), where MySQL keeps one AUTO_INCREMENT per table. So the ids the model assigns differ from the source's. This affects the `id` of Favorites.CreateFavorite, the house id of ExcelImporter.ImportRow, and the rows that fixture `district_id` and `house_id` references pick in LoadFixtures.DistrictSourceOf and LoadFixtures.DealHouse. Restore also winds the counter back after a failed atomic block, while InnoDB keeps the values it consumed. The contracts rely only on new ids being fresh and above every existing id.
- Tasks.OldSold: the cut-off is the start of a UTC day (`cutoff * 86400` seconds). The source compares `updated_at` with a naive date that Django reads as midnight in Asia/Shanghai, eight hours earlier; that offset is not modelled.
- Analysis.QuerysetPrices: the analysis views take `district_id` as a number. The source passes the query text to the ORM, where text that is not an integer raises and the handler answers 500; that path is not modelled, for this view and Analysis.PriceRangeDistribution alike.
- Common.Json: JSON numbers are exact values (`JNum`), so the digits that `str(float)` and the JSON encoder print (such as "100.0" or "1e-05") are not modelled; the same holds for number cells (`Cells.Cell`).

## Findings

Each row pairs a member that models the code as written with a corrected member that states the evident intent. The endpoints of the model keep the code's behaviour.

| source | as written | input that shows it | evidently intended | confidence | as-written member | corrected member |
|---|---|---|---|---|---|---|
| apps/tasks/tasks.py:108-112 | the summary formats `house_stats['avg_price']` with `:.2f`, and `Avg` is None when no house is on sale, so the report raises | a district with no available house | a missing average reads 0.00, as the report's own avg_price field already does | not executed | Tasks.SummaryAsWritten | Tasks.Summary |
| apps/houses/views.py:195-197 | batch_update_status checks against available, sold, rented and pending | status "rented" is stored though House offers no such choice, and "reserved" is refused | the status choices of House | not executed | HouseViews.BatchStatusesAsWritten | HouseViews.CorrectedBatchStatus |
| apps/houses/views.py:224-228 | deleted_count is the first item of `QuerySet.delete()`, which counts cascaded rows | one house with one image reports 2 deleted houses | the number of houses deleted | not executed | HouseViews.BatchDeleteCountsCascade | HouseViews.HousesDeletedCount |
| apps/analysis/views.py:321-330 | heat_percentage divides the index rounded to two places by the unrounded maximum | one district with one house on sale at 302 has index 1.508, shown as 1.51, and percentage 100.1 | percentages within [0, 100] with the hottest district at 100 | not executed | Analysis.HeatPercentageOvershoots | Analysis.NormalisedHeatBounded |
| apps/houses/views.py:285 | map_data calls `house.get_cover_image_url()`, which House does not define | one available house with coordinates: the AttributeError becomes a 500 "服务器内部错误: 'House' object has no attribute 'get_cover_image_url'" | each feature carries the house's cover, the cover image or else the first image, as the house serializer shows it | not executed | HouseViews.MapDataAsWritten | HouseViews.MapCoverIsSerializerCover |
| front/src/utils/index.js:31-34 | the regular expression also puts commas into the fractional digits | the price 1234.5678 is shown as "1,234.5,678" | separators in the whole part only, "1,234.5678" | not executed | FrontUtils.FractionPriceAsWritten | FrontUtils.GroupedWholeCorrect |

Two branches the code cannot reach are stated as well. An image upload naming a house that does not exist is refused by the serializer with 400 before the view looks the house up, so the view's 404 is never sent (`HouseViews.UnknownHouseIs400`). `validate_username` and `validate_phone` never refuse anything, because the unique validators run first (`Users.HooksInert`).
