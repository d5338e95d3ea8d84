/** The front end's house store: the search conditions of the house list,
    the list last fetched and the house being viewed. */
module HouseStore {
  import opened Common

  /** The search conditions a fresh or reset store holds. */
  const DefaultSearch: map<string, Json> := map[
    "search" := JStr(""), "district" := JStr(""), "house_type" := JStr(""),
    "min_price" := JStr(""), "max_price" := JStr(""), "min_area" := JStr(""), "max_area" := JStr(""),
    "status" := JStr("available"), "ordering" := JStr("-created_at")]

  /** { ...params0, ...params }: the given keys take the new values, every
      other key keeps its old one. */
  function Merged(params0: map<string, Json>, params: map<string, Json>): (r: map<string, Json>)
    ensures r.Keys == params0.Keys + params.Keys
    ensures forall k :: k in params ==> r[k] == params[k]
    ensures forall k :: k in params0 && k !in params ==> r[k] == params0[k]
  {
    params0 + params
  }

  /** Merging nothing changes nothing; merging the same keys twice is
      merging them once; two merges in a row are one merge of both, the
      later values winning. */
  lemma MergeLaws(m: map<string, Json>, p: map<string, Json>, q: map<string, Json>)
    ensures Merged(m, map[]) == m
    ensures Merged(Merged(m, p), p) == Merged(m, p)
    ensures Merged(Merged(m, p), q) == Merged(m, Merged(p, q))
  {
    assert Merged(m, map[]) == m;
  }

  /** The defaults: nine conditions, the listing restricted to houses on sale
      and newest first, the others empty. */
  lemma DefaultsShape()
    ensures DefaultSearch.Keys == {"search", "district", "house_type", "min_price", "max_price",
      "min_area", "max_area", "status", "ordering"}
    ensures DefaultSearch["status"] == JStr("available") && DefaultSearch["ordering"] == JStr("-created_at")
    ensures forall k :: k in DefaultSearch && k !in {"status", "ordering"} ==> DefaultSearch[k] == JStr("")
  {
  }

  class State {
    var searchParams: map<string, Json>
    var houseList: Json
    var currentHouse: Json

    /** The store as created: the default conditions, an empty list, no house. */
    constructor()
      ensures searchParams == DefaultSearch && houseList == JList([]) && currentHouse == JNull
    {
      searchParams := DefaultSearch;
      houseList := JList([]);
      currentHouse := JNull;
    }

    method UpdateSearchParams(params: map<string, Json>)
      modifies this
      ensures searchParams == Merged(old(searchParams), params)
      ensures houseList == old(houseList) && currentHouse == old(currentHouse)
    {
      searchParams := Merged(searchParams, params);
    }

    /** Back to the defaults: the same state as a fresh store's conditions,
        whatever was merged before, so resetting twice is resetting once. */
    method ResetSearchParams()
      modifies this
      ensures searchParams == DefaultSearch
      ensures houseList == old(houseList) && currentHouse == old(currentHouse)
    {
      searchParams := DefaultSearch;
    }

    method SetHouseList(list: Json)
      modifies this
      ensures houseList == list
      ensures searchParams == old(searchParams) && currentHouse == old(currentHouse)
    {
      houseList := list;
    }

    method SetCurrentHouse(house: Json)
      modifies this
      ensures currentHouse == house
      ensures searchParams == old(searchParams) && houseList == old(houseList)
    {
      currentHouse := house;
    }
  }
}
