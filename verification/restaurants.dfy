/**
 * The restaurant service over a restaurant table in storage order, and the
 * page arithmetic of the restaurant listing route.
 */
module Restaurants {
  import opened Wrappers
  import opened Tables
  import opened Errors

  datatype RestaurantStatus = ACTIVE | INACTIVE

  datatype Restaurant = Restaurant(
    id: string,
    name: string,
    address: string,
    phone: string,
    description: string,
    status: RestaurantStatus)

  type RestaurantTable = seq<Restaurant>

  predicate IdsUnique(t: RestaurantTable) {
    forall i, j :: 0 <= i < j < |t| ==> t[i].id != t[j].id
  }

  /** `findAll(skip, take)`: at most `take` rows from offset `skip`, whatever their status. */
  function FindAll(t: RestaurantTable, skip: nat, take: nat): (r: seq<Restaurant>)
    ensures |r| <= take
    ensures |r| == if skip >= |t| then 0 else Min(take, |t| - skip)
    ensures forall i :: 0 <= i < |r| ==> skip + i < |t| && r[i] == t[skip + i]
  {
    Window(t, skip, take)
  }

  /** `findOne`: the restaurant with the id, whatever its status. */
  function FindOne(t: RestaurantTable, id: string): (r: Option<Restaurant>)
    ensures r.Some? ==> r.value in t && r.value.id == id
    ensures r.None? <==> forall x :: x in t ==> x.id != id
  {
    First(t, (x: Restaurant) => x.id == id)
  }

  /**
   * A restaurant body as the routes bind it, unvalidated: any field may be
   * absent. On update an absent field leaves the column unchanged.
   */
  datatype RestaurantFields = RestaurantFields(
    name: Option<string>, address: Option<string>, phone: Option<string>, description: Option<string>)

  /** The schema defaults filled in on insert: an unused id and the initial status. */
  datatype RestaurantDefaults = RestaurantDefaults(id: string, status: RestaurantStatus)

  /** Every column `create` must set is given. */
  predicate Complete(f: RestaurantFields) {
    f.name.Some? && f.address.Some? && f.phone.Some? && f.description.Some?
  }

  /**
   * `create`: insert the four given fields with the default id and status;
   * the database client refuses a row with a required column unset.
   */
  function Create(t: RestaurantTable, fields: RestaurantFields, defaults: RestaurantDefaults)
    : (r: Result<(Restaurant, RestaurantTable), Failure>)
    requires forall x :: x in t ==> x.id != defaults.id
    ensures r.Err? <==> !Complete(fields)
    ensures r.Err? ==> r.error == StoreRejected
    ensures r.Ok? ==> r.value.1 == t + [r.value.0] && r.value.0.id == defaults.id
    ensures r.Ok? ==> r.value.0.status == defaults.status
    ensures r.Ok? ==>
              && Some(r.value.0.name) == fields.name && Some(r.value.0.address) == fields.address
              && Some(r.value.0.phone) == fields.phone && Some(r.value.0.description) == fields.description
  {
    if !Complete(fields) then Err(StoreRejected)
    else
      var x := Restaurant(defaults.id, fields.name.value, fields.address.value, fields.phone.value,
                          fields.description.value, defaults.status);
      Ok((x, t + [x]))
  }

  /** The record `update` writes: the stored one with the given fields replaced. */
  function Patched(x: Restaurant, f: RestaurantFields): Restaurant {
    x.(name := f.name.GetOr(x.name), address := f.address.GetOr(x.address),
       phone := f.phone.GetOr(x.phone), description := f.description.GetOr(x.description))
  }

  /** `update`: replace name, address, phone and description of the restaurant with the id, whatever its status. */
  function Update(t: RestaurantTable, id: string, fields: RestaurantFields)
    : (r: Result<(Restaurant, RestaurantTable), ServiceError>)
    ensures r.Err? <==> forall x :: x in t ==> x.id != id
    ensures r.Err? ==> r.error == RestaurantNotFound
    ensures r.Ok? ==>
              exists i :: 0 <= i < |t| && t[i].id == id
                && r.value.1 == t[i := r.value.0]
                && r.value.0.id == id && r.value.0.status == t[i].status
                && r.value.0 == Patched(t[i], fields)
  {
    match FirstIndex(t, (x: Restaurant) => x.id == id)
    case None => Err(RestaurantNotFound)
    case Some(i) =>
      var x := Patched(t[i], fields);
      Ok((x, t[i := x]))
  }

  /**
   * A complete body is stored: the table stays keyed by id and `findOne`
   * then returns the new restaurant.
   */
  lemma CreatePreservesIds(t: RestaurantTable, fields: RestaurantFields, defaults: RestaurantDefaults)
    requires IdsUnique(t)
    requires forall x :: x in t ==> x.id != defaults.id
    requires Complete(fields)
    ensures Create(t, fields, defaults).Ok?
    ensures IdsUnique(Create(t, fields, defaults).value.1)
    ensures FindOne(Create(t, fields, defaults).value.1, defaults.id) == Some(Create(t, fields, defaults).value.0)
  {
    var (x, t') := Create(t, fields, defaults).value;
    forall i, j | 0 <= i < j < |t'| ensures t'[i].id != t'[j].id {
      if j == |t| {
        assert t'[i] == t[i] && t[i] in t;
      }
    }
    var f := FindOne(t', defaults.id).value;
    var k :| 0 <= k < |t'| && t'[k] == f;
    assert forall m :: 0 <= m < |t| ==> t'[m] == t[m] && t[m] in t;
    assert k == |t|;
  }

  /** An update keeps every id, so the table stays keyed by id. */
  lemma UpdatePreservesIds(t: RestaurantTable, id: string, fields: RestaurantFields)
    requires IdsUnique(t)
    ensures Update(t, id, fields).Ok? ==> IdsUnique(Update(t, id, fields).value.1)
    ensures Update(t, id, fields).Ok? ==> FindOne(Update(t, id, fields).value.1, id) == Some(Update(t, id, fields).value.0)
  {
    var r := Update(t, id, fields);
    if r.Ok? {
      var i :| 0 <= i < |t| && t[i].id == id && r.value.1 == t[i := r.value.0] && r.value.0.id == id;
      var t' := r.value.1;
      assert forall k :: 0 <= k < |t'| ==> t'[k].id == t[k].id;
      var f := FindOne(t', id).value;
      var k :| 0 <= k < |t'| && t'[k] == f;
      assert k == i;
    }
  }

  /** An update with every field given replaces exactly those four fields. */
  lemma UpdateWithAllFields(t: RestaurantTable, id: string, name: string, address: string, phone: string,
                            description: string)
    requires Update(t, id, RestaurantFields(Some(name), Some(address), Some(phone), Some(description))).Ok?
    ensures var x := Update(t, id, RestaurantFields(Some(name), Some(address), Some(phone), Some(description))).value.0;
            x.name == name && x.address == address && x.phone == phone && x.description == description
  {
  }

  /** Restaurants listed per page. */
  const PageSize: nat := 20

  /** The page the listing serves: a route page of 0 is page 1. */
  function NormalisePage(page: nat): (p: nat)
    ensures p >= 1
    ensures page >= 1 ==> p == page
  {
    if page <= 0 then 1 else page
  }

  /** The `skip` the listing requests for a route page. */
  function PageSkip(page: nat): (skip: nat)
    ensures skip % PageSize == 0
    ensures skip == (NormalisePage(page) - 1) * PageSize
    ensures page <= 1 <==> skip == 0
  {
    (NormalisePage(page) - 1) * PageSize
  }

  /** `GET /restaurant/:page`: the window of page `page` of the table. */
  function ListPage(t: RestaurantTable, page: nat): (r: seq<Restaurant>)
    ensures |r| <= PageSize
    ensures forall i :: 0 <= i < |r| ==> PageSkip(page) + i < |t| && r[i] == t[PageSkip(page) + i]
    ensures PageSkip(page) + PageSize <= |t| ==> |r| == PageSize
  {
    FindAll(t, PageSkip(page), PageSize)
  }

  /** Pages 1 up to `n`, one after another. */
  function Pages(t: RestaurantTable, n: nat): seq<Restaurant> {
    if n == 0 then [] else Pages(t, n - 1) + ListPage(t, n)
  }

  /** Successive pages tile the table: pages 1..n are exactly its first 20·n rows. */
  lemma {:induction false} PagesCoverPrefix(t: RestaurantTable, n: nat)
    ensures Pages(t, n) == t[..Min(n * PageSize, |t|)]
  {
    if n > 0 {
      PagesCoverPrefix(t, n - 1);
      var lo := Min((n - 1) * PageSize, |t|);
      var hi := Min(n * PageSize, |t|);
      var page := ListPage(t, n);
      assert PageSkip(n) == (n - 1) * PageSize;
      assert |page| == hi - lo;
      assert t[..hi] == t[..lo] + t[lo..hi];
      assert page == t[lo..hi];
    }
  }

  /** Two different pages never share a position of the table, and page p ends where page p+1 starts. */
  lemma PagesDisjoint(p: nat, q: nat)
    requires 1 <= p < q
    ensures PageSkip(p) + PageSize <= PageSkip(q)
    ensures PageSkip(p) + PageSize == PageSkip(p + 1)
  {
  }

  /** Once the table is exhausted, later pages are empty. */
  lemma PastTheEnd(t: RestaurantTable, page: nat)
    requires page >= 1 && (page - 1) * PageSize >= |t|
    ensures ListPage(t, page) == []
  {
  }
}
