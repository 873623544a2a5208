/**
 * The public provider catalog: the filtered, ranked list of providers
 * (get-providers) and one provider's public profile (get-provider).
 */
module Catalog {
  import opened Wrappers
  import opened Seqs
  import opened Model
  import opened Strings
  import opened ServerHelpers

  /** The hourly-rate filter a `price` parameter asks for. */
  datatype PriceRange = NoPriceFilter | Between(lo: real, hi: real) | AtLeast(min: real)

  /**
   * The `price` parameter: when it is not falsy, exactly two `-`-separated
   * pieces give a range, otherwise a `+` anywhere gives a lower bound from
   * the string with every `+` removed, otherwise there is no filter.
   */
  function ParsePrice(host: Host, price: string): (r: PriceRange)
    ensures PhpEmpty(price) ==> r == NoPriceFilter
    ensures r.Between? <==> !PhpEmpty(price) && Occurrences('-', price) == 1
    ensures r.AtLeast? <==> !PhpEmpty(price) && Occurrences('-', price) != 1 && '+' in price
    ensures r.AtLeast? ==> r.min == host.toFloat(RemoveChar('+', price))
  {
    if PhpEmpty(price) then NoPriceFilter
    else
      var pieces := Explode('-', price);
      if |pieces| == 2 then Between(host.toFloat(pieces[0]), host.toFloat(pieces[1]))
      else if '+' in price then AtLeast(host.toFloat(RemoveChar('+', price)))
      else NoPriceFilter
  }

  /** `"lo-hi"` with dash-free bounds is the range from `lo` to `hi`. */
  lemma RangeParses(host: Host, lo: string, hi: string)
    requires '-' !in lo && '-' !in hi
    ensures ParsePrice(host, lo + "-" + hi) == Between(host.toFloat(lo), host.toFloat(hi))
  {
    var price := lo + "-" + hi;
    assert Implode("-", [lo, hi]) == price;
    ExplodeImplode('-', [lo, hi]);
    assert !PhpEmpty(price) by {
      assert |price| >= 1 && price[|lo|] == '-';
    }
  }

  /** `"min+"` with a bound free of dashes and pluses is the lower bound `min`. */
  lemma LowerBoundParses(host: Host, min: string)
    requires '-' !in min && '+' !in min
    ensures ParsePrice(host, min + "+") == AtLeast(host.toFloat(min))
  {
    var price := min + "+";
    assert price[|min|] == '+';
    ExplodeFree('-', price);
    assert Occurrences('-', price) == 0;
    assert '+' in price;
    RemoveCharAppend('+', min, "+");
    RemoveCharAbsent('+', min);
    assert RemoveChar('+', "+") == RemoveChar('+', "+"[1..]) == "";
    assert RemoveChar('+', price) == min;
  }

  /** The filters of one catalog request; each is active only when present and nonzero. */
  datatype Filter = Filter(category: Option<int>, minRating: Option<real>, price: PriceRange)

  function FilterOf(host: Host, req: Request): (f: Filter)
    ensures f.category.Some? <==> "category" in req.params && host.toInt(req.params["category"]) != 0
    ensures f.category.Some? ==> f.category.value == host.toInt(req.params["category"])
    ensures f.minRating.Some? <==> "rating" in req.params && host.toFloat(req.params["rating"]) != 0.0
    ensures f.minRating.Some? ==> f.minRating.value == host.toFloat(req.params["rating"])
    ensures "price" !in req.params ==> f.price == NoPriceFilter
    ensures "price" in req.params ==> f.price == ParsePrice(host, host.sanitize(req.params["price"]))
  {
    var category := if "category" in req.params then host.toInt(req.params["category"]) else 0;
    var rating := if "rating" in req.params then host.toFloat(req.params["rating"]) else 0.0;
    Filter(if category != 0 then Some(category) else None,
           if rating != 0.0 then Some(rating) else None,
           if "price" in req.params then ParsePrice(host, host.sanitize(req.params["price"])) else NoPriceFilter)
  }

  /** The WHERE clause: a NULL column fails every comparison it takes part in. */
  predicate Matches(f: Filter, p: Provider) {
    && (f.category.Some? ==> p.serviceCategoryId == Some(SqlInt(f.category.value)))
    && (f.minRating.Some? ==> p.rating >= f.minRating.value)
    && match f.price
       case NoPriceFilter => true
       case Between(lo, hi) => p.hourlyRate.Some? && lo <= p.hourlyRate.value <= hi
       case AtLeast(min) => p.hourlyRate.Some? && p.hourlyRate.value >= min
  }

  /**
   * A category stored as REAL or TEXT (registration binds the posted text
   * unconverted) equals no integer: the category filter never lists that
   * provider, and the category join finds no name.
   */
  lemma UnconvertedCategoryNeverMatches(db: Db, k: int, p: Provider, f: Filter)
    requires p.serviceCategoryId.Some? && !p.serviceCategoryId.value.SqlInt?
    ensures f.category.Some? ==> !Matches(f, p)
    ensures CatalogRowOf(db, k, p).categoryName.None?
  {
  }

  /** `ORDER BY p.rating DESC, p.total_jobs DESC`. */
  predicate RanksFirst(a: CatalogRow, b: CatalogRow) {
    a.info.rating > b.info.rating || (a.info.rating == b.info.rating && a.info.totalJobs >= b.info.totalJobs)
  }

  function CatalogRowOf(db: Db, k: int, p: Provider): (row: CatalogRow)
    ensures row.info == InfoOf(k, p) && row.categoryName == CategoryName(db, p.serviceCategoryId)
  {
    CatalogRow(InfoOf(k, p), CategoryName(db, p.serviceCategoryId))
  }

  /**
   * get-providers: every provider the filters let through, each once, with
   * its category's name, best rated first (more jobs first on equal
   * rating). It always succeeds and never changes anything; an empty list
   * carries its own message.
   */
  function GetProviders(host: Host, db: Db, s: Session, req: Request): (r: Response)
    ensures r.db == db && r.session == s
    ensures r.envelope.success && r.envelope.data.ProviderList?
    ensures r.envelope.message ==
      if r.envelope.data.providers == [] then "No providers found" else "Providers retrieved successfully"
    ensures var rows, f, t := r.envelope.data.providers, FilterOf(host, req), db.providers.rows;
      && Sorted(rows, RanksFirst)
      && (forall i :: 0 <= i < |rows| ==>
            rows[i].info.id in t && Matches(f, t[rows[i].info.id])
            && rows[i] == CatalogRowOf(db, rows[i].info.id, t[rows[i].info.id]))
      && (db.providers.Valid() ==>
            forall k :: k in t && Matches(f, t[k]) ==> exists i :: 0 <= i < |rows| && rows[i].info.id == k)
      && (forall i, j :: 0 <= i < j < |rows| ==> rows[i].info.id != rows[j].info.id)
  {
    var f := FilterOf(host, req);
    assert TotalPreorder(RanksFirst);
    var rows := Select(db.providers.rows, db.providers.next, p => Matches(f, p),
                       (k, p) => CatalogRowOf(db, k, p), (x: CatalogRow) => x.info.id, RanksFirst);
    if |rows| > 0 then Response(SendJsonResponse(true, "Providers retrieved successfully", ProviderList(rows)), db, s)
    else Response(SendJsonResponse(true, "No providers found", ProviderList([])), db, s)
  }

  /** Without filter parameters the catalog lists every provider. */
  lemma UnfilteredListsEveryone(host: Host, db: Db, s: Session, req: Request, k: int)
    requires db.providers.Valid() && "category" !in req.params && "rating" !in req.params && "price" !in req.params
    requires k in db.providers.rows
    ensures var rows := GetProviders(host, db, s, req).envelope.data.providers;
      exists i :: 0 <= i < |rows| && rows[i].info.id == k
  {
    assert Matches(FilterOf(host, req), db.providers.rows[k]);
  }

  /** Filters only narrow: whatever a filtered request lists, the unfiltered catalog lists too. */
  lemma FiltersOnlyNarrow(host: Host, db: Db, s: Session, req: Request, all: Request, k: int)
    requires db.providers.Valid() && "category" !in all.params && "rating" !in all.params && "price" !in all.params
    requires var rows := GetProviders(host, db, s, req).envelope.data.providers;
      exists i :: 0 <= i < |rows| && rows[i].info.id == k
    ensures var rows := GetProviders(host, db, s, all).envelope.data.providers;
      exists i :: 0 <= i < |rows| && rows[i].info.id == k
  {
    var rows := GetProviders(host, db, s, req).envelope.data.providers;
    var i :| 0 <= i < |rows| && rows[i].info.id == k;
    UnfilteredListsEveryone(host, db, s, all, k);
  }

  /** `isset($_GET['id']) ? (int)$_GET['id'] : 0`. */
  function RequestedProvider(host: Host, req: Request): int {
    IntParam(host, req, "id")
  }

  /** get-provider: a nonzero id naming a provider gives its public row; no session is needed and nothing changes. */
  function GetProvider(host: Host, db: Db, s: Session, req: Request): (r: Response)
    ensures r.db == db && r.session == s
    ensures !r.envelope.success ==> r.envelope.data == Null
    ensures RequestedProvider(host, req) == 0 ==> r.envelope.message == "Provider ID is required"
    ensures var id := RequestedProvider(host, req);
      r.envelope.success <==> id != 0 && id in db.providers.rows
    ensures var id := RequestedProvider(host, req);
      id != 0 && id !in db.providers.rows ==> r.envelope.message == "Provider not found"
    ensures var id := RequestedProvider(host, req);
      r.envelope.success ==>
        r.envelope.message == "Provider retrieved successfully"
        && r.envelope.data == ProviderDetail(CatalogRowOf(db, id, db.providers.rows[id]))
  {
    var id := RequestedProvider(host, req);
    if id == 0 then Fail("Provider ID is required", db, s)
    else if id !in db.providers.rows then Fail("Provider not found", db, s)
    else Response(SendJsonResponse(true, "Provider retrieved successfully",
                                   ProviderDetail(CatalogRowOf(db, id, db.providers.rows[id]))), db, s)
  }

  /** A provider's detail page shows exactly the row the catalog lists for them. */
  lemma DetailMatchesCatalog(host: Host, db: Db, s: Session, req: Request, detail: Request, i: int)
    requires var rows := GetProviders(host, db, s, req).envelope.data.providers;
      0 <= i < |rows| && rows[i].info.id == RequestedProvider(host, detail) && RequestedProvider(host, detail) != 0
    ensures GetProvider(host, db, s, detail).envelope.success
    ensures GetProvider(host, db, s, detail).envelope.data.provider ==
      GetProviders(host, db, s, req).envelope.data.providers[i]
  {
  }
}
