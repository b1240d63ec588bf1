/**
 * The product controller apart from generateSlug: the listing query of
 * getAllProducts (filters with numbered placeholders, the sort whitelist,
 * LIMIT/OFFSET and the pagination block), updateProduct on top of the
 * shared UPDATE builder, and the soft delete of deleteProduct.
 */
module ProductCatalog {
  import opened Wrappers
  import opened Json
  import opened Text
  import opened Slugs
  import opened SqlUpdate
  import CartStore

  type ProductId = CartStore.ProductId

  // ---------------------------------------------------------------------------
  // Pagination

  datatype Pagination = Pagination(currentPage: nat, totalPages: nat, totalProducts: nat,
                                   hasNextPage: bool, hasPrevPage: bool)

  /** `(page - 1) * limit`: the number of products on the earlier pages. */
  function Offset(page: nat, limit: nat): (offset: int)
    ensures page >= 1 ==> offset >= 0
    ensures offset + limit == page * limit
  {
    (page - 1) * limit
  }

  /** `Math.ceil(total / limit)` on naturals. */
  function CeilDiv(total: nat, limit: nat): (pages: nat)
    requires limit >= 1
    ensures pages * limit >= total
    ensures pages == 0 || (pages - 1) * limit < total
  {
    var q := (total + limit - 1) / limit;
    var r := (total + limit - 1) % limit;
    assert total + limit - 1 == q * limit + r;
    assert (q - 1) * limit == q * limit - limit;
    q
  }

  /** The pagination block of the response. */
  function Paginate(page: nat, limit: nat, total: nat): (p: Pagination)
    requires limit >= 1
    ensures p.currentPage == page && p.totalProducts == total
    ensures p.totalPages * limit >= total && (p.totalPages == 0 || (p.totalPages - 1) * limit < total)
    ensures p.hasPrevPage <==> page > 1
  {
    var totalPages := CeilDiv(total, limit);
    Pagination(page, totalPages, total, page < totalPages, page > 1)
  }

  lemma MulMonotone(a: nat, b: nat, c: nat)
    requires a <= b
    ensures a * c <= b * c
  {
  }

  /** There is a next page exactly when products remain after this one. */
  lemma NextPageHasProducts(page: nat, limit: nat, total: nat)
    requires limit >= 1
    ensures Paginate(page, limit, total).hasNextPage <==> Offset(page + 1, limit) < total
  {
    var t := Paginate(page, limit, total).totalPages;
    if page < t {
      MulMonotone(page, t - 1, limit);
    } else {
      MulMonotone(t, page, limit);
    }
  }

  /** Every product of the listing, counted from 0, sits on exactly one page
      between 1 and totalPages. */
  lemma EveryProductOnSomePage(limit: nat, total: nat, i: nat)
    requires limit >= 1 && i < total
    ensures var page := i / limit + 1;
            1 <= page <= Paginate(page, limit, total).totalPages
            && Offset(page, limit) <= i < Offset(page, limit) + limit
  {
    var page := i / limit + 1;
    var t := CeilDiv(total, limit);
    assert i == (i / limit) * limit + i % limit;
    if t < page {
      MulMonotone(t, page - 1, limit);
    }
  }

  // ---------------------------------------------------------------------------
  // Sorting

  /** The whitelist: `p.name`, `p.price` or `p.created_at`, whatever `sortBy` says. */
  function OrderColumn(sortBy: string): (column: string)
    ensures column == "p.name" || column == "p.price" || column == "p.created_at"
    ensures sortBy == "name" || sortBy == "price" || sortBy == "created_at" ==> column == "p." + sortBy
    ensures sortBy != "name" && sortBy != "price" ==> column == "p.created_at"
  {
    if sortBy == "name" || sortBy == "price" || sortBy == "created_at" then "p." + sortBy else "p.created_at"
  }

  function OrderDirection(sortOrder: string): (direction: string)
    ensures direction == "ASC" || direction == "DESC"
    ensures direction == "ASC" <==> ToLower(sortOrder) == "asc"
  {
    if ToLower(sortOrder) == "asc" then "ASC" else "DESC"
  }

  /** Upper-case spellings of "asc" sort ascending too. */
  lemma AscendingIgnoresCase()
    ensures OrderDirection("ASC") == "ASC" && OrderDirection("Asc") == "ASC"
    ensures OrderDirection("ascending") == "DESC"
  {
    assert ToLower("ASC") == "asc";
    assert ToLower("Asc") == "asc";
    assert |ToLower("ascending")| == 9;
  }

  // ---------------------------------------------------------------------------
  // The listing query

  /** The query string of GET /api/products; None is an absent parameter. Page
      and limit are taken as already parsed to naturals. */
  datatype ProductQuery = ProductQuery(page: Option<nat>, limit: Option<nat>,
                                       category: Option<string>, minPrice: Option<string>,
                                       maxPrice: Option<string>, featured: Option<string>,
                                       sortBy: Option<string>, sortOrder: Option<string>,
                                       search: Option<string>)

  /** The conditions of the WHERE clause; the numbers are placeholder indices. */
  datatype Condition =
    | ActiveOnly                                                // p.is_active = true
    | CategoryIs(ph: nat)                                       // p.category_id = $ph
    | PriceAtLeast(ph: nat)                                     // p.price >= $ph
    | PriceAtMost(ph: nat)                                      // p.price <= $ph
    | FeaturedOnly                                              // p.is_featured = true
    | NameOrDescriptionLike(ph: nat)                            // (p.name ILIKE $ph OR p.description ILIKE $ph)

  /** A bound parameter: text, a price read by parseFloat from its text, or a count. */
  datatype QueryParam = TextParam(s: string) | Price(text: string) | Count(n: int)

  datatype ListingQuery = ListingQuery(conditions: seq<Condition>, params: seq<QueryParam>,
                                       orderColumn: string, direction: string,
                                       limitPh: nat, offsetPh: nat)

  /** A query-string parameter is truthy when it is there and not empty. */
  predicate Present(p: Option<string>)
  {
    p.Some? && p.value != []
  }

  /** The placeholder a condition takes, once even when it uses it twice. */
  function PlaceholderOf(c: Condition): seq<nat>
  {
    match c
    case CategoryIs(ph) => [ph]
    case PriceAtLeast(ph) => [ph]
    case PriceAtMost(ph) => [ph]
    case NameOrDescriptionLike(ph) => [ph]
    case _ => []
  }

  function Placeholders(conds: seq<Condition>): seq<nat>
  {
    if conds == [] then [] else Placeholders(conds[..|conds| - 1]) + PlaceholderOf(conds[|conds| - 1])
  }

  /** The parameter a condition pushes, its filter's value. */
  function ParamOf(c: Condition, q: ProductQuery): seq<QueryParam>
  {
    match c
    case CategoryIs(_) => [TextParam(q.category.GetOr([]))]
    case PriceAtLeast(_) => [Price(q.minPrice.GetOr([]))]
    case PriceAtMost(_) => [Price(q.maxPrice.GetOr([]))]
    case NameOrDescriptionLike(_) => [TextParam("%" + q.search.GetOr([]) + "%")]
    case _ => []
  }

  function ParamsOf(conds: seq<Condition>, q: ProductQuery): seq<QueryParam>
  {
    if conds == [] then [] else ParamsOf(conds[..|conds| - 1], q) + ParamOf(conds[|conds| - 1], q)
  }

  /** The placeholders run $1, $2, $3, ... with no gap and no repeat. */
  predicate Consecutive(phs: seq<nat>)
  {
    forall i :: 0 <= i < |phs| ==> phs[i] == i + 1
  }

  /** The kind of a condition, placeholders aside. */
  datatype Kind = Active | Category | MinPrice | MaxPrice | Featured | Search

  function KindOf(c: Condition): Kind
  {
    match c
    case ActiveOnly => Active
    case CategoryIs(_) => Category
    case PriceAtLeast(_) => MinPrice
    case PriceAtMost(_) => MaxPrice
    case FeaturedOnly => Featured
    case NameOrDescriptionLike(_) => Search
  }

  /** The kinds of the conditions, in their order. */
  function KindsOf(conds: seq<Condition>): (ks: seq<Kind>)
    ensures |ks| == |conds|
  {
    seq(|conds|, i requires 0 <= i < |conds| => KindOf(conds[i]))
  }

  /** `[k]` when the filter applies, nothing otherwise. */
  function If(applies: bool, k: Kind): seq<Kind>
  {
    if applies then [k] else []
  }

  /** The condition refers to the parameter that carries its own filter value. */
  predicate BoundTo(c: Condition, q: ProductQuery, params: seq<QueryParam>)
  {
    match c
    case CategoryIs(ph) => q.category.Some? && 1 <= ph <= |params| && params[ph - 1] == TextParam(q.category.value)
    case PriceAtLeast(ph) => q.minPrice.Some? && 1 <= ph <= |params| && params[ph - 1] == Price(q.minPrice.value)
    case PriceAtMost(ph) => q.maxPrice.Some? && 1 <= ph <= |params| && params[ph - 1] == Price(q.maxPrice.value)
    case NameOrDescriptionLike(ph) =>
      q.search.Some? && 1 <= ph <= |params| && params[ph - 1] == TextParam("%" + q.search.value + "%")
    case _ => true
  }

  /** The filters that put a condition in are all present. */
  predicate FiltersPresent(conds: seq<Condition>, q: ProductQuery)
  {
    && (Category in KindsOf(conds) ==> Present(q.category))
    && (MinPrice in KindsOf(conds) ==> Present(q.minPrice))
    && (MaxPrice in KindsOf(conds) ==> Present(q.maxPrice))
    && (Search in KindsOf(conds) ==> Present(q.search))
  }

  /** The WHERE clause built so far: it starts with the active-only condition, its
      placeholders are $1..$(paramCount-1) in order, and the parameters are the
      values of its filters in the same order. */
  predicate Numbered(conds: seq<Condition>, params: seq<QueryParam>, paramCount: nat, q: ProductQuery)
  {
    && |conds| >= 1 && conds[0] == ActiveOnly
    && paramCount >= 1 && |params| == paramCount - 1
    && |Placeholders(conds)| == paramCount - 1 && Consecutive(Placeholders(conds))
    && params == ParamsOf(conds, q)
  }

  lemma AppendCondition(conds: seq<Condition>, c: Condition, q: ProductQuery)
    ensures Placeholders(conds + [c]) == Placeholders(conds) + PlaceholderOf(c)
    ensures ParamsOf(conds + [c], q) == ParamsOf(conds, q) + ParamOf(c, q)
    ensures KindsOf(conds + [c]) == KindsOf(conds) + [KindOf(c)]
    ensures |conds| >= 1 ==> (conds + [c])[0] == conds[0]
  {
    assert (conds + [c])[..|conds|] == conds;
    KindsAppend(conds, c);
  }

  lemma KindsAppend(conds: seq<Condition>, c: Condition)
    ensures KindsOf(conds + [c]) == KindsOf(conds) + [KindOf(c)]
  {
    var a, b := KindsOf(conds + [c]), KindsOf(conds) + [KindOf(c)];
    assert |a| == |b|;
    forall i | 0 <= i < |a|
      ensures a[i] == b[i]
    {
      if i < |conds| {
        assert (conds + [c])[i] == conds[i];
      }
    }
  }

  /** One filter with a value: its condition takes $paramCount and its value is
      pushed. */
  lemma NumberedStep(conds: seq<Condition>, params: seq<QueryParam>, paramCount: nat,
                     q: ProductQuery, c: Condition, p: QueryParam)
    requires Numbered(conds, params, paramCount, q)
    requires !c.ActiveOnly? && !c.FeaturedOnly? && c.ph == paramCount && p == ParamOf(c, q)[0]
    ensures Numbered(conds + [c], params + [p], paramCount + 1, q)
    ensures KindsOf(conds + [c]) == KindsOf(conds) + [KindOf(c)]
  {
    AppendCondition(conds, c, q);
  }

  lemma {:induction false} ParamsCount(conds: seq<Condition>, q: ProductQuery)
    ensures |ParamsOf(conds, q)| == |Placeholders(conds)|
  {
    if conds != [] {
      ParamsCount(conds[..|conds| - 1], q);
    }
  }

  /** The last condition of a clause numbered from $1 takes the parameter pushed last. */
  lemma LastBound(front: seq<Condition>, last: Condition, q: ProductQuery, extra: seq<QueryParam>)
    requires Consecutive(Placeholders(front) + PlaceholderOf(last))
    requires |ParamsOf(front, q)| == |Placeholders(front)|
    requires last.CategoryIs? ==> Present(q.category)
    requires last.PriceAtLeast? ==> Present(q.minPrice)
    requires last.PriceAtMost? ==> Present(q.maxPrice)
    requires last.NameOrDescriptionLike? ==> Present(q.search)
    ensures BoundTo(last, q, ParamsOf(front, q) + (ParamOf(last, q) + extra))
  {
    var n := |Placeholders(front)|;
    if PlaceholderOf(last) != [] {
      assert (Placeholders(front) + PlaceholderOf(last))[n] == PlaceholderOf(last)[0];
      assert (ParamsOf(front, q) + (ParamOf(last, q) + extra))[n] == ParamOf(last, q)[0];
    }
  }

  /** Every condition of the clause is bound to its own filter's value. */
  predicate AllBound(conds: seq<Condition>, q: ProductQuery, params: seq<QueryParam>)
  {
    conds != [] ==> BoundTo(conds[|conds| - 1], q, params) && AllBound(conds[..|conds| - 1], q, params)
  }

  lemma {:induction false} AllBoundExtends(conds: seq<Condition>, q: ProductQuery, params: seq<QueryParam>,
                                           extra: seq<QueryParam>)
    requires AllBound(conds, q, params)
    ensures AllBound(conds, q, params + extra)
  {
    if conds != [] {
      AllBoundExtends(conds[..|conds| - 1], q, params, extra);
    }
  }

  lemma {:induction false} AllBoundEach(conds: seq<Condition>, q: ProductQuery, params: seq<QueryParam>)
    requires AllBound(conds, q, params)
    ensures forall i :: 0 <= i < |conds| ==> BoundTo(conds[i], q, params)
  {
    if conds != [] {
      var front := conds[..|conds| - 1];
      AllBoundEach(front, q, params);
      assert forall i :: 0 <= i < |front| ==> conds[i] == front[i];
    }
  }

  /** The bindings of the WHERE clause survive LIMIT and OFFSET being pushed after
      its parameters. */
  lemma ClauseBound(conds: seq<Condition>, q: ProductQuery, extra: seq<QueryParam>)
    requires Consecutive(Placeholders(conds))
    requires FiltersPresent(conds, q)
    ensures forall i :: 0 <= i < |conds| ==> BoundTo(conds[i], q, ParamsOf(conds, q) + extra)
  {
    ParamsBound(conds, q);
    AllBoundExtends(conds, q, ParamsOf(conds, q), extra);
    AllBoundEach(conds, q, ParamsOf(conds, q) + extra);
  }

  /** A clause whose placeholders run $1, $2, ... in order, over parameters pushed
      in the same order, binds every condition to its own filter's value. */
  lemma {:induction false} ParamsBound(conds: seq<Condition>, q: ProductQuery)
    requires Consecutive(Placeholders(conds))
    requires FiltersPresent(conds, q)
    ensures AllBound(conds, q, ParamsOf(conds, q))
  {
    if conds != [] {
      var front, last := conds[..|conds| - 1], conds[|conds| - 1];
      assert front + [last] == conds;
      AppendCondition(front, last, q);
      assert Consecutive(Placeholders(front)) by {
        assert forall i :: 0 <= i < |Placeholders(front)| ==> Placeholders(front)[i] == Placeholders(conds)[i];
      }
      assert KindOf(last) in KindsOf(conds);
      ParamsBound(front, q);
      AllBoundExtends(front, q, ParamsOf(front, q), ParamOf(last, q));
      ParamsCount(front, q);
      LastBound(front, last, q, []);
      assert ParamOf(last, q) + [] == ParamOf(last, q);
    }
  }

  /** The clause before any filter: the active-only condition and no parameter. */
  lemma NumberedStart(q: ProductQuery)
    ensures Numbered([ActiveOnly], [], 1, q)
    ensures KindsOf([ActiveOnly]) == [Active]
  {
    var start := [ActiveOnly];
    assert start[..0] == [];
  }

  /** One `if (filter) { whereClause += ...; queryParams.push(value); paramCount++; }`:
      when the filter is present its condition takes $paramCount and its value is
      pushed; otherwise nothing changes. */
  method PushFilter(conds: seq<Condition>, params: seq<QueryParam>, paramCount: nat, ghost q: ProductQuery,
                    ghost kinds: seq<Kind>, present: bool, c: Condition, p: QueryParam)
    returns (conds': seq<Condition>, params': seq<QueryParam>, paramCount': nat)
    requires Numbered(conds, params, paramCount, q) && KindsOf(conds) == kinds
    requires !c.ActiveOnly? && !c.FeaturedOnly? && c.ph == paramCount && p == ParamOf(c, q)[0]
    ensures Numbered(conds', params', paramCount', q)
    ensures KindsOf(conds') == kinds + If(present, KindOf(c))
  {
    conds', params', paramCount' := conds, params, paramCount;
    if present {
      NumberedStep(conds, params, paramCount, q, c, p);
      conds' := conds + [c];
      params' := params + [p];
      paramCount' := paramCount + 1;
    } else {
      assert KindsOf(conds) + [] == KindsOf(conds);
    }
  }

  /** `if (featured === 'true') whereClause += ...`: a condition and no parameter. */
  method PushFeatured(conds: seq<Condition>, params: seq<QueryParam>, paramCount: nat, ghost q: ProductQuery,
                      ghost kinds: seq<Kind>, featured: bool)
    returns (conds': seq<Condition>)
    requires Numbered(conds, params, paramCount, q) && KindsOf(conds) == kinds
    ensures Numbered(conds', params, paramCount, q)
    ensures KindsOf(conds') == kinds + If(featured, Featured)
  {
    conds' := conds;
    if featured {
      AppendCondition(conds, FeaturedOnly, q);
      conds' := conds + [FeaturedOnly];
    } else {
      assert KindsOf(conds) + [] == KindsOf(conds);
    }
  }

  /** The conditions the filters of a query call for, in the order of the source. */
  function FilterKinds(q: ProductQuery): seq<Kind>
  {
    [Active] + If(Present(q.category), Category) + If(Present(q.minPrice), MinPrice)
    + If(Present(q.maxPrice), MaxPrice) + If(q.featured == Some("true"), Featured)
    + If(Present(q.search), Search)
  }

  /** A condition is in the clause exactly when its filter is given: a non-empty
      value, or "true" for featured. */
  lemma FilterKindsPresent(q: ProductQuery)
    ensures Present(q.category) <==> Category in FilterKinds(q)
    ensures Present(q.minPrice) <==> MinPrice in FilterKinds(q)
    ensures Present(q.maxPrice) <==> MaxPrice in FilterKinds(q)
    ensures q.featured == Some("true") <==> Featured in FilterKinds(q)
    ensures Present(q.search) <==> Search in FilterKinds(q)
  {
  }

  /** The filter part of getAllProducts: WHERE grows one condition per present
      filter, and each filter with a value pushes one parameter and takes the
      next placeholder; a featured filter adds a condition and no parameter. */
  method BuildWhere(q: ProductQuery) returns (conds: seq<Condition>, params: seq<QueryParam>, paramCount: nat)
    ensures Numbered(conds, params, paramCount, q)
    ensures KindsOf(conds) == FilterKinds(q)
  {
    conds, params, paramCount := [ActiveOnly], [], 1;
    NumberedStart(q);

    ghost var kinds := [Active];
    conds, params, paramCount := PushFilter(conds, params, paramCount, q, kinds, Present(q.category),
                                            CategoryIs(paramCount), TextParam(q.category.GetOr([])));
    kinds := kinds + If(Present(q.category), Category);
    conds, params, paramCount := PushFilter(conds, params, paramCount, q, kinds, Present(q.minPrice),
                                            PriceAtLeast(paramCount), Price(q.minPrice.GetOr([])));
    kinds := kinds + If(Present(q.minPrice), MinPrice);
    conds, params, paramCount := PushFilter(conds, params, paramCount, q, kinds, Present(q.maxPrice),
                                            PriceAtMost(paramCount), Price(q.maxPrice.GetOr([])));
    kinds := kinds + If(Present(q.maxPrice), MaxPrice);
    conds := PushFeatured(conds, params, paramCount, q, kinds, q.featured == Some("true"));
    kinds := kinds + If(q.featured == Some("true"), Featured);
    conds, params, paramCount := PushFilter(conds, params, paramCount, q, kinds, Present(q.search),
                                            NameOrDescriptionLike(paramCount), TextParam("%" + q.search.GetOr([]) + "%"));
  }

  /** getAllProducts up to the two queries: the WHERE clause, then the sort
      column and direction, and LIMIT and OFFSET at the two placeholders after
      the filters'. */
  method BuildListingQuery(q: ProductQuery) returns (lq: ListingQuery)
    ensures |lq.conditions| >= 1 && lq.conditions[0] == ActiveOnly
    ensures |Placeholders(lq.conditions)| == lq.limitPh - 1 && Consecutive(Placeholders(lq.conditions))
    ensures forall i :: 0 <= i < |lq.conditions| ==> BoundTo(lq.conditions[i], q, lq.params)
    ensures Present(q.category) <==> Category in KindsOf(lq.conditions)
    ensures Present(q.minPrice) <==> MinPrice in KindsOf(lq.conditions)
    ensures Present(q.maxPrice) <==> MaxPrice in KindsOf(lq.conditions)
    ensures q.featured == Some("true") <==> Featured in KindsOf(lq.conditions)
    ensures Present(q.search) <==> Search in KindsOf(lq.conditions)
    ensures lq.limitPh >= 1 && |lq.params| == lq.limitPh + 1 && lq.offsetPh == lq.limitPh + 1
    ensures lq.params[lq.limitPh - 1] == Count(q.limit.GetOr(20))
    ensures lq.params[lq.offsetPh - 1] == Count(Offset(q.page.GetOr(1), q.limit.GetOr(20)))
    ensures lq.orderColumn == OrderColumn(q.sortBy.GetOr("created_at"))
    ensures lq.direction == OrderDirection(q.sortOrder.GetOr("desc"))
  {
    var page := q.page.GetOr(1);
    var limit := q.limit.GetOr(20);
    var offset := Offset(page, limit);
    var conds, params, paramCount := BuildWhere(q);
    FilterKindsPresent(q);
    ClauseBound(conds, q, [Count(limit), Count(offset)]);

    var column := OrderColumn(q.sortBy.GetOr("created_at"));
    var direction := OrderDirection(q.sortOrder.GetOr("desc"));
    params := params + [Count(limit), Count(offset)];
    lq := ListingQuery(conds, params, column, direction, paramCount, paramCount + 1);
  }

  // ---------------------------------------------------------------------------
  // updateProduct

  datatype UpdateError =
    | NoFieldsToUpdate   // 400 "No fields to update"
    | ProductNotFound    // 404 "Product not found"
    | ServerError        // 500: a truthy `name` that is not a string has no toLowerCase

  /** The body after the undefined keys are dropped and, when `name` is truthy,
      `slug` is set to the slug of that name. */
  function ProductPatch(body: seq<Field>): (r: Result<seq<Field>, UpdateError>)
  {
    var defined := Defined(body);
    if defined == [] then Err(NoFieldsToUpdate)
    else match Get(defined, "name")
      case Some(Some(name)) =>
        if !Truthy(name) then Ok(defined)
        else if name.JString? then Ok(Set(defined, "slug", JString(GenerateSlug(name.s))))
        else Err(ServerError)
      case _ => Ok(defined)
  }

  /** What the patch is made of: only defined values, the keys of the body with
      at most `slug` added, and nothing of the body lost but an old slug. */
  lemma PatchFields(body: seq<Field>)
    ensures ProductPatch(body) == Err(NoFieldsToUpdate) <==> Defined(body) == []
    ensures ProductPatch(body).Ok? ==>
              var fields := ProductPatch(body).value;
              && (forall i :: 0 <= i < |fields| ==> fields[i].value.Some?)
              && (forall i :: 0 <= i < |fields| ==> fields[i] in Defined(body) || fields[i].key == "slug")
              && (forall i :: 0 <= i < |Defined(body)| && Defined(body)[i].key != "slug" ==> Defined(body)[i] in fields)
  {
    var defined := Defined(body);
    if defined != [] {
      var name := Get(defined, "name");
      if name.Some? && name.value.Some? && Truthy(name.value.value) && name.value.value.JString? {
        SetKeepsAll(defined, "slug", JString(GenerateSlug(name.value.value.s)));
      }
    }
  }

  /** An object's keys stay distinct through the patch. */
  lemma PatchKeepsKeysDistinct(body: seq<Field>)
    requires DistinctKeys(body) && ProductPatch(body).Ok?
    ensures DistinctKeys(ProductPatch(body).value)
  {
    var defined := Defined(body);
    DefinedKeepsKeysDistinct(body);
  }

  /** A non-empty string name puts its slug into the patch, over any slug the
      body carries. */
  lemma PatchSetsSlug(body: seq<Field>, name: string)
    requires name != [] && Get(Defined(body), "name") == Some(Some(JString(name)))
    ensures ProductPatch(body).Ok?
    ensures Get(ProductPatch(body).value, "slug") == Some(Some(JString(GenerateSlug(name))))
  {
    var defined := Defined(body);
    assert defined != [] by {
      assert IndexOf(defined, "name") < |defined|;
    }
    var slug := JString(GenerateSlug(name));
    assert Truthy(JString(name));
    assert ProductPatch(body) == Ok(Set(defined, "slug", slug));
  }

  lemma SetKeepsAll(fields: seq<Field>, key: string, value: JsonValue)
    ensures var r := Set(fields, key, value);
            (forall i :: 0 <= i < |r| ==> r[i] in fields || r[i].key == key)
            && (forall i :: 0 <= i < |fields| && fields[i].key != key ==> fields[i] in r)
            && ((forall i :: 0 <= i < |fields| ==> fields[i].value.Some?) ==> forall i :: 0 <= i < |r| ==> r[i].value.Some?)
  {
  }

  lemma DefinedKeepsKeysDistinct(body: seq<Field>)
    requires DistinctKeys(body)
    ensures DistinctKeys(Defined(body))
  {
  }

  /** A truthy name that is not a string makes the handler fail before any query;
      it is the only server error of the patch. */
  lemma NonStringNameFails(body: seq<Field>)
    ensures ProductPatch(body) == Err(ServerError) <==>
              exists v :: Get(Defined(body), "name") == Some(Some(v)) && Truthy(v) && !v.JString?
  {
  }

  // ---------------------------------------------------------------------------
  // The products table

  class ProductTable {
    var products: map<ProductId, CartStore.Product>

    constructor (initial: map<ProductId, CartStore.Product>)
      ensures products == initial
    {
      products := initial;
    }

    /** updateProduct: the statement it sends, or the first failure. The UPDATE
        matches only an active product; its SET list is not applied here. */
    method UpdateProduct(id: ProductId, body: seq<Field>) returns (r: Result<UpdateStatement, UpdateError>)
      ensures r == Err(NoFieldsToUpdate) <==> Defined(body) == []
      ensures r.Ok? <==> ProductPatch(body).Ok? && id in products && products[id].active
      ensures r.Err? && r.error == ProductNotFound <==> ProductPatch(body).Ok? && !(id in products && products[id].active)
      ensures r.Ok? ==> Binds(r.value, ProductPatch(body).value, id)
    {
      var updateData := DropUndefined(body);
      if updateData == [] {
        return Err(NoFieldsToUpdate);
      }
      var name := Get(updateData, "name");
      if name.Some? && name.value.Some? && Truthy(name.value.value) {
        if !name.value.value.JString? {
          return Err(ServerError);
        }
        updateData := Set(updateData, "slug", JString(GenerateSlug(name.value.value.s)));
      }
      PatchFields(body);
      assert ProductPatch(body) == Ok(updateData);
      var stmt := BuildUpdate(updateData, id);
      if !(id in products && products[id].active) {
        return Err(ProductNotFound);
      }
      r := Ok(stmt);
    }

    /** deleteProduct: the UPDATE ... SET is_active = false WHERE id AND is_active. */
    method DeleteProduct(id: ProductId) returns (r: Result<(), UpdateError>)
      modifies this
      ensures r.Ok? <==> id in old(products) && old(products)[id].active
      ensures r.Err? ==> r.error == ProductNotFound && products == old(products)
      ensures r.Ok? ==> products == old(products)[id := old(products)[id].(active := false)]
    {
      if id in products && products[id].active {
        products := products[id := products[id].(active := false)];
        r := Ok(());
      } else {
        r := Err(ProductNotFound);
      }
    }
  }

  /** After a soft delete, a second delete has nothing to match, adding the
      product to a cart fails as unavailable, and carts still show their lines
      of it, flagged inactive. */
  lemma {:induction false} SoftDeleteEffects(products: map<ProductId, CartStore.Product>, id: ProductId,
                                             rows: seq<CartStore.CartRow>, u: CartStore.UserId)
    requires id in products
    ensures var after := products[id := products[id].(active := false)];
            && !(id in after && after[id].active)
            && (forall held: Option<nat>, q: nat :: q >= 1 ==>
                  CartStore.AddDecision(Lookup(after, id), held, q) == Err(CartStore.ProductUnavailable))
            && |CartStore.Lines(after, rows, u)| == |CartStore.Lines(products, rows, u)|
            && (forall i :: 0 <= i < |CartStore.Lines(after, rows, u)| ==>
                  var line := CartStore.Lines(after, rows, u)[i];
                  var before := CartStore.Lines(products, rows, u)[i];
                  && line.product == before.product && line.quantity == before.quantity
                  && line.productActive == (before.productActive && line.product != id))
  {
    var after := products[id := products[id].(active := false)];
    if rows != [] {
      var front := rows[..|rows| - 1];
      SoftDeleteEffects(products, id, front, u);
    }
  }
}
