/**
 * The item catalog route: a single-slot, five-minute cache of the upstream
 * catalog, cleaned of upstream-only fields when it is refreshed, and
 * filtered per request by category, rarity and name.
 */
module ItemInfo {
  import opened Wrappers
  import opened Text
  import opened Json
  import opened Http

  /** `CACHE_DURATION`: five minutes, in milliseconds. */
  const CacheDuration: int := 5 * 60 * 1000

  // ------------------------------------------------------------ normalization

  /** `delete item.id; delete item.trend` on a list element that is not null (a no-op on non-objects). */
  function StripItem(item: Value): Value {
    if item.Obj? then Obj(item.fields - {"id", "trend"}) else item
  }

  /** The `forEach` over the items: each loses `id` and `trend`; a null element makes `delete` throw (None). */
  function StripItems(items: seq<Value>): Option<seq<Value>> {
    if exists i :: 0 <= i < |items| && items[i].Null? then None
    else Some(seq(|items|, i requires 0 <= i < |items| => StripItem(items[i])))
  }

  /**
   * The cleaned catalog, as the parsed response stands after the deletes
   * of `fetchAndUpdateData`: no `pagination`, no `id` or `trend` on any
   * item. None when a `delete` throws (a null response or a null item).
   */
  function Normalize(body: Value): Option<Value> {
    match body
    case Null => None
    case Obj(m) =>
      var m' := m - {"pagination"};
      if "items" in m' && m'["items"].Arr? then
        match StripItems(m'["items"].elems)
        case None => None
        case Some(xs) => Some(Obj(m'["items" := Arr(xs)]))
      else Some(Obj(m'))
    case _ => Some(body)
  }

  /** What the cache may hold: a cleaned response. */
  ghost predicate Normalized(v: Value) {
    && v != Null
    && (v.Obj? ==> "pagination" !in v.fields)
    && (v.Obj? && "items" in v.fields && v.fields["items"].Arr? ==>
          forall x :: x in v.fields["items"].elems ==> x != Null && (x.Obj? ==> "id" !in x.fields && "trend" !in x.fields))
  }

  /** The cleanup as the handler does it: delete `pagination`, then walk the items deleting `id` and `trend` in place. */
  method NormalizeResponse(body: Value) returns (r: Option<Value>)
    ensures r == Normalize(body)
  {
    if body.Null? {
      return None;
    }
    if !body.Obj? {
      return Some(body);
    }
    var fields := body.fields - {"pagination"};
    if "items" in fields && fields["items"].Arr? {
      var items := fields["items"].elems;
      ghost var original := items;
      var i := 0;
      while i < |items|
        invariant 0 <= i <= |items| == |original|
        invariant forall k :: 0 <= k < i ==> !original[k].Null? && items[k] == StripItem(original[k])
        invariant forall k :: i <= k < |items| ==> items[k] == original[k]
      {
        if items[i].Null? {
          assert original[i].Null?;
          return None;
        }
        items := items[i := StripItem(items[i])];
        i := i + 1;
      }
      assert items == seq(|original|, k requires 0 <= k < |original| => StripItem(original[k]));
      fields := fields["items" := Arr(items)];
    }
    return Some(Obj(fields));
  }

  /** The cleanup fails exactly when the response is null or one of its listed items is null. */
  lemma NormalizeFailsIff(body: Value)
    ensures Normalize(body).None? <==>
      || body == Null
      || (body.Obj? && "items" in body.fields && body.fields["items"].Arr? && Null in body.fields["items"].elems)
  {
    if body.Obj? && "items" in body.fields && body.fields["items"].Arr? {
      var xs := body.fields["items"].elems;
      if Null in xs {
        var i :| 0 <= i < |xs| && xs[i] == Null;
      }
    }
  }

  /**
   * On an object, the cleanup removes `pagination` and nothing else from
   * the top level; every other top-level key keeps its value, except that
   * a list under `items` keeps its length and order and each of its
   * objects loses exactly `id` and `trend`.
   */
  lemma NormalizeObject(m: map<string, Value>)
    requires Normalize(Obj(m)).Some?
    ensures var v := Normalize(Obj(m)).value;
      && v.Obj? && v.fields.Keys == m.Keys - {"pagination"}
      && (forall k :: k in v.fields && k != "items" ==> v.fields[k] == m[k])
      && ("items" in m && !m["items"].Arr? ==> v.fields["items"] == m["items"])
      && ("items" in m && m["items"].Arr? ==>
            && v.fields["items"].Arr?
            && |v.fields["items"].elems| == |m["items"].elems|
            && forall i :: 0 <= i < |m["items"].elems| ==>
                 var x, y := m["items"].elems[i], v.fields["items"].elems[i];
                 (x.Obj? ==> y == Obj(x.fields - {"id", "trend"})) && (!x.Obj? ==> y == x))
  {
  }

  /** Values that are not objects pass through the cleanup unchanged (null aside, which throws). */
  lemma NormalizeNonObject(body: Value)
    requires !body.Obj? && body != Null
    ensures Normalize(body) == Some(body)
  {
  }

  /** The cleanup's result is a cleaned response, and cleaning it again changes nothing. */
  lemma NormalizeIdempotent(body: Value)
    requires Normalize(body).Some?
    ensures Normalized(Normalize(body).value)
    ensures Normalize(Normalize(body).value) == Normalize(body)
  {
    var v := Normalize(body).value;
    if body.Obj? {
      var m' := body.fields - {"pagination"};
      if "items" in m' && m'["items"].Arr? {
        var xs := m'["items"].elems;
        var ys := StripItems(xs).value;
        assert v.fields["items"].elems == ys;
        forall x | x in ys ensures x != Null && (x.Obj? ==> "id" !in x.fields && "trend" !in x.fields) {
          var i :| 0 <= i < |ys| && ys[i] == x;
          assert !xs[i].Null?;
        }
        forall i | 0 <= i < |ys| ensures StripItem(ys[i]) == ys[i] {
          assert ys[i] in ys;
          if ys[i].Obj? {
            assert ys[i].fields - {"id", "trend"} == ys[i].fields;
          }
        }
        assert !exists i :: 0 <= i < |ys| && ys[i].Null? by {
          forall i | 0 <= i < |ys| ensures !ys[i].Null? { assert ys[i] in ys; }
        }
        assert seq(|ys|, i requires 0 <= i < |ys| => StripItem(ys[i])) == ys;
        assert StripItems(ys) == Some(ys);
        assert v.fields - {"pagination"} == v.fields;
        assert v.fields["items" := Arr(ys)] == v.fields;
      } else {
        assert v.fields - {"pagination"} == v.fields;
      }
    }
  }

  /** The catalog example: one item with `id` and `trend`, plus pagination, cleans to the item's other three fields. */
  lemma NormalizeCarrot()
    ensures
      var carrot := map["id" := Num(1.0), "name" := Str("Carrot"), "category" := Str("Vegetable"),
                        "rarity" := Str("Common"), "trend" := Str("up")];
      var body := Obj(map["items" := Arr([Obj(carrot)]), "pagination" := Obj(map["page" := Num(1.0)])]);
      Normalize(body) == Some(Obj(map["items" := Arr([Obj(map["name" := Str("Carrot"),
                                   "category" := Str("Vegetable"), "rarity" := Str("Common")])])]))
  {
    var carrot := map["id" := Num(1.0), "name" := Str("Carrot"), "category" := Str("Vegetable"),
                      "rarity" := Str("Common"), "trend" := Str("up")];
    var cleaned := map["name" := Str("Carrot"), "category" := Str("Vegetable"), "rarity" := Str("Common")];
    assert carrot - {"id", "trend"} == cleaned;
    var body := Obj(map["items" := Arr([Obj(carrot)]), "pagination" := Obj(map["page" := Num(1.0)])]);
    assert body.fields - {"pagination"} == map["items" := Arr([Obj(carrot)])];
    assert StripItem(Obj(carrot)) == Obj(cleaned);
    assert seq(1, i requires 0 <= i < 1 => StripItem([Obj(carrot)][i])) == [Obj(cleaned)];
    assert StripItems([Obj(carrot)]) == Some([Obj(cleaned)]);
    assert map["items" := Arr([Obj(carrot)])]["items" := Arr([Obj(cleaned)])] == map["items" := Arr([Obj(cleaned)])];
  }

  // ------------------------------------------------------------ filterItems

  /** The criteria of `filterItems`; "" stands for an absent criterion (both are falsy and read alike). */
  datatype Filters = Filters(category: string, rarity: string, name: string)

  /** `item[key]` when it is a string. */
  function StrProp(item: Value, key: string): Option<string> {
    match Prop(item, key)
    case Some(Str(s)) => Some(s)
    case _ => None
  }

  /** One criterion of the callback: absent matches; present, the field must be a string or `toLowerCase` throws (None). */
  function Criterion(item: Value, key: string, want: string, substring: bool): Option<bool> {
    if want == "" then Some(true)
    else
      match StrProp(item, key)
      case None => None
      case Some(s) => Some(if substring then Contains(Lower(s), Lower(want)) else Lower(s) == Lower(want))
  }

  /** The callback of `items.filter`: the three criteria, ANDed; None when one of them throws. */
  function Keep(item: Value, f: Filters): Option<bool> {
    var c := Criterion(item, "category", f.category, false);
    var r := Criterion(item, "rarity", f.rarity, false);
    var n := Criterion(item, "name", f.name, true);
    if c.None? || r.None? || n.None? then None else Some(c.value && r.value && n.value)
  }

  /**
   * Whether an item matches, stated directly: category and rarity equal
   * the criterion ignoring case, the name contains it ignoring case, each
   * unless that criterion is absent.
   */
  ghost predicate Matches(item: Value, f: Filters) {
    && (f.category == "" || (StrProp(item, "category").Some? && Lower(StrProp(item, "category").value) == Lower(f.category)))
    && (f.rarity == "" || (StrProp(item, "rarity").Some? && Lower(StrProp(item, "rarity").value) == Lower(f.rarity)))
    && (f.name == "" || (StrProp(item, "name").Some? && Contains(Lower(StrProp(item, "name").value), Lower(f.name))))
  }

  /** Evaluating the callback on an item throws: a present criterion meets a field that is not a string. */
  ghost predicate Throws(item: Value, f: Filters) {
    || (f.category != "" && StrProp(item, "category").None?)
    || (f.rarity != "" && StrProp(item, "rarity").None?)
    || (f.name != "" && StrProp(item, "name").None?)
  }

  /** `ys` is `xs` with some elements left out and the rest in their original order. */
  ghost predicate IsSubsequence<T>(ys: seq<T>, xs: seq<T>)
    decreases |xs|
  {
    ys == [] || (xs != [] && ((ys[0] == xs[0] && IsSubsequence(ys[1..], xs[1..])) || IsSubsequence(ys, xs[1..])))
  }

  /**
   * `filterItems`: the items that match, in their original order; None
   * when the callback throws on some item.
   */
  function FilterItems(items: seq<Value>, f: Filters): (r: Option<seq<Value>>)
    ensures r.None? <==> exists i :: 0 <= i < |items| && Throws(items[i], f)
    ensures r.Some? ==> IsSubsequence(r.value, items)
    ensures r.Some? ==> forall x :: x in r.value ==> Matches(x, f)
    ensures r.Some? ==> forall x :: x in items && Matches(x, f) ==> x in r.value
    ensures r.Some? ==> forall x :: multiset(r.value)[x] == if Matches(x, f) then multiset(items)[x] else 0
  {
    if items == [] then Some([])
    else
      var rest := FilterItems(items[1..], f);
      assert forall i :: 1 <= i < |items| ==> items[i] == items[1..][i - 1];
      assert multiset(items) == multiset{items[0]} + multiset(items[1..]) by {
        assert items == [items[0]] + items[1..];
      }
      KeepMatches(items[0], f);
      match Keep(items[0], f)
      case None => None
      case Some(k) =>
        if rest.None? then None
        else
          var ys := if k then [items[0]] + rest.value else rest.value;
          assert k ==> ys[1..] == rest.value;
          assert k ==> multiset(ys) == multiset{items[0]} + multiset(rest.value);
          Some(ys)
  }

  /** Every item matches no criteria: with all three absent the output is the input. */
  lemma {:induction false} FilterNoCriteria(items: seq<Value>)
    ensures FilterItems(items, Filters("", "", "")) == Some(items)
  {
    if items != [] {
      FilterNoCriteria(items[1..]);
      assert [items[0]] + items[1..] == items;
    }
  }

  /** A list whose items all match filters to itself. */
  lemma {:induction false} FilterAllMatching(items: seq<Value>, f: Filters)
    requires forall x :: x in items ==> Matches(x, f)
    ensures FilterItems(items, f) == Some(items)
  {
    if items != [] {
      var x, rest := items[0], items[1..];
      assert x in items;
      KeepMatches(x, f);
      assert forall y :: y in rest ==> y in items;
      FilterAllMatching(rest, f);
      assert items == [x] + rest;
    }
  }

  /** The callback throws exactly when `Throws` holds, and keeps an item exactly when it `Matches`. */
  lemma KeepMatches(item: Value, f: Filters)
    ensures Keep(item, f).None? <==> Throws(item, f)
    ensures Keep(item, f) == Some(true) <==> Matches(item, f)
  {
  }

  /** Filtering twice with the same criteria is filtering once. */
  lemma FilterIdempotent(items: seq<Value>, f: Filters)
    requires FilterItems(items, f).Some?
    ensures FilterItems(FilterItems(items, f).value, f) == FilterItems(items, f)
  {
    FilterAllMatching(FilterItems(items, f).value, f);
  }

  /** Criteria that differ only in letter case select the same items. */
  lemma {:induction false} FilterIgnoresCase(items: seq<Value>, f: Filters, g: Filters)
    requires Lower(f.category) == Lower(g.category) && Lower(f.rarity) == Lower(g.rarity) && Lower(f.name) == Lower(g.name)
    ensures FilterItems(items, f) == FilterItems(items, g)
  {
    assert |f.category| == |g.category| && |f.rarity| == |g.rarity| && |f.name| == |g.name|;
    if items != [] {
      FilterIgnoresCase(items[1..], f, g);
      assert Keep(items[0], f) == Keep(items[0], g);
    }
  }

  // ------------------------------------------------------------ GET

  /**
   * The criteria `GET` reads from the query: the category from `filter`,
   * falling back to `category`, then `rarity` and `name`; empty values
   * count as absent.
   */
  function QueryFilters(q: Query): (f: Filters)
    ensures f.category != "" ==>
      Param(q, "filter") == Some(f.category) || (ParamOrEmpty(q, "filter") == "" && Param(q, "category") == Some(f.category))
    ensures f.category == "" <==> ParamOrEmpty(q, "filter") == "" && ParamOrEmpty(q, "category") == ""
    ensures f.rarity != "" ==> Param(q, "rarity") == Some(f.rarity)
    ensures f.rarity == "" <==> Param(q, "rarity").None? || Param(q, "rarity") == Some("")
    ensures f.name != "" ==> Param(q, "name") == Some(f.name)
    ensures f.name == "" <==> Param(q, "name").None? || Param(q, "name") == Some("")
  {
    var filter := ParamOrEmpty(q, "filter");
    Filters(if filter != "" then filter else ParamOrEmpty(q, "category"), ParamOrEmpty(q, "rarity"), ParamOrEmpty(q, "name"))
  }

  /** `GET` refetches when nothing usable is cached (null or falsy) or the copy is strictly older than five minutes. */
  predicate NeedsRefresh(cached: Option<Value>, lastFetch: int, now: int) {
    cached.None? || !Truthy(cached.value) || now - lastFetch > CacheDuration
  }

  /** Nothing cached, or a falsy copy, is refetched whatever its age. */
  lemma UnusableCacheRefreshes(cached: Option<Value>, lastFetch: int, now: int)
    requires cached.None? || !Truthy(cached.value)
    ensures NeedsRefresh(cached, lastFetch, now)
  {
  }

  /** A cached copy is fresh up to and including an age of exactly five minutes. */
  lemma FreshUpToTtl(v: Value, lastFetch: int, now: int)
    requires Truthy(v)
    ensures !NeedsRefresh(Some(v), lastFetch, now) <==> now - lastFetch <= 300000
  {
  }

  /**
   * The rest of `GET`, once the cache is settled: no usable copy or no
   * truthy `items` is a 500; items that are not a list make `filter`
   * throw; otherwise the filtered list.
   */
  function Serve(cached: Option<Value>, q: Query): Response<Value> {
    if cached.None? || !Truthy(cached.value) || !TruthyProp(Prop(cached.value, "items")) then
      Fail(500, Message("Failed to fetch item data"))
    else
      var items := Prop(cached.value, "items").value;
      if !items.Arr? then Fail(500, EngineError)
      else
        match FilterItems(items.elems, QueryFilters(q))
        case None => Fail(500, EngineError)
        case Some(xs) => Ok(Arr(xs))
  }

  /**
   * How `Serve` fails, both ways: an empty, falsy or item-less cache is the
   * handler's own 500; a cached `items` that is not a list, or a criterion
   * meeting a field that is not a string, is a TypeError, also answered 500.
   */
  lemma ServeFails(cached: Option<Value>, q: Query)
    ensures Serve(cached, q).Fail? ==> Serve(cached, q).status == 500
    ensures Serve(cached, q) == Fail(500, Message("Failed to fetch item data")) <==>
              cached.None? || !Truthy(cached.value) || !TruthyProp(Prop(cached.value, "items"))
    ensures Serve(cached, q) == Fail(500, EngineError) <==>
              && cached.Some? && Truthy(cached.value) && TruthyProp(Prop(cached.value, "items"))
              && var items := Prop(cached.value, "items").value;
                 (!items.Arr? || exists i :: 0 <= i < |items.elems| && Throws(items.elems[i], QueryFilters(q)))
  {
  }

  /** A usable cached list answers with exactly the items that match the query's criteria, in order. */
  lemma ServeFiltered(cached: Option<Value>, q: Query)
    requires Serve(cached, q).Ok?
    ensures cached.Some? && cached.value.Obj? && "items" in cached.value.fields && cached.value.fields["items"].Arr?
    ensures var xs, ys := cached.value.fields["items"].elems, Serve(cached, q).body;
      && ys.Arr? && IsSubsequence(ys.elems, xs)
      && (forall y :: y in ys.elems ==> Matches(y, QueryFilters(q)))
      && (forall x :: x in xs && Matches(x, QueryFilters(q)) ==> x in ys.elems)
      && (forall x :: multiset(ys.elems)[x] == if Matches(x, QueryFilters(q)) then multiset(xs)[x] else 0)
  {
  }

  /** The module-level `cachedData` and `lastFetch` of the route, with the handler's two functions that use them. */
  class ItemInfoCache {
    var cachedData: Option<Value>
    var lastFetch: int

    ghost predicate Valid()
      reads this
    {
      cachedData.Some? ==> Normalized(cachedData.value)
    }

    /** Module load: nothing cached, `lastFetch` zero. */
    constructor ()
      ensures Valid() && cachedData == None && lastFetch == 0
    {
      cachedData := None;
      lastFetch := 0;
    }

    /**
     * `fetchAndUpdateData`: on a good response, clean it and store it with
     * the time; on any failure throw before either field is assigned.
     */
    method FetchAndUpdateData(now: int, fetched: Fetch<Value>) returns (r: Result<Value, Reason>)
      requires Valid()
      modifies this
      ensures Valid()
      ensures fetched.Received? && Normalize(fetched.body).Some? ==>
                r == Success(Normalize(fetched.body).value) && cachedData == Some(r.value) && lastFetch == now
      ensures !fetched.Received? ==> r == Failure(FetchFailure(fetched))
      ensures fetched.Received? && Normalize(fetched.body).None? ==> r == Failure(EngineError)
      ensures r.Failure? ==> cachedData == old(cachedData) && lastFetch == old(lastFetch)
    {
      if !fetched.Received? {
        return Failure(FetchFailure(fetched));
      }
      var jsonResponse := NormalizeResponse(fetched.body);
      if jsonResponse.None? {
        return Failure(EngineError);
      }
      NormalizeIdempotent(fetched.body);
      cachedData := jsonResponse;
      lastFetch := now;
      r := Success(jsonResponse.value);
    }

    /**
     * `GET`: refresh when the cache is empty, falsy or stale, then answer
     * from the cache. A failed refresh is a 500 and leaves the cache as it
     * was; the stale copy is not served.
     */
    method Get(now: int, fetched: Fetch<Value>, q: Query) returns (r: Response<Value>)
      requires Valid()
      modifies this
      ensures Valid()
      ensures !NeedsRefresh(old(cachedData), old(lastFetch), now) ==>
                cachedData == old(cachedData) && lastFetch == old(lastFetch) && r == Serve(cachedData, q)
      ensures NeedsRefresh(old(cachedData), old(lastFetch), now) && fetched.Received? && Normalize(fetched.body).Some? ==>
                cachedData == Normalize(fetched.body) && lastFetch == now && r == Serve(cachedData, q)
      ensures NeedsRefresh(old(cachedData), old(lastFetch), now) && !fetched.Received? ==>
                cachedData == old(cachedData) && lastFetch == old(lastFetch) && r == Fail(500, FetchFailure(fetched))
      ensures NeedsRefresh(old(cachedData), old(lastFetch), now) && fetched.Received? && Normalize(fetched.body).None? ==>
                cachedData == old(cachedData) && lastFetch == old(lastFetch) && r == Fail(500, EngineError)
    {
      if NeedsRefresh(cachedData, lastFetch, now) {
        var refreshed := FetchAndUpdateData(now, fetched);
        if refreshed.Failure? {
          return Fail(500, refreshed.error);
        }
      }
      r := Serve(cachedData, q);
    }
  }

  /**
   * A second request within five minutes of a successful refresh is
   * answered from the cache: it is the same answer even though a fetch
   * made then would fail.
   */
  method SecondRequestWithinTtl(body: Value, q: Query, now: int, later: int) returns (first: Response<Value>, second: Response<Value>)
    requires Normalize(body).Some? && Truthy(Normalize(body).value)
    requires now <= later <= now + CacheDuration
    ensures second == first
  {
    var cache := new ItemInfoCache();
    first := cache.Get(now, Received(body), q);
    second := cache.Get(later, BadStatus(503), q);
  }

  /** Once the copy is older than five minutes, a failed refresh answers 500 instead of the stale copy. */
  method ExpiredRefreshFails(body: Value, q: Query, now: int, later: int) returns (first: Response<Value>, second: Response<Value>)
    requires Normalize(body).Some? && Truthy(Normalize(body).value)
    requires later > now + CacheDuration
    ensures second == Fail(500, HttpStatus(503))
  {
    var cache := new ItemInfoCache();
    first := cache.Get(now, Received(body), q);
    second := cache.Get(later, BadStatus(503), q);
  }
}
