/** The executor as it runs: mutable page start, search loops, a clone that is stripped. */
module QueryExecutor {
  import opened Common
  import opened Privacy
  import opened ObjectTypes
  import opened Queries
  import opened QueryOrder

  /** The index of the cursor's object, one further; or the end of the list. */
  method FindStart(items: seq<RoomObject>, id: Id) returns (start: nat)
    ensures start == PositionAfter(items, id, 0)
  {
    var idx := 0;
    while idx < |items| && items[idx].objectId != id
      invariant 0 <= idx <= |items|
      invariant PositionAfter(items, id, 0) == PositionAfter(items, id, idx)
    {
      idx := idx + 1;
    }
    start := if idx < |items| then idx + 1 else |items|;
  }

  method PaginateItems(items: seq<RoomObject>, roomId: Id, sort: Sort, page: Option<PageRequest>, limit: nat)
    returns (r: Result<(seq<RoomObject>, PageInfo), QueryError>)
    ensures r == Paginate(items, roomId, sort, page, limit)
  {
    hide PositionAfter, CursorOf;
    var start := 0;
    if page.Some? && page.value.cursor.Some? {
      var cursor := page.value.cursor.value;
      if cursor.roomId != roomId {
        return Err(CursorRoomMismatch);
      }
      if cursor.sort != sort {
        return Err(CursorSortMismatch);
      }
      start := FindStart(items, cursor.lastObjectId);
    }
    var end := if start + limit < |items| then start + limit else |items|;
    var window := items[start..end];
    var hasMore := start + limit < |items|;
    var next := None;
    if hasMore && window != [] {
      next := Some(CursorOf(window[|window| - 1], sort));
    }
    return Ok((window, PageInfo(|window|, limit, hasMore, next)));
  }

  method CreateRoomObjectDetailView(o: RoomObject, policy: QueryPolicy) returns (view: DetailView)
    ensures view == DetailOf(o, policy)
  {
    hide Sanitized;
    if o.lifecycle.Tombstone? {
      var clone := SanitizeObjectForDetail(o, policy);
      return DetailView(clone, true, ObjectTombstoned);
    }
    if o.redacted || o.content.None? {
      var clone := SanitizeObjectForDetail(o, policy);
      return DetailView(clone, true, ObjectRedacted);
    }
    if !policy.contentAllowed || !policy.effectiveView.DetailContentView? {
      var stripped := o.(content := None);
      var clone := SanitizeObjectForDetail(stripped, policy);
      return DetailView(clone, true, PolicyRedacted);
    }
    var clone := SanitizeObjectForDetail(o, policy);
    return DetailView(clone, false, NotRedacted);
  }

  lemma SortedKeepsListable(objects: seq<RoomObject>, policy: QueryPolicy, kinds: Option<seq<Kind>>)
    ensures (forall o <- Sorted(ObjectIdAsc, objects) :: Listable(o, policy, kinds))
       <==> (forall o <- objects :: Listable(o, policy, kinds))
  {
    hide Listable, Sorted;
    SortedPermutes(ObjectIdAsc, objects);
    forall o ensures o in objects <==> o in Sorted(ObjectIdAsc, objects) {
      assert o in objects <==> o in multiset(objects);
      assert o in Sorted(ObjectIdAsc, objects) <==> o in multiset(Sorted(ObjectIdAsc, objects));
    }
  }

  method ExecutePage(s: Snapshot, request: Request, policy: QueryPolicy) returns (r: Result<QueryResult, QueryError>)
    ensures r == ExecutePaged(s, request, policy)
  {
    hide Sorted, Selected, Paginate, Listable, Hit, Listed, EffectiveSort, SummariesOf, ResolveLimit;
    var search := request.query.SearchQuery?;
    var limit := ResolveLimit(request.page, if search then SEARCH_MAX_LIMIT else MAX_LIMIT, policy.maxResults);
    if limit.Err? {
      return Err(limit.error);
    }
    var ordered: seq<RoomObject>;
    if search {
      SortedKeepsListable(s.objects, policy, request.kinds);
      var hits := SearchRoomObjectsExact(Sorted(ObjectIdAsc, s.objects), request.term, policy, request.kinds);
      if hits.Err? {
        return Err(MalformedContent);
      }
      ordered := hits.value;
    } else {
      ordered := Sorted(EffectiveSort(request, policy),
                        Selected(s.objects, o => Listed(o, request.query, request.filter)));
    }
    assert ordered == Ordered(s.objects, request, policy);
    var page := PaginateItems(ordered, s.roomId, EffectiveSort(request, policy), request.page, limit.value);
    if page.Err? {
      return Err(page.error);
    }
    return Ok(PageResult(SummariesOf(page.value.0, policy), page.value.1));
  }

  method ExecuteRoomQuery(matrix: Matrix, s: Snapshot, request: Request, decision: Decision, policy: QueryPolicy)
    returns (r: Result<QueryResult, QueryError>)
    ensures r == Execute(matrix, s, request, decision, policy)
  {
    hide QueryGuard, ExecutePaged, DetailOf, MatchesFilter;
    var guarded := QueryGuard(matrix, s, request, decision, policy);
    if guarded.Fail? {
      return Err(guarded.error);
    }
    match request.query
    case SummaryQuery => return Ok(SummaryResult(RoomSummaryOf(s, policy)));
    case GetQuery =>
      var found := FirstWithId(s.objects, request.objectId);
      if found.None? || found.value.roomId != s.roomId {
        return Err(NotAvailable);
      }
      var detail := CreateRoomObjectDetailView(found.value, policy);
      return Ok(DetailResult(detail));
    case CountsQuery =>
      return Ok(CountResult(When(policy.countsAllowed, |Selected(s.objects, o => MatchesFilter(o, request.filter))|)));
    case _ => r := ExecutePage(s, request, policy);
  }
}
