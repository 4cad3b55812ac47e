/** Paging is complete, and redacted content is out of reach of every query. */
module QueryPaging {
  import opened Common
  import opened Privacy
  import opened ObjectTypes
  import opened Queries
  import opened QueryOrder
  import opened ObjectRuns
  import ObjectReducer
  import ObjectPipeline

  // ---- Following the cursor ----

  /** Asking for one page after the other, with the given limits, until no more is left or the limits run out. */
  function Follow(matrix: Matrix, s: Snapshot, request: Request, decision: Decision, policy: QueryPolicy,
                  cursor: Option<Cursor>, limits: seq<int>): Result<seq<SummaryView>, QueryError>
    decreases |limits|
  {
    if limits == [] then Ok([])
    else
      var r :- Execute(matrix, s, request.(page := Some(PageRequest(limits[0], cursor))), decision, policy);
      match r
      case PageResult(items, info) =>
        if !info.hasMore then Ok(items)
        else
          var rest :- Follow(matrix, s, request, decision, policy, info.nextCursor, limits[1..]);
          Ok(items + rest)
      case _ => Ok([])
  }

  function Ceiling(query: QueryKind, policy: QueryPolicy): nat {
    var hardMax := if query.SearchQuery? then SEARCH_MAX_LIMIT else MAX_LIMIT;
    if hardMax <= policy.maxResults then hardMax else policy.maxResults
  }

  function DefaultLimit(query: QueryKind, policy: QueryPolicy): nat {
    if DEFAULT_LIMIT <= Ceiling(query, policy) then DEFAULT_LIMIT else Ceiling(query, policy)
  }

  predicate ValidLimits(limits: seq<int>, request: Request, policy: QueryPolicy) {
    forall i :: 0 <= i < |limits| ==> 1 <= limits[i] <= Ceiling(request.query, policy)
  }

  function Sum(limits: seq<int>): int {
    if limits == [] then 0 else limits[0] + Sum(limits[1..])
  }

  lemma {:induction false} SumAtLeastLength(limits: seq<int>)
    requires forall i :: 0 <= i < |limits| ==> 1 <= limits[i]
    ensures Sum(limits) >= |limits|
  {
    if limits != [] {
      SumAtLeastLength(limits[1..]);
    }
  }

  /** A snapshot of a well-formed projection, as every reachable one is. */
  ghost predicate FaithfulSnapshot(s: Snapshot) {
    WellFormed(ObjectReducer.Projection(s.roomId, s.objects))
  }

  lemma OrderedFacts(s: Snapshot, request: Request, policy: QueryPolicy)
    requires FaithfulSnapshot(s)
    ensures UniqueIds(Ordered(s.objects, request, policy))
    ensures InOrder(EffectiveSort(request, policy), Ordered(s.objects, request, policy))
    ensures forall o <- Ordered(s.objects, request, policy) :: o in s.objects
    ensures forall o <- s.objects :: Listable(o, policy, request.kinds)
  {
    hide Hit, Listed, Before, ReferencesResolve;
    if request.query.SearchQuery? {
      var sorted, keep := Sorted(ObjectIdAsc, s.objects), o => Hit(o, request.term, policy, request.kinds);
      SortedInOrder(ObjectIdAsc, s.objects);
      SortedPermutes(ObjectIdAsc, s.objects);
      SelectedUnique(sorted, keep);
      SelectedInOrder(ObjectIdAsc, sorted, keep);
      forall o | o in Selected(sorted, keep) ensures o in s.objects {
        SelectedIn(sorted, keep, o);
        assert o in multiset(sorted);
      }
    } else {
      var keep := o => Listed(o, request.query, request.filter);
      var chosen := Selected(s.objects, keep);
      SelectedUnique(s.objects, keep);
      SortedInOrder(EffectiveSort(request, policy), chosen);
      SortedPermutes(EffectiveSort(request, policy), chosen);
      forall o | o in Ordered(s.objects, request, policy) ensures o in s.objects {
        assert o in multiset(chosen);
        SelectedIn(s.objects, keep, o);
      }
    }
  }

  lemma {:induction false} PositionOf(items: seq<RoomObject>, n: nat, from: nat)
    requires from <= n < |items| && UniqueIds(items)
    ensures PositionAfter(items, items[n].objectId, from) == n + 1
    decreases n - from
  {
    if from < n {
      PositionOf(items, n, from + 1);
    }
  }

  /** The cursor of the n-th result points right behind it. */
  predicate PointsAt(items: seq<RoomObject>, cursor: Option<Cursor>, n: nat, s: Snapshot, sort: Sort) {
    && n <= |items|
    && if n == 0 then cursor == None else cursor == Some(CursorOf(items[n - 1], sort))
  }

  lemma PageAt(all: seq<RoomObject>, s: Snapshot, sort: Sort, cursor: Option<Cursor>, n: nat, limit: nat)
    requires UniqueIds(all) && 1 <= limit && PointsAt(all, cursor, n, s, sort)
    requires cursor.Some? ==> cursor.value.roomId == s.roomId
    ensures var end := if n + limit < |all| then n + limit else |all|;
      var r := Paginate(all, s.roomId, sort, Some(PageRequest(limit, cursor)), limit);
      && r.Ok? && r.value.0 == all[n..end]
      && r.value.1.returnedCount == end - n && r.value.1.limit == limit
      && (r.value.1.hasMore <==> end < |all|)
      && (r.value.1.hasMore ==> PointsAt(all, r.value.1.nextCursor, end, s, sort))
  {
    if n > 0 {
      PositionOf(all, n - 1, 0);
    }
    assert StartOf(all, cursor) == n;
    hide PositionAfter, StartOf, UniqueIds;
  }

  lemma OnePage(matrix: Matrix, s: Snapshot, request: Request, decision: Decision, policy: QueryPolicy,
                cursor: Option<Cursor>, n: nat, limit: int)
    requires FaithfulSnapshot(s) && PagedQuery(request.query) && 1 <= limit <= Ceiling(request.query, policy)
    requires QueryGuard(matrix, s, request.(page := None), decision, policy).Pass?
    requires PointsAt(Ordered(s.objects, request, policy), cursor, n, s, EffectiveSort(request, policy))
    ensures var all, sort := Ordered(s.objects, request, policy), EffectiveSort(request, policy);
      var end := if n + limit < |all| then n + limit else |all|;
      var r := Execute(matrix, s, request.(page := Some(PageRequest(limit, cursor))), decision, policy);
      && r.Ok? && r.value.PageResult?
      && r.value.items == SummariesOf(all[n..end], policy)
      && r.value.info.returnedCount == end - n && r.value.info.limit == limit
      && (r.value.info.hasMore <==> end < |all|)
      && (r.value.info.hasMore ==> PointsAt(all, r.value.info.nextCursor, end, s, sort))
  {
    var all, sort := Ordered(s.objects, request, policy), EffectiveSort(request, policy);
    var asked := request.(page := Some(PageRequest(limit, cursor)));
    OrderedFacts(s, request, policy);
    GuardWithCursor(matrix, s, request, decision, policy, all, cursor, n, limit);
    SameOrdered(s.objects, request, asked, policy);
    hide QueryGuard, Ordered, FaithfulSnapshot, Listable, Paginate, PointsAt, SummariesOf, EffectiveSort, UniqueIds;
    PageAt(all, s, sort, cursor, n, limit);
    assert ExecutePaged(s, asked, policy) == Ok(PageResult(
      SummariesOf(Paginate(all, s.roomId, sort, asked.page, limit).value.0, policy),
      Paginate(all, s.roomId, sort, asked.page, limit).value.1));
    hide ExecutePaged;
  }

  /** Nothing but the page plays no role for what is listed and in which order. */
  lemma SameOrdered(objects: seq<RoomObject>, a: Request, b: Request, policy: QueryPolicy)
    requires b == a.(page := b.page)
    ensures Ordered(objects, a, policy) == Ordered(objects, b, policy)
    ensures EffectiveSort(a, policy) == EffectiveSort(b, policy)
  {
  }

  lemma GuardWithCursor(matrix: Matrix, s: Snapshot, request: Request, decision: Decision, policy: QueryPolicy,
                        all: seq<RoomObject>, cursor: Option<Cursor>, n: nat, limit: int)
    requires FaithfulSnapshot(s) && forall o <- all :: o in s.objects
    requires QueryGuard(matrix, s, request.(page := None), decision, policy).Pass?
    requires PointsAt(all, cursor, n, s, EffectiveSort(request, policy))
    ensures QueryGuard(matrix, s, request.(page := Some(PageRequest(limit, cursor))), decision, policy).Pass?
    ensures cursor.Some? ==> cursor.value.roomId == s.roomId && cursor.value.sort == EffectiveSort(request, policy)
  {
    if n > 0 {
      assert all[n - 1] in s.objects;
    }
    hide ReferencesResolve, UniqueIds, ContentFits;
  }

  lemma SummariesConcatenate(a: seq<RoomObject>, b: seq<RoomObject>, policy: QueryPolicy)
    ensures SummariesOf(a + b, policy) == SummariesOf(a, policy) + SummariesOf(b, policy)
  {
  }

  /** From the n-th result on, pages with any valid limits are the next results, as many as the limits allow. */
  lemma {:induction false} FollowFrom(matrix: Matrix, s: Snapshot, request: Request, decision: Decision,
                                      policy: QueryPolicy,
                                      cursor: Option<Cursor>, n: nat, limits: seq<int>)
    requires FaithfulSnapshot(s) && PagedQuery(request.query) && ValidLimits(limits, request, policy)
    requires QueryGuard(matrix, s, request.(page := None), decision, policy).Pass?
    requires PointsAt(Ordered(s.objects, request, policy), cursor, n, s, EffectiveSort(request, policy))
    ensures var all := Ordered(s.objects, request, policy);
      var end := if n + Sum(limits) < |all| then n + Sum(limits) else |all|;
      0 <= Sum(limits) && Follow(matrix, s, request, decision, policy, cursor, limits)
        == Ok(SummariesOf(all[n..end], policy))
    decreases |limits|
  {
    hide *;
    var all := Ordered(s.objects, request, policy);
    LimitFacts(limits, request, policy);
    if limits == [] {
      FollowNone(matrix, s, request, decision, policy, cursor, n);
    } else {
      OnePage(matrix, s, request, decision, policy, cursor, n, limits[0]);
      var page := Execute(matrix, s, request.(page := Some(PageRequest(limits[0], cursor))), decision, policy).value;
      FollowOnce(matrix, s, request, decision, policy, cursor, limits);
      if page.info.hasMore {
        FollowFrom(matrix, s, request, decision, policy, page.info.nextCursor, n + limits[0], limits[1..]);
        JoinPages(all, n, limits[0], Sum(limits[1..]), policy);
      }
    }
  }

  lemma LimitFacts(limits: seq<int>, request: Request, policy: QueryPolicy)
    requires ValidLimits(limits, request, policy)
    ensures Sum(limits) >= 0
    ensures limits != [] ==>
      && 1 <= limits[0] <= Ceiling(request.query, policy) && ValidLimits(limits[1..], request, policy)
      && Sum(limits) == limits[0] + Sum(limits[1..]) && Sum(limits[1..]) >= 0
  {
    SumAtLeastLength(limits);
    if limits != [] {
      SumAtLeastLength(limits[1..]);
    }
  }

  lemma FollowNone(matrix: Matrix, s: Snapshot, request: Request, decision: Decision, policy: QueryPolicy,
                   cursor: Option<Cursor>, n: nat)
    requires PointsAt(Ordered(s.objects, request, policy), cursor, n, s, EffectiveSort(request, policy))
    ensures n <= |Ordered(s.objects, request, policy)| && Sum([]) == 0
    ensures Follow(matrix, s, request, decision, policy, cursor, [])
      == Ok(SummariesOf(Ordered(s.objects, request, policy)[n..n], policy))
  {
    hide Ordered, Execute;
  }

  lemma FollowOnce(matrix: Matrix, s: Snapshot, request: Request, decision: Decision, policy: QueryPolicy,
                   cursor: Option<Cursor>, limits: seq<int>)
    requires limits != []
    requires var r := Execute(matrix, s, request.(page := Some(PageRequest(limits[0], cursor))), decision, policy);
      r.Ok? && r.value.PageResult?
    ensures var page := Execute(matrix, s, request.(page := Some(PageRequest(limits[0], cursor))), decision,
                                policy).value;
      var rest := Follow(matrix, s, request, decision, policy, page.info.nextCursor, limits[1..]);
      Follow(matrix, s, request, decision, policy, cursor, limits) ==
        if !page.info.hasMore then Ok(page.items) else if rest.Ok? then Ok(page.items + rest.value) else rest
  {
    hide Execute;
  }

  /** The page up to a cut and the pages after it, as one stretch. */
  lemma JoinPages(all: seq<RoomObject>, n: nat, first: nat, rest: nat, policy: QueryPolicy)
    requires n + first < |all|
    ensures var end := if n + first + rest < |all| then n + first + rest else |all|;
      SummariesOf(all[n..n + first], policy) + SummariesOf(all[n + first..end], policy)
        == SummariesOf(all[n..end], policy)
  {
    var end := if n + first + rest < |all| then n + first + rest else |all|;
    SummariesConcatenate(all[n..n + first], all[n + first..end], policy);
    assert all[n..n + first] + all[n + first..end] == all[n..end];
  }

  /**
   * Paging is complete. Following the cursors with any valid limits gives the
   * ordered results, each object once, cut off only where the limits run out;
   * as many pages as there are results are always enough.
   */
  lemma PagingIsComplete(matrix: Matrix, s: Snapshot, request: Request, decision: Decision, policy: QueryPolicy,
                         limits: seq<int>)
    requires FaithfulSnapshot(s) && PagedQuery(request.query) && ValidLimits(limits, request, policy)
    requires QueryGuard(matrix, s, request.(page := None), decision, policy).Pass?
    ensures var all := Ordered(s.objects, request, policy);
      && UniqueIds(all) && InOrder(EffectiveSort(request, policy), all)
      && Follow(matrix, s, request, decision, policy, None, limits)
         == Ok(SummariesOf(if Sum(limits) < |all| && 0 <= Sum(limits) then all[..Sum(limits)] else all, policy))
      && (|limits| >= |all| ==>
          Follow(matrix, s, request, decision, policy, None, limits) == Ok(SummariesOf(all, policy)))
  {
    var all := Ordered(s.objects, request, policy);
    FollowFrom(matrix, s, request, decision, policy, None, 0, limits);
    OrderedFacts(s, request, policy);
    SumAtLeastLength(limits);
    hide *;
    assert all[0..|all|] == all;
  }

  /**
   * A first request without a page is the first page with the default limit,
   * clamped to the ceiling; under a ceiling of zero it is an empty page.
   */
  lemma DefaultPage(matrix: Matrix, s: Snapshot, request: Request, decision: Decision, policy: QueryPolicy)
    requires PagedQuery(request.query)
    ensures policy.maxResults == 0 ==>
      var r := Execute(matrix, s, request.(page := None), decision, policy);
      && (r.Ok? ==> r.value == PageResult([], PageInfo(0, 0, Ordered(s.objects, request, policy) != [], None)))
      && (QueryGuard(matrix, s, request.(page := None), decision, policy).Pass? && !request.query.SearchQuery? ==>
          r.Ok?)
    ensures policy.maxResults >= 1 ==>
      var limit := DefaultLimit(request.query, policy);
      Execute(matrix, s, request.(page := None), decision, policy)
      == Execute(matrix, s, request.(page := Some(PageRequest(limit, None))), decision, policy)
  {
    var limit := DefaultLimit(request.query, policy);
    var a, b := request.(page := None), request.(page := Some(PageRequest(limit, None)));
    SameOrdered(s.objects, request, a, policy);
    SameOrdered(s.objects, a, b, policy);
    hide Ordered, SummaryOf, Listable, EffectiveSort;
    if policy.maxResults == 0 {
      hide QueryGuard;
    } else {
      var all, sort := Ordered(s.objects, a, policy), EffectiveSort(a, policy);
      assert Paginate(all, s.roomId, sort, None, limit) == Paginate(all, s.roomId, sort, b.page, limit);
      hide Paginate, SummariesOf;
      assert ExecutePaged(s, a, policy) == ExecutePaged(s, b, policy);
      SameGuard(matrix, s, a, b, decision, policy);
      hide ExecutePaged, QueryGuard;
    }
  }

  lemma SameGuard(matrix: Matrix, s: Snapshot, a: Request, b: Request, decision: Decision, policy: QueryPolicy)
    requires b == a.(page := b.page) && (a.page.Some? ==> a.page.value.cursor.None?)
      && (b.page.Some? ==> b.page.value.cursor.None?)
    ensures QueryGuard(matrix, s, a, decision, policy) == QueryGuard(matrix, s, b, decision, policy)
  {
  }

  /**
   * Limits out of range and cursors of another room or order are refused; the
   * cursor of an object that is not among the results gives an empty last page.
   */
  lemma BadPages(matrix: Matrix, s: Snapshot, request: Request, decision: Decision, policy: QueryPolicy, limit: int,
                 cursor: Option<Cursor>)
    requires PagedQuery(request.query) && request.page == Some(PageRequest(limit, cursor))
    ensures var r := Execute(matrix, s, request, decision, policy);
      && (r.Ok? ==> r.value.PageResult? && 1 <= limit <= Ceiling(request.query, policy))
      && (r.Ok? && cursor.Some? ==>
          cursor.value.roomId == s.roomId && cursor.value.sort == EffectiveSort(request, policy))
      && (r.Ok? && cursor.Some?
          && (forall o <- Ordered(s.objects, request, policy) :: o.objectId != cursor.value.lastObjectId) ==>
            r.value.items == [] && !r.value.info.hasMore)
  {
    hide Ordered, EffectiveSort, SummaryOf, Listable;
    if cursor.Some? {
      UnknownIsBehindAll(Ordered(s.objects, request, policy), cursor.value.lastObjectId, 0);
    }
    hide PositionAfter;
  }

  lemma {:induction false} UnknownIsBehindAll(items: seq<RoomObject>, id: Id, from: nat)
    requires from <= |items|
    ensures (forall o <- items :: o.objectId != id) ==> PositionAfter(items, id, from) == |items|
    decreases |items| - from
  {
    if from < |items| {
      UnknownIsBehindAll(items, id, from + 1);
      assert items[from] in items;
    }
  }

  /** No flag is on in the second policy that is off in the first, and no page is longer. */
  predicate PolicyNoWider(a: QueryPolicy, b: QueryPolicy) {
    && (b.allowed ==> a.allowed) && (b.contentAllowed ==> a.contentAllowed)
    && (b.actorRefsAllowed ==> a.actorRefsAllowed) && (b.timestampsAllowed ==> a.timestampsAllowed)
    && (b.revisionsAllowed ==> a.revisionsAllowed) && (b.countsAllowed ==> a.countsAllowed)
    && (b.tagsAllowed ==> a.tagsAllowed) && (b.relationshipMetadataAllowed ==> a.relationshipMetadataAllowed)
    && (b.searchAllowed ==> a.searchAllowed)
    && (b.effectiveView.DetailContentView? ==> a.effectiveView.DetailContentView?)
    && Ceiling(b.query, b) <= Ceiling(a.query, a)
  }

  /**
   * Standard, private, ghost, bunker, emergency: for every query each mode
   * allows no more than the one before, and an unknown mode nothing.
   */
  lemma ModesTighten(query: QueryKind, view: ViewClass)
    ensures PolicyNoWider(ResolvePolicy(Standard, query, view), ResolvePolicy(Private, query, view))
    ensures PolicyNoWider(ResolvePolicy(Private, query, view), ResolvePolicy(Ghost, query, view))
    ensures PolicyNoWider(ResolvePolicy(Ghost, query, view), ResolvePolicy(Bunker, query, view))
    ensures PolicyNoWider(ResolvePolicy(Bunker, query, view), ResolvePolicy(Emergency, query, view))
    ensures !ResolvePolicy(UnknownMode, query, view).allowed
  {
  }

  /** The order of objects in the projection has no influence on any page. */
  lemma ProjectionOrderIsInvisible(s: Snapshot, t: Snapshot, request: Request, policy: QueryPolicy)
    requires UniqueIds(s.objects) && UniqueIds(t.objects) && multiset(s.objects) == multiset(t.objects)
    ensures Ordered(s.objects, request, policy) == Ordered(t.objects, request, policy)
  {
    hide Hit, Listed, Before, EffectiveSort, Sorted;
    if request.query.SearchQuery? {
      SortedInOrder(ObjectIdAsc, s.objects);
      SortedInOrder(ObjectIdAsc, t.objects);
      SortedPermutes(ObjectIdAsc, s.objects);
      SortedPermutes(ObjectIdAsc, t.objects);
      InOrderIsUnique(ObjectIdAsc, Sorted(ObjectIdAsc, s.objects), Sorted(ObjectIdAsc, t.objects));
    } else {
      SortedSelectionIndependent(EffectiveSort(request, policy), s.objects, t.objects,
                                 o => Listed(o, request.query, request.filter));
    }
  }

  /** Listing all objects of a filter yields as many items as the count query reports. */
  lemma CountsAgreeWithLists(matrix: Matrix, s: Snapshot, list: Request, count: Request, decision: Decision,
                             policy: QueryPolicy,
                             listPolicy: QueryPolicy)
    requires FaithfulSnapshot(s) && list.query.ListQuery? && count.query.CountsQuery? && list.filter == count.filter
    requires Execute(matrix, s, count, decision, policy).Ok?
    ensures Execute(matrix, s, count, decision, policy).value
      == CountResult(Some(|Ordered(s.objects, list, listPolicy)|))
  {
    var keep, kept := o => Listed(o, list.query, list.filter), o => MatchesFilter(o, count.filter);
    SameSelection(s.objects, keep, kept);
    assert UniqueIds(s.objects);
    hide Sorted, Selected, MatchesFilter, FaithfulSnapshot, UniqueIds, EffectiveSort, QueryGuard;
    SortedSelectionIndependent(EffectiveSort(list, listPolicy), s.objects, s.objects, keep);
    CountNeedsPermission(matrix, s, count, decision, policy);
  }

  lemma CountNeedsPermission(matrix: Matrix, s: Snapshot, count: Request, decision: Decision, policy: QueryPolicy)
    requires count.query.CountsQuery? && QueryGuard(matrix, s, count, decision, policy).Pass?
    ensures policy.countsAllowed
  {
  }

  lemma {:induction false} SameSelection<T(!new)>(xs: seq<T>, keep: T -> bool, kept: T -> bool)
    requires forall x: T :: keep(x) <==> kept(x)
    ensures Selected(xs, keep) == Selected(xs, kept)
  {
    if xs != [] {
      SameSelection(xs[..|xs| - 1], keep, kept);
    }
  }

  // ---- Redacted content is out of reach ----

  /** Content that is gone is in no detail view and in no search, under any policy. */
  lemma MissingContentIsUnreachable(o: RoomObject, policy: QueryPolicy, term: string, kinds: Option<seq<Kind>>)
    requires o.content.None?
    ensures DetailOf(o, policy).resulting.content.None? && DetailOf(o, policy).redacted
    ensures !Hit(o, term, policy, kinds)
  {
  }

  lemma {:induction false} FirstWithIdIs(objects: seq<RoomObject>, n: nat)
    requires n < |objects| && UniqueIds(objects)
    ensures FirstWithId(objects, objects[n].objectId) == Some(objects[n])
  {
    if n > 0 {
      assert UniqueIds(objects[1..]);
      FirstWithIdIs(objects[1..], n - 1);
    }
  }

  function SnapshotOf(p: ObjectReducer.Projection, like: Snapshot): Snapshot {
    like.(roomId := p.roomId, objects := p.objects)
  }

  /**
   * Redacted content never comes back: once a call of a run nulled it, then after
   * any later calls, archiving and redacting again included, the object is still
   * redacted and empty, no detail query returns content for it and no search finds it.
   */
  lemma RedactionIsPermanent(matrix: Matrix, room: Id, inputs: seq<ObjectPipeline.Input>, i: nat, j: nat, n: nat,
                             like: Snapshot, request: Request, decision: Decision, policy: QueryPolicy)
    requires i <= j <= |inputs| && n < |At(matrix, room, Fresh(room), inputs, i).projection.objects|
    requires At(matrix, room, Fresh(room), inputs, i).projection.objects[n].content.None?
    ensures var before := At(matrix, room, Fresh(room), inputs, i).projection;
      var later := At(matrix, room, Fresh(room), inputs, j).projection;
      && n < |later.objects| && later.objects[n].objectId == before.objects[n].objectId
      && later.objects[n].content.None? && later.objects[n].redacted
      && (request.query.SearchQuery? ==>
            forall o <- Ordered(later.objects, request, policy) :: o.objectId != before.objects[n].objectId)
      && (request.query.GetQuery? && request.objectId == before.objects[n].objectId ==>
            var r := Execute(matrix, SnapshotOf(later, like), request, decision, policy);
            r.Ok? ==> r.value.detail.resulting.content.None? && r.value.detail.redacted)
  {
    var before := At(matrix, room, Fresh(room), inputs, i).projection;
    var later := At(matrix, room, Fresh(room), inputs, j).projection;
    RunEvolves(matrix, room, Fresh(room), inputs, i, j);
    ReachableWellFormed(matrix, room, inputs, j);
    assert ObjectEvolves(before.objects[n], later.objects[n]);
    assert WellFormedObject(later.objects[n], later.roomId);
    hide At, ProjectionEvolves, ReferencesResolve, WellFormedObject, ObjectEvolves;
    MissingContentIsUnreachable(later.objects[n], policy, request.term, request.kinds);
    DetailQueryIs(matrix, SnapshotOf(later, like), request, decision, policy, n);
    if request.query.SearchQuery? {
      MissesAreNotFound(later.objects, n, request, policy);
    }
    hide DetailOf, Hit, Execute, WellFormed, Ordered;
  }

  /** With unique ids, an object that does not match is not among the results of a search, nor is one with its id. */
  lemma MissesAreNotFound(objects: seq<RoomObject>, n: nat, request: Request, policy: QueryPolicy)
    requires n < |objects| && UniqueIds(objects) && request.query.SearchQuery?
    requires !Hit(objects[n], request.term, policy, request.kinds)
    ensures forall o <- Ordered(objects, request, policy) :: o.objectId != objects[n].objectId
  {
    hide Hit, Sorted;
    var sorted, keep := Sorted(ObjectIdAsc, objects), o => Hit(o, request.term, policy, request.kinds);
    SortedPermutes(ObjectIdAsc, objects);
    forall o | o in Ordered(objects, request, policy) ensures o.objectId != objects[n].objectId {
      SelectedIn(sorted, keep, o);
      assert o in multiset(sorted);
      var k :| 0 <= k < |objects| && objects[k] == o;
      assert k != n;
    }
  }

  /** A detail query that succeeds returns the view of the object with the id. */
  lemma DetailQueryIs(matrix: Matrix, s: Snapshot, request: Request, decision: Decision, policy: QueryPolicy, n: nat)
    requires n < |s.objects| && UniqueIds(s.objects)
    ensures var r := Execute(matrix, s, request, decision, policy);
      request.query.GetQuery? && request.objectId == s.objects[n].objectId && r.Ok? ==>
        r.value == DetailResult(DetailOf(s.objects[n], policy))
  {
    FirstWithIdIs(s.objects, n);
    hide DetailOf, QueryGuard, UniqueIds, FirstWithId, ExecutePaged;
  }

  /**
   * A detail view has content only for an object that still has it, when the
   * mode allows it and it was asked for. The views rely on the snapshot being
   * well formed: they do not strip a redacted object that still carried content.
   */
  lemma ContentOnlyWhereAllowed(matrix: Matrix, s: Snapshot, request: Request, decision: Decision, mode: PrivacyMode)
    requires FaithfulSnapshot(s)
    requires var r := Execute(matrix, s, request, decision, ResolvePolicy(mode, request.query, request.requestedView));
      r.Ok? && r.value.DetailResult? && r.value.detail.resulting.content.Some?
    ensures request.query.GetQuery? && request.requestedView.DetailContentView?
    ensures !mode.Bunker? && !mode.Emergency? && !mode.UnknownMode?
    ensures exists o <- s.objects ::
      o.objectId == request.objectId && o.content.Some? && !o.redacted && !o.lifecycle.Tombstone?
  {
    FirstIsIn(s.objects, request.objectId);
    var policy := ResolvePolicy(mode, request.query, request.requestedView);
    var found := FirstWithId(s.objects, request.objectId);
    assert Execute(matrix, s, request, decision, policy).value.detail == DetailOf(found.value, policy) by {
      hide FirstWithId, QueryGuard, ExecutePaged, DetailOf, ResolvePolicy;
    }
    hide Execute, FirstWithId, ReferencesResolve;
    DetailContentRequires(found.value, s.roomId, mode, request.query, request.requestedView);
  }

  lemma DetailContentRequires(o: RoomObject, room: Id, mode: PrivacyMode, query: QueryKind, requested: ViewClass)
    requires WellFormedObject(o, room)
    requires DetailOf(o, ResolvePolicy(mode, query, requested)).resulting.content.Some?
    ensures query.GetQuery? && requested.DetailContentView? && !mode.Bunker? && !mode.Emergency? && !mode.UnknownMode?
    ensures o.content.Some? && !o.redacted && !o.lifecycle.Tombstone?
  {
    hide SanitizedContent, ContentFits;
  }

  lemma {:induction false} FirstIsIn(objects: seq<RoomObject>, id: Id)
    ensures var o := FirstWithId(objects, id); o.Some? ==> o.value in objects && o.value.objectId == id
  {
    if objects != [] && objects[0].objectId != id {
      FirstIsIn(objects[1..], id);
    }
  }
}
