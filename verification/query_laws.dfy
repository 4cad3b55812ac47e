/** What queries return, in what order and how much of it, spelled out in the objects and the request. */
module QueryLaws {
  import opened Common
  import opened Privacy
  import opened ObjectTypes
  import opened Queries
  import opened QueryOrder
  import opened QueryPaging
  import opened ObjectRuns
  import PolicyComposition

  // ---- Which objects ----

  /** The kinds a query is about. */
  predicate KindFits(query: QueryKind, kind: Kind) {
    && (query.TasksQuery? ==> kind == TaskKind)
    && (query.DecisionsQuery? ==> kind == DecisionKind)
    && (query.PollsQuery? ==> kind == PollKind)
    && (query.FileRefsQuery? ==> kind == FileRefKind)
  }

  /** The object is of the kind and its status is one of those asked for. */
  predicate HasStatus(o: RoomObject, kind: Kind, statuses: seq<Status>) {
    o.kind == kind && o.content.Some? && o.content.value.status.Some? && o.content.value.status.value in statuses
  }

  /** Every field the filter gives holds. */
  predicate Fits(o: RoomObject, f: Filter) {
    && (f.kinds == None || o.kind in f.kinds.value)
    && (f.lifecycles == None || o.lifecycle in f.lifecycles.value)
    && (f.redacted == None || f.redacted == Some(o.redacted))
    && (f.taskStatuses == None || HasStatus(o, TaskKind, f.taskStatuses.value))
    && (f.decisionStatuses == None || HasStatus(o, DecisionKind, f.decisionStatuses.value))
    && (f.pollStatuses == None || HasStatus(o, PollKind, f.pollStatuses.value))
    && (f.exactTag == None
        || (o.content.Some? && o.content.value.tags.Some? && f.exactTag.value in o.content.value.tags.value))
  }

  predicate Wanted(o: RoomObject, query: QueryKind, filter: Option<Filter>) {
    KindFits(query, o.kind) && (filter == None || Fits(o, filter.value))
  }

  lemma FilterIs(o: RoomObject, query: QueryKind, filter: Option<Filter>)
    ensures Listed(o, query, filter) <==> Wanted(o, query, filter)
    ensures MatchesFilter(o, filter) <==> Wanted(o, ListQuery, filter)
  {
  }

  lemma SortedHolds(sort: Sort, xs: seq<RoomObject>, o: RoomObject)
    ensures o in Sorted(sort, xs) <==> o in xs
  {
    SortedPermutes(sort, xs);
    assert o in xs <==> o in multiset(xs);
    assert o in Sorted(sort, xs) <==> o in multiset(Sorted(sort, xs));
  }

  /** A list holds exactly the objects that fit the query's kind and every field of the filter. */
  lemma ListedIff(objects: seq<RoomObject>, request: Request, policy: QueryPolicy, o: RoomObject)
    requires !request.query.SearchQuery?
    ensures o in Ordered(objects, request, policy) <==> o in objects && Wanted(o, request.query, request.filter)
  {
    hide Sorted, Listed, Wanted, EffectiveSort;
    var keep := (x: RoomObject) => Listed(x, request.query, request.filter);
    SortedHolds(EffectiveSort(request, policy), Selected(objects, keep), o);
    SelectedIn(objects, keep, o);
    FilterIs(o, request.query, request.filter);
  }

  /** A search holds exactly the objects of the asked kinds that show a text with the term in it. */
  lemma FoundIff(objects: seq<RoomObject>, request: Request, policy: QueryPolicy, o: RoomObject)
    requires request.query.SearchQuery?
    ensures o in Ordered(objects, request, policy) <==>
      && o in objects
      && (request.kinds == None || request.kinds == Some([]) || o.kind in request.kinds.value)
      && exists text :: Shows(o, policy, text) && PolicyComposition.Contains(text, request.term)
  {
    hide Sorted, SearchableText, Shows, PolicyComposition.Contains;
    var keep := (x: RoomObject) => Hit(x, request.term, policy, request.kinds);
    SortedHolds(ObjectIdAsc, objects, o);
    SelectedIn(Sorted(ObjectIdAsc, objects), keep, o);
    forall text ensures Shows(o, policy, text) <==>
      SearchableText(o, policy).Some? && text in SearchableText(o, policy).value {
      ShowsIff(o, policy, text);
    }
  }

  /** The texts of an object that a search looks at: by kind, and file names only where relationships are open. */
  predicate Shows(o: RoomObject, policy: QueryPolicy, text: string) {
    && !o.redacted && o.lifecycle != Tombstone && o.content.Some?
    && var c, t := o.content.value, Some(text);
    && match o.kind
       case MessageKind => t == c.body
       case NoteKind => t == c.title || t == c.body
       case TaskKind => t == c.title || t == c.description
       case DecisionKind => t == c.statement || t == c.rationale
       case PollKind => c.options.Some? && (t == c.question || exists option <- c.options.value :: option.text == text)
       case FileRefKind => policy.relationshipMetadataAllowed && t == c.displayName
  }

  lemma ShowsIff(o: RoomObject, policy: QueryPolicy, text: string)
    ensures Shows(o, policy, text) <==> SearchableText(o, policy).Some? && text in SearchableText(o, policy).value
    ensures SearchableText(o, policy).None? <==>
      o.kind == PollKind && !o.redacted && o.lifecycle != Tombstone && o.content.Some? && o.content.value.options.None?
  {
    if o.kind == PollKind && o.content.Some? && o.content.value.options.Some? {
      OptionTexts(o.content.value.options.value, text);
    }
  }

  lemma OptionTexts(options: seq<PollOption>, text: string)
    ensures (exists option <- options :: option.text == text) <==> text in TextsOf(options)
  {
    if option :| option in options && option.text == text {
      var i :| 0 <= i < |options| && options[i] == option;
      assert TextsOf(options)[i] == text;
    }
    if text in TextsOf(options) {
      var i :| 0 <= i < |TextsOf(options)| && TextsOf(options)[i] == text;
      assert options[i] in options;
    }
  }

  /** The elements with the property, as a set. */
  function Kept(xs: seq<RoomObject>, keep: RoomObject -> bool): set<RoomObject> {
    set o | o in xs && keep(o)
  }

  lemma KeptGrows(xs: seq<RoomObject>, keep: RoomObject -> bool)
    requires UniqueIds(xs) && xs != []
    ensures |Kept(xs, keep)| == |Kept(xs[..|xs| - 1], keep)| + if keep(xs[|xs| - 1]) then 1 else 0
  {
    var n := |xs| - 1;
    assert xs == xs[..n] + [xs[n]];
    assert xs[n] !in xs[..n];
    assert Kept(xs, keep) == Kept(xs[..n], keep) + if keep(xs[n]) then {xs[n]} else {};
  }

  lemma {:induction false} SelectedSize(xs: seq<RoomObject>, keep: RoomObject -> bool)
    requires UniqueIds(xs)
    ensures |Selected(xs, keep)| == |Kept(xs, keep)|
  {
    hide Kept;
    if xs != [] {
      SelectedSize(xs[..|xs| - 1], keep);
      KeptGrows(xs, keep);
    } else {
      NoneKept(keep);
    }
  }

  lemma NoneKept(keep: RoomObject -> bool)
    ensures Kept([], keep) == {}
  {
  }

  /** A count is the number of objects that fit every field of the filter. */
  lemma CountedIs(matrix: Matrix, s: Snapshot, request: Request, decision: Decision, policy: QueryPolicy)
    requires UniqueIds(s.objects) && request.query.CountsQuery? && Execute(matrix, s, request, decision, policy).Ok?
    ensures Execute(matrix, s, request, decision, policy).value
      == CountResult(Some(|set o | o in s.objects && Wanted(o, ListQuery, request.filter)|))
  {
    var keep := (o: RoomObject) => MatchesFilter(o, request.filter);
    SelectedSize(s.objects, keep);
    forall o ensures MatchesFilter(o, request.filter) <==> Wanted(o, ListQuery, request.filter) {
      FilterIs(o, ListQuery, request.filter);
    }
    assert Kept(s.objects, keep) == (set o | o in s.objects && Wanted(o, ListQuery, request.filter));
    hide Selected, Wanted, MatchesFilter;
  }

  // ---- In which order ----

  /** Strings are ordered by their first difference, a prefix before what extends it. */
  lemma {:induction false} StringLessIff(a: string, b: string)
    ensures StringLess(a, b) <==>
      exists n :: 0 <= n <= |a| && n < |b| && a[..n] == b[..n] && (n == |a| || a[n] < b[n])
  {
    if b != [] && a != [] && a[0] == b[0] {
      StringLessIff(a[1..], b[1..]);
      if StringLess(a, b) {
        var n :| 0 <= n <= |a[1..]| && n < |b[1..]| && a[1..][..n] == b[1..][..n]
          && (n == |a[1..]| || a[1..][n] < b[1..][n]);
        assert a[..n + 1] == [a[0]] + a[1..][..n] && b[..n + 1] == [b[0]] + b[1..][..n];
        assert n + 1 == |a| || a[n + 1] < b[n + 1];
      }
      if n :| 0 <= n <= |a| && n < |b| && a[..n] == b[..n] && (n == |a| || a[n] < b[n]) {
        assert n > 0;
        assert a[1..][..n - 1] == a[..n][1..] && b[1..][..n - 1] == b[..n][1..];
        assert n - 1 == |a[1..]| || a[1..][n - 1] < b[1..][n - 1];
      }
    } else if b != [] {
      assert a[..0] == b[..0];
      if n :| 0 <= n <= |a| && n < |b| && a[..n] == b[..n] && (n == |a| || a[n] < b[n]) {
        if n > 0 {
          assert a[..n][0] == b[..n][0];
        }
      }
    }
  }

  /** What comes before what: by creation upwards, by update downwards, by revision downwards, and by id upwards. */
  lemma BeforeIff(sort: Sort, a: RoomObject, b: RoomObject)
    ensures Before(sort, a, b) <==>
      var byId := StringLess(a.objectId, b.objectId);
      match sort
      case ObjectIdAsc => byId
      case CreatedLocalAsc =>
        StringLess(a.createdAtLocal, b.createdAtLocal) || (a.createdAtLocal == b.createdAtLocal && byId)
      case UpdatedLocalDesc =>
        StringLess(b.updatedAtLocal, a.updatedAtLocal) || (a.updatedAtLocal == b.updatedAtLocal && byId)
      case RevisionDesc => a.revision > b.revision || (a.revision == b.revision && byId)
  {
    CompareStringsLaws(a.createdAtLocal, b.createdAtLocal, a.createdAtLocal);
    CompareStringsLaws(b.updatedAtLocal, a.updatedAtLocal, b.updatedAtLocal);
    CompareStringsLaws(a.objectId, b.objectId, a.objectId);
    hide StringLess, CompareStrings;
  }

  /** The order of a list is the one asked for, or by id where times may not be seen; searches are by id. */
  lemma OrderIs(request: Request, policy: QueryPolicy)
    ensures EffectiveSort(request, policy) ==
      if request.query.SearchQuery? || request.sort == None then ObjectIdAsc
      else match request.sort.value
        case CreatedLocalAsc => if policy.timestampsAllowed then CreatedLocalAsc else ObjectIdAsc
        case UpdatedLocalDesc => if policy.timestampsAllowed then UpdatedLocalDesc else ObjectIdAsc
        case RevisionDesc => RevisionDesc
        case ObjectIdAsc => ObjectIdAsc
  {
  }

  /** Along any results: revisions never grow, creation times never fall, update times never grow, when so sorted. */
  lemma ResultsAreOrdered(s: Snapshot, request: Request, policy: QueryPolicy, i: nat, j: nat)
    requires FaithfulSnapshot(s) && i < j < |Ordered(s.objects, request, policy)|
    ensures var a, b := Ordered(s.objects, request, policy)[i], Ordered(s.objects, request, policy)[j];
      match EffectiveSort(request, policy)
      case ObjectIdAsc => StringLess(a.objectId, b.objectId)
      case CreatedLocalAsc => !StringLess(b.createdAtLocal, a.createdAtLocal)
      case UpdatedLocalDesc => !StringLess(a.updatedAtLocal, b.updatedAtLocal)
      case RevisionDesc => a.revision >= b.revision
  {
    OrderedFacts(s, request, policy);
    var a, b := Ordered(s.objects, request, policy)[i], Ordered(s.objects, request, policy)[j];
    assert Before(EffectiveSort(request, policy), a, b);
    BeforeIff(EffectiveSort(request, policy), a, b);
    CompareStringsLaws(a.createdAtLocal, b.createdAtLocal, a.createdAtLocal);
    CompareStringsLaws(b.updatedAtLocal, a.updatedAtLocal, b.updatedAtLocal);
    hide Ordered, StringLess, Before, EffectiveSort, FaithfulSnapshot, CompareStrings;
  }

  /** A next cursor names the last object of its page, with all that a cursor can say of it. */
  lemma CursorNamesLast(all: seq<RoomObject>, s: Snapshot, sort: Sort, page: Option<PageRequest>, limit: nat)
    requires Paginate(all, s.roomId, sort, page, limit).Ok?
    ensures var (window, info) := Paginate(all, s.roomId, sort, page, limit).value;
      info.nextCursor.Some? ==>
        && window != [] && info.hasMore
        && var last, c := window[|window| - 1], info.nextCursor.value;
        && c.roomId == last.roomId && c.sort == sort && c.lastObjectId == last.objectId
        && c.lastRevision == Some(last.revision) && c.lastCreatedAtLocal == Some(last.createdAtLocal)
        && c.lastUpdatedAtLocal == Some(last.updatedAtLocal)
  {
    hide PositionAfter;
  }

  // ---- Who may ask ----

  /** Scope and matrix operation of each query. */
  lemma QueriesAre(q: QueryKind)
    ensures q.SummaryQuery? ==> ScopeOfQuery(q) == QuerySummary && MatrixOperationOfQuery(q) == "room.query.summary"
    ensures q.GetQuery? ==> ScopeOfQuery(q) == QueryDetail && MatrixOperationOfQuery(q) == "room.query.detail"
    ensures q.SearchQuery? ==> ScopeOfQuery(q) == QuerySearch && MatrixOperationOfQuery(q) == "room.query.search"
    ensures q.CountsQuery? ==> ScopeOfQuery(q) == QueryCount && MatrixOperationOfQuery(q) == "room.query.count"
    ensures q.ListQuery? || q.TasksQuery? || q.DecisionsQuery? || q.PollsQuery? || q.FileRefsQuery? ==>
      ScopeOfQuery(q) == QueryList && MatrixOperationOfQuery(q) == "room.query.list"
  {
  }

  /** Exactly which queries get past the guard. */
  lemma AdmittedIff(matrix: Matrix, s: Snapshot, request: Request, decision: Decision, policy: QueryPolicy)
    ensures QueryGuard(matrix, s, request, decision, policy).Pass? <==>
      && request.roomId == s.roomId && matrix(MatrixOperationOfQuery(request.query), s.mode) == MemoryOnly
      && decision.authentic && decision.allowed && decision.capability == Persistence
      && decision.sideEffect == ScopeOfQuery(request.query)
      && policy.query == request.query && policy.requestedView == request.requestedView && policy.allowed
      && (request.query == SearchQuery ==> policy.searchAllowed)
      && (request.query == CountsQuery ==> policy.countsAllowed)
      && (request.requestedView == DetailContentView ==>
          policy.contentAllowed || policy.effectiveView == DetailContentView)
      && (request.page.Some? && request.page.value.cursor.Some? ==>
            var c := request.page.value.cursor.value;
            && c.roomId == request.roomId
            && (c.lastCreatedAtLocal.Some? ==> LOCAL_PREFIX <= c.lastCreatedAtLocal.value)
            && (c.lastUpdatedAtLocal.Some? ==> LOCAL_PREFIX <= c.lastUpdatedAtLocal.value))
  {
    hide ScopeOfQuery, MatrixOperationOfQuery;
  }

  /** What each mode allows, flag by flag. */
  lemma ModesAllow(mode: PrivacyMode, q: QueryKind, view: ViewClass)
    ensures var p := ResolvePolicy(mode, q, view);
      var open := mode in {Standard, OfflineCapsule, SovereignRoom};
      var known := open || mode == Private || mode == Ghost;
      && p.query == q && p.requestedView == view
      && (p.allowed <==>
          known || (mode == Bunker && q != SearchQuery && q != CountsQuery) || (mode == Emergency && q == SummaryQuery))
      && (p.contentAllowed <==> known && q == GetQuery) && (p.searchAllowed <==> known && q == SearchQuery)
      && (p.revisionsAllowed <==> known) && (p.tagsAllowed <==> known)
      && (p.actorRefsAllowed <==> open) && (p.timestampsAllowed <==> open)
      && (p.countsAllowed <==> open) && (p.relationshipMetadataAllowed <==> open)
      && p.maxResults == (if mode == Standard || mode == SovereignRoom then if q == SearchQuery then 50 else 100
                          else if mode == OfflineCapsule || mode == Private then 100
                          else if mode == Ghost then 15
                          else if mode == Bunker && q != SearchQuery && q != CountsQuery then 10
                          else 0)
      && p.effectiveView == (if view == DetailContentView && !p.contentAllowed then DetailRedactedView
                             else if view == ObjectSummaryFullView && !open then ObjectSummaryRedactedView
                             else if view == RoomSummaryFullView && !open then RoomSummaryRedactedView
                             else view)
  {
  }

  /** The longest page and the page given by default, mode by mode. */
  lemma PagesAre(mode: PrivacyMode, view: ViewClass)
    ensures var list, search := ResolvePolicy(mode, ListQuery, view), ResolvePolicy(mode, SearchQuery, view);
      && (mode in {Standard, Private, OfflineCapsule, SovereignRoom} ==>
          Ceiling(ListQuery, list) == 100 && Ceiling(SearchQuery, search) == 50
          && DefaultLimit(ListQuery, list) == DefaultLimit(SearchQuery, search) == 25)
      && (mode == Ghost ==>
          Ceiling(ListQuery, list) == Ceiling(SearchQuery, search) == 15
          && DefaultLimit(ListQuery, list) == DefaultLimit(SearchQuery, search) == 15)
      && (mode == Bunker ==> Ceiling(ListQuery, list) == DefaultLimit(ListQuery, list) == 10)
  {
  }

  // ---- How much is shown ----

  /** What a summary shows: nothing but kind and lifecycle in a redacted view, else what the flags allow. */
  lemma SummaryShows(o: RoomObject, policy: QueryPolicy)
    ensures var v := SummaryOf(o, policy);
      var full := policy.effectiveView in {RoomSummaryFullView, ObjectSummaryFullView, DetailContentView};
      && v.kind == o.kind && v.lifecycle == o.lifecycle && v.redacted == (full ==> o.redacted)
      && v.objectId == (if full then Some(o.objectId) else None)
      && v.sensitivity == (if full then Some(o.sensitivity) else None)
      && v.revision == (if full && policy.revisionsAllowed then Some(o.revision) else None)
      && v.contentPresent == (if full && policy.revisionsAllowed then Some(o.content != None) else None)
      && v.createdAtLocal == (if full && policy.timestampsAllowed then Some(o.createdAtLocal) else None)
      && v.updatedAtLocal == (if full && policy.timestampsAllowed then Some(o.updatedAtLocal) else None)
  {
  }

  /** What a room summary shows. */
  lemma RoomSummaryShows(matrix: Matrix, s: Snapshot, request: Request, decision: Decision, policy: QueryPolicy)
    requires request.query.SummaryQuery? && Execute(matrix, s, request, decision, policy).Ok?
    ensures var v := Execute(matrix, s, request, decision, policy).value.view;
      && v.kind == s.roomKind && v.lifecycle == s.lifecycle && v.mode == s.mode
      && (v.redacted <==> policy.effectiveView == RoomSummaryRedactedView)
      && v.roomId == (if v.redacted then None else Some(s.roomId)) && v.title == (if v.redacted then None else s.title)
      && v.objectCount == (if policy.countsAllowed then Some(|s.objects|) else None)
  {
    hide QueryGuard;
  }

  /** What a detail view keeps and what it replaces, flag by flag. */
  lemma DetailShows(o: RoomObject, policy: QueryPolicy)
    ensures var v := DetailOf(o, policy).resulting;
      && v.objectId == o.objectId && v.roomId == o.roomId && v.kind == o.kind && v.revision == o.revision
      && v.lifecycle == o.lifecycle && v.sensitivity == o.sensitivity && v.redacted == o.redacted
      && v.createdBy == (if policy.actorRefsAllowed then o.createdBy else "local_unknown")
      && v.updatedBy == (if policy.actorRefsAllowed then o.updatedBy else "local_unknown")
      && v.createdAtLocal == (if policy.timestampsAllowed then o.createdAtLocal else "local:redacted")
      && v.updatedAtLocal == (if policy.timestampsAllowed then o.updatedAtLocal else "local:redacted")
      && (v.content.Some? ==> o.content.Some? && ContentShown(o.content.value, v.content.value, policy))
    ensures var v := DetailOf(o, policy);
      && (v.reason == ObjectTombstoned <==> o.lifecycle == Tombstone)
      && (v.reason == ObjectRedacted <==> o.lifecycle != Tombstone && (o.redacted || o.content == None))
      && (v.reason == NotRedacted <==>
          && o.lifecycle != Tombstone && !o.redacted && o.content != None
          && policy.contentAllowed && policy.effectiveView == DetailContentView)
      && (v.redacted <==> v.reason != NotRedacted)
      && (v.reason == NotRedacted ==> v.resulting.content.Some?)
      && (v.reason == PolicyRedacted ==> v.resulting.content == None)
  {
    if o.content.Some? {
      ContentIsShown(o.content.value, policy);
    }
    hide SanitizedContent, ContentShown;
  }

  lemma ContentIsShown(c: Content, policy: QueryPolicy)
    ensures ContentShown(c, SanitizedContent(c, policy), policy)
  {
  }

  /** Tags, assignees and due times go where they may not be seen; all the rest stays. */
  predicate ContentShown(c: Content, v: Content, policy: QueryPolicy) {
    && v == c.(tags := v.tags, assigneeRefs := v.assigneeRefs, dueAtLocal := v.dueAtLocal)
    && v.tags == (if c.tags.Some? && !policy.tagsAllowed then Some([]) else c.tags)
    && v.assigneeRefs == (if c.assigneeRefs.Some? && !policy.relationshipMetadataAllowed then Some([])
                          else c.assigneeRefs)
    && v.dueAtLocal == (if c.dueAtLocal.Some? && !policy.relationshipMetadataAllowed && !policy.timestampsAllowed
                        then Some("local:redacted") else c.dueAtLocal)
  }
}
