/** Read-only queries over a snapshot: policy, filter, order, paging, search, redacted views. */
module Queries {
  import opened Common
  import opened Privacy
  import opened ObjectTypes
  import RoomStates
  import PolicyComposition

  datatype ViewClass =
    | RoomSummaryRedactedView | RoomSummaryFullView | ObjectSummaryRedactedView | ObjectSummaryFullView
    | DetailRedactedView | DetailContentView

  datatype QueryKind =
    | SummaryQuery | ListQuery | GetQuery | SearchQuery | TasksQuery | DecisionsQuery
    | PollsQuery | FileRefsQuery | CountsQuery

  const DEFAULT_LIMIT: nat := 25
  const MAX_LIMIT: nat := 100
  const SEARCH_MAX_LIMIT: nat := 50

  datatype Sort = ObjectIdAsc | CreatedLocalAsc | UpdatedLocalDesc | RevisionDesc

  datatype Filter = Filter(
    kinds: Option<seq<Kind>>, lifecycles: Option<seq<Lifecycle>>, redacted: Option<bool>,
    taskStatuses: Option<seq<Status>>, decisionStatuses: Option<seq<Status>>, pollStatuses: Option<seq<Status>>,
    exactTag: Option<string>)

  datatype Cursor = Cursor(
    roomId: Id, sort: Sort, lastObjectId: Id, lastRevision: Option<nat>,
    lastCreatedAtLocal: Option<string>, lastUpdatedAtLocal: Option<string>)

  datatype PageRequest = PageRequest(limit: int, cursor: Option<Cursor>)

  /** A validated request; fields a query kind does not have are ignored. */
  datatype Request = Request(
    query: QueryKind, roomId: Id, requestedView: ViewClass, objectId: Id, term: string,
    kinds: Option<seq<Kind>>, filter: Option<Filter>, sort: Option<Sort>, page: Option<PageRequest>)

  datatype Snapshot = Snapshot(
    roomId: Id, roomKind: RoomStates.RoomKind, lifecycle: RoomStates.RoomLifecycle, mode: PrivacyMode,
    title: Option<string>, objects: seq<RoomObject>)

  datatype QueryError =
    | RoomMismatch | NotAvailable | DecisionMissing | DecisionMismatch | PolicyDenied
    | CursorRoomMismatch | CursorInvalid | CursorSortMismatch | LimitTooSmall | LimitTooLarge | MalformedContent

  // ---- Policy ----

  datatype QueryPolicy = QueryPolicy(
    query: QueryKind, requestedView: ViewClass, allowed: bool, effectiveView: ViewClass, maxResults: nat,
    contentAllowed: bool, actorRefsAllowed: bool, timestampsAllowed: bool, revisionsAllowed: bool,
    countsAllowed: bool, tagsAllowed: bool, relationshipMetadataAllowed: bool, searchAllowed: bool)

  function EffectiveViewFor(requested: ViewClass, contentAllowed: bool, detailAllowed: bool): ViewClass {
    match requested
    case DetailContentView => if contentAllowed then DetailContentView else DetailRedactedView
    case DetailRedactedView => DetailRedactedView
    case ObjectSummaryFullView => if detailAllowed then ObjectSummaryFullView else ObjectSummaryRedactedView
    case ObjectSummaryRedactedView => ObjectSummaryRedactedView
    case RoomSummaryFullView => if detailAllowed then RoomSummaryFullView else RoomSummaryRedactedView
    case RoomSummaryRedactedView => RoomSummaryRedactedView
  }

  /** The policy of a mode; the effective view is always derived from the flags. */
  function ResolvePolicy(mode: PrivacyMode, query: QueryKind, requestedView: ViewClass): QueryPolicy {
    var get, search := query.GetQuery?, query.SearchQuery?;
    var p := QueryPolicy(query, requestedView, true, ObjectSummaryRedactedView, MAX_LIMIT,
                         false, false, false, false, false, false, false, false);
    var denied := p.(allowed := false, maxResults := 0);
    var merged :=
      match mode
      case Emergency => if query.SummaryQuery? then p.(maxResults := 0) else denied
      case Bunker => if search || query.CountsQuery? then denied else p.(maxResults := 10)
      case Ghost => p.(contentAllowed := get, revisionsAllowed := true, tagsAllowed := true, searchAllowed := search,
                       maxResults := 15)
      case Private => p.(contentAllowed := get, revisionsAllowed := true, tagsAllowed := true, searchAllowed := search)
      case OfflineCapsule | Standard | SovereignRoom =>
        p.(contentAllowed := get, actorRefsAllowed := true, timestampsAllowed := true, revisionsAllowed := true,
           tagsAllowed := true, relationshipMetadataAllowed := true, searchAllowed := search, countsAllowed := true,
           maxResults := if search && !mode.OfflineCapsule? then SEARCH_MAX_LIMIT else MAX_LIMIT)
      case UnknownMode => denied;
    merged.(effectiveView := EffectiveViewFor(requestedView, merged.contentAllowed, merged.actorRefsAllowed))
  }

  function ScopeOfQuery(query: QueryKind): Scope {
    match query
    case SummaryQuery => QuerySummary
    case GetQuery => QueryDetail
    case SearchQuery => QuerySearch
    case CountsQuery => QueryCount
    case _ => QueryList
  }

  function MatrixOperationOfQuery(query: QueryKind): string {
    match query
    case SummaryQuery => "room.query.summary"
    case GetQuery => "room.query.detail"
    case SearchQuery => "room.query.search"
    case CountsQuery => "room.query.count"
    case _ => "room.query.list"
  }

  function QueryAllowed(request: Request, decision: Decision, policy: QueryPolicy): Check<QueryError> {
    if !decision.authentic then Fail(DecisionMissing)
    else if !decision.allowed then Fail(PolicyDenied)
    else if decision.capability != Persistence || decision.sideEffect != ScopeOfQuery(request.query)
      then Fail(DecisionMismatch)
    else if policy.query != request.query || policy.requestedView != request.requestedView then Fail(DecisionMismatch)
    else if !policy.allowed then Fail(PolicyDenied)
    else if request.query.SearchQuery? && !policy.searchAllowed then Fail(PolicyDenied)
    else if request.query.CountsQuery? && !policy.countsAllowed then Fail(PolicyDenied)
    else if request.requestedView.DetailContentView? && !policy.effectiveView.DetailContentView?
      && !policy.contentAllowed then Fail(PolicyDenied)
    else Pass
  }

  // ---- Filter ----

  predicate StatusListed(o: RoomObject, kind: Kind, statuses: Option<seq<Status>>) {
    statuses.Some? ==>
      o.kind == kind && o.content.Some? && o.content.value.status.Some?
        && o.content.value.status.value in statuses.value
  }

  predicate MatchesFilter(o: RoomObject, filter: Option<Filter>) {
    filter.Some? ==>
      && var f := filter.value;
      && (f.kinds.Some? ==> o.kind in f.kinds.value)
      && (f.lifecycles.Some? ==> o.lifecycle in f.lifecycles.value)
      && (f.redacted.Some? ==> o.redacted == f.redacted.value)
      && StatusListed(o, TaskKind, f.taskStatuses)
      && StatusListed(o, DecisionKind, f.decisionStatuses)
      && StatusListed(o, PollKind, f.pollStatuses)
      && (f.exactTag.Some? ==>
            o.content.Some? && o.content.value.tags.Some? && f.exactTag.value in o.content.value.tags.value)
  }

  /** The elements with the property, in their order. */
  function Selected<T>(xs: seq<T>, keep: T -> bool): seq<T> {
    if xs == [] then []
    else Selected(xs[..|xs| - 1], keep) + if keep(xs[|xs| - 1]) then [xs[|xs| - 1]] else []
  }

  // ---- Order ----

  /** Lexicographic order of strings. */
  predicate StringLess(a: string, b: string) {
    b != [] && (a == [] || a[0] < b[0] || (a[0] == b[0] && StringLess(a[1..], b[1..])))
  }

  function CompareStrings(a: string, b: string): int {
    if StringLess(a, b) then -1 else if StringLess(b, a) then 1 else 0
  }

  /** The comparator of a sort: negative when a comes first. */
  function CompareObjects(sort: Sort, a: RoomObject, b: RoomObject): int {
    var primary :=
      match sort
      case CreatedLocalAsc => CompareStrings(a.createdAtLocal, b.createdAtLocal)
      case UpdatedLocalDesc => CompareStrings(b.updatedAtLocal, a.updatedAtLocal)
      case RevisionDesc => b.revision - a.revision
      case ObjectIdAsc => 0;
    if primary != 0 then primary else CompareStrings(a.objectId, b.objectId)
  }

  predicate Before(sort: Sort, a: RoomObject, b: RoomObject) {
    CompareObjects(sort, a, b) < 0
  }

  function Insert(sort: Sort, o: RoomObject, sorted: seq<RoomObject>): seq<RoomObject> {
    if sorted == [] || !Before(sort, sorted[0], o) then [o] + sorted
    else [sorted[0]] + Insert(sort, o, sorted[1..])
  }

  /** The sorted copy; that it is the only sorted permutation is proved apart. */
  function Sorted(sort: Sort, items: seq<RoomObject>): seq<RoomObject> {
    if items == [] then [] else Insert(sort, items[|items| - 1], Sorted(sort, items[..|items| - 1]))
  }

  // ---- Paging ----

  function ResolveLimit(page: Option<PageRequest>, hardMax: nat, policyMax: nat): Result<nat, QueryError> {
    var ceiling := if hardMax <= policyMax then hardMax else policyMax;
    if page.None? then Ok(if DEFAULT_LIMIT <= ceiling then DEFAULT_LIMIT else ceiling)
    else if page.value.limit < 1 then Err(LimitTooSmall)
    else if page.value.limit > ceiling then Err(LimitTooLarge)
    else Ok(page.value.limit)
  }

  /** Checks on a cursor when the request is validated; the syntax of ids is not modelled. */
  function CursorValid(c: Cursor, roomId: Id): Check<QueryError> {
    if c.roomId != roomId then Fail(CursorRoomMismatch)
    else Need((c.lastCreatedAtLocal.Some? ==> LOCAL_PREFIX <= c.lastCreatedAtLocal.value)
              && (c.lastUpdatedAtLocal.Some? ==> LOCAL_PREFIX <= c.lastUpdatedAtLocal.value), CursorInvalid)
  }

  function PositionAfter(items: seq<RoomObject>, id: Id, from: nat): (n: nat)
    requires from <= |items|
    ensures from <= n <= |items|
    decreases |items| - from
  {
    if from == |items| then |items|
    else if items[from].objectId == id then from + 1
    else PositionAfter(items, id, from + 1)
  }

  datatype PageInfo = PageInfo(returnedCount: nat, limit: nat, hasMore: bool, nextCursor: Option<Cursor>)

  /** Where a page starts: at the beginning, or behind the cursor's object; behind everything if it is unknown. */
  function StartOf(items: seq<RoomObject>, cursor: Option<Cursor>): (n: nat)
    ensures n <= |items|
  {
    if cursor.None? then 0 else PositionAfter(items, cursor.value.lastObjectId, 0)
  }

  function CursorOf(o: RoomObject, sort: Sort): Cursor {
    Cursor(o.roomId, sort, o.objectId, Some(o.revision), Some(o.createdAtLocal), Some(o.updatedAtLocal))
  }

  function Paginate(items: seq<RoomObject>, roomId: Id, sort: Sort, page: Option<PageRequest>, limit: nat)
    : Result<(seq<RoomObject>, PageInfo), QueryError>
  {
    var cursor := if page.Some? then page.value.cursor else None;
    if cursor.Some? && cursor.value.roomId != roomId then Err(CursorRoomMismatch)
    else if cursor.Some? && cursor.value.sort != sort then Err(CursorSortMismatch)
    else
      var start := StartOf(items, cursor);
      var end := if start + limit < |items| then start + limit else |items|;
      var hasMore := start + limit < |items|;
      var next := if hasMore && start < end then Some(CursorOf(items[end - 1], sort)) else None;
      Ok((items[start..end], PageInfo(end - start, limit, hasMore, next)))
  }

  // ---- Search ----

  /** The texts a search looks into. A poll without options has no iterable ones, which is an error. */
  function SearchableText(o: RoomObject, policy: QueryPolicy): Option<seq<string>> {
    if o.redacted || o.content.None? || o.lifecycle.Tombstone? then Some([])
    else
      var c := o.content.value;
      match o.kind
      case MessageKind => Some(Present(c.body))
      case NoteKind => Some(Present(c.title) + Present(c.body))
      case TaskKind => Some(Present(c.title) + Present(c.description))
      case DecisionKind => Some(Present(c.statement) + Present(c.rationale))
      case PollKind =>
        if c.options.None? then None
        else Some(Present(c.question) + TextsOf(c.options.value))
      case FileRefKind => Some(if policy.relationshipMetadataAllowed then Present(c.displayName) else [])
  }

  function TextsOf(options: seq<PollOption>): seq<string> {
    seq(|options|, i requires 0 <= i < |options| => options[i].text)
  }

  function Present(text: Option<string>): seq<string> {
    if text.Some? then [text.value] else []
  }

  predicate Hit(o: RoomObject, term: string, policy: QueryPolicy, kinds: Option<seq<Kind>>) {
    && (kinds.Some? && kinds.value != [] ==> o.kind in kinds.value)
    && SearchableText(o, policy).Some?
    && exists text <- SearchableText(o, policy).value :: PolicyComposition.Contains(text, term)
  }

  /** Objects that the search visits and whose texts it can list. */
  predicate Listable(o: RoomObject, policy: QueryPolicy, kinds: Option<seq<Kind>>) {
    (kinds.Some? && kinds.value != [] && o.kind !in kinds.value) || SearchableText(o, policy).Some?
  }

  function SearchHits(objects: seq<RoomObject>, term: string, policy: QueryPolicy,
                      kinds: Option<seq<Kind>>): seq<RoomObject> {
    Selected(objects, o => Hit(o, term, policy, kinds))
  }

  /** The nested search loops find exactly the objects with a matching text, in order. */
  method SearchRoomObjectsExact(objects: seq<RoomObject>, term: string, policy: QueryPolicy,
                                allowedKinds: Option<seq<Kind>>)
    returns (r: Result<seq<RoomObject>, QueryError>)
    ensures r.Ok? <==> forall o <- objects :: Listable(o, policy, allowedKinds)
    ensures r.Ok? ==> r.value == SearchHits(objects, term, policy, allowedKinds)
  {
    var keep := o => Hit(o, term, policy, allowedKinds);
    var hits := [];
    for i := 0 to |objects|
      invariant forall o <- objects[..i] :: Listable(o, policy, allowedKinds)
      invariant hits == Selected(objects[..i], keep)
    {
      var o := objects[i];
      assert objects[..i + 1][..i] == objects[..i];
      assert objects[..i + 1] == objects[..i] + [o];
      if allowedKinds.None? || allowedKinds.value == [] || o.kind in allowedKinds.value {
        var texts := SearchableText(o, policy);
        if texts.None? {
          assert !Listable(o, policy, allowedKinds);
          return Err(MalformedContent);
        }
        var t := 0;
        while t < |texts.value| && !PolicyComposition.Contains(texts.value[t], term)
          invariant 0 <= t <= |texts.value|
          invariant forall k :: 0 <= k < t ==> !PolicyComposition.Contains(texts.value[k], term)
        {
          t := t + 1;
        }
        if t < |texts.value| {
          assert texts.value[t] in texts.value;
          hits := hits + [o];
        }
        assert keep(o) <==> t < |texts.value|;
      }
    }
    assert objects[..|objects|] == objects;
    return Ok(hits);
  }

  // ---- Views ----

  const REDACTED_TS := "local:redacted"
  const LOCAL_UNKNOWN: Id := "local_unknown"

  datatype SummaryView = SummaryView(
    objectId: Option<Id>, kind: Kind, lifecycle: Lifecycle, sensitivity: Option<Sensitivity>, redacted: bool,
    revision: Option<nat>, contentPresent: Option<bool>, createdAtLocal: Option<string>, updatedAtLocal: Option<string>)

  datatype RoomSummaryView = RoomSummaryView(
    roomId: Option<Id>, kind: RoomStates.RoomKind, lifecycle: RoomStates.RoomLifecycle, mode: PrivacyMode,
    redacted: bool,
    title: Option<string>, objectCount: Option<nat>)

  datatype RedactionReason = NotRedacted | ObjectTombstoned | ObjectRedacted | PolicyRedacted

  datatype DetailView = DetailView(resulting: RoomObject, redacted: bool, reason: RedactionReason)

  function When<T>(allowed: bool, value: T): Option<T> {
    if allowed then Some(value) else None
  }

  function SummaryOf(o: RoomObject, policy: QueryPolicy): SummaryView {
    var v := policy.effectiveView;
    if v.RoomSummaryRedactedView? || v.ObjectSummaryRedactedView? || v.DetailRedactedView? then
      SummaryView(None, o.kind, o.lifecycle, None, true, None, None, None, None)
    else
      SummaryView(Some(o.objectId), o.kind, o.lifecycle, Some(o.sensitivity), o.redacted,
                  When(policy.revisionsAllowed, o.revision), When(policy.revisionsAllowed, o.content.Some?),
                  When(policy.timestampsAllowed, o.createdAtLocal), When(policy.timestampsAllowed, o.updatedAtLocal))
  }

  function SummariesOf(items: seq<RoomObject>, policy: QueryPolicy): (r: seq<SummaryView>)
    ensures |r| == |items|
  {
    seq(|items|, i requires 0 <= i < |items| => SummaryOf(items[i], policy))
  }

  function RoomSummaryOf(s: Snapshot, policy: QueryPolicy): RoomSummaryView {
    var redacted := policy.effectiveView.RoomSummaryRedactedView?;
    RoomSummaryView(When(!redacted, s.roomId), s.roomKind, s.lifecycle, s.mode, redacted,
                    if redacted then None else s.title, When(policy.countsAllowed, |s.objects|))
  }

  function SanitizedContent(c: Content, policy: QueryPolicy): Content {
    var strip := !policy.relationshipMetadataAllowed;
    c.(tags := if !policy.tagsAllowed && c.tags.Some? then Some([]) else c.tags,
       assigneeRefs := if strip && c.assigneeRefs.Some? then Some([]) else c.assigneeRefs,
       dueAtLocal := if strip && !policy.timestampsAllowed && c.dueAtLocal.Some? then Some(REDACTED_TS)
         else c.dueAtLocal)
  }

  /** Neutralizing an object field by field, as a clone is mutated. */
  method SanitizeObjectForDetail(o: RoomObject, policy: QueryPolicy) returns (clone: RoomObject)
    ensures clone == Sanitized(o, policy)
  {
    clone := o;
    if !policy.actorRefsAllowed {
      clone := clone.(createdBy := LOCAL_UNKNOWN);
      clone := clone.(updatedBy := LOCAL_UNKNOWN);
    }
    if !policy.timestampsAllowed {
      clone := clone.(createdAtLocal := REDACTED_TS);
      clone := clone.(updatedAtLocal := REDACTED_TS);
    }
    if clone.content.Some? {
      var content := clone.content.value;
      if !policy.tagsAllowed && content.tags.Some? {
        content := content.(tags := Some([]));
      }
      if !policy.relationshipMetadataAllowed {
        if content.assigneeRefs.Some? {
          content := content.(assigneeRefs := Some([]));
        }
        if !policy.timestampsAllowed && content.dueAtLocal.Some? {
          content := content.(dueAtLocal := Some(REDACTED_TS));
        }
      }
      clone := clone.(content := Some(content));
    }
  }

  function Sanitized(o: RoomObject, policy: QueryPolicy): RoomObject {
    o.(createdBy := if policy.actorRefsAllowed then o.createdBy else LOCAL_UNKNOWN,
       updatedBy := if policy.actorRefsAllowed then o.updatedBy else LOCAL_UNKNOWN,
       createdAtLocal := if policy.timestampsAllowed then o.createdAtLocal else REDACTED_TS,
       updatedAtLocal := if policy.timestampsAllowed then o.updatedAtLocal else REDACTED_TS,
       content := if o.content.Some? then Some(SanitizedContent(o.content.value, policy)) else None)
  }

  function DetailOf(o: RoomObject, policy: QueryPolicy): DetailView {
    if o.lifecycle.Tombstone? then DetailView(Sanitized(o, policy), true, ObjectTombstoned)
    else if o.redacted || o.content.None? then DetailView(Sanitized(o, policy), true, ObjectRedacted)
    else if !policy.contentAllowed || !policy.effectiveView.DetailContentView? then
      DetailView(Sanitized(o.(content := None), policy), true, PolicyRedacted)
    else DetailView(Sanitized(o, policy), false, NotRedacted)
  }

  // ---- Execution ----

  datatype QueryResult =
    | SummaryResult(view: RoomSummaryView)
    | DetailResult(detail: DetailView)
    | CountResult(totalCount: Option<nat>)
    | PageResult(items: seq<SummaryView>, info: PageInfo)

  function KindConstraint(query: QueryKind): Option<Kind> {
    match query
    case TasksQuery => Some(TaskKind)
    case DecisionsQuery => Some(DecisionKind)
    case PollsQuery => Some(PollKind)
    case FileRefsQuery => Some(FileRefKind)
    case _ => None
  }

  predicate Listed(o: RoomObject, query: QueryKind, filter: Option<Filter>) {
    (KindConstraint(query).Some? ==> o.kind == KindConstraint(query).value) && MatchesFilter(o, filter)
  }

  /** Timestamp orders are refused where timestamps are. */
  function EffectiveSort(request: Request, policy: QueryPolicy): Sort {
    var sort := if request.sort.Some? then request.sort.value else ObjectIdAsc;
    if request.query.SearchQuery? then ObjectIdAsc
    else if !policy.timestampsAllowed && (sort.CreatedLocalAsc? || sort.UpdatedLocalDesc?) then ObjectIdAsc
    else sort
  }

  /** All results of a list or search, in their order, before paging. */
  function Ordered(objects: seq<RoomObject>, request: Request, policy: QueryPolicy): seq<RoomObject> {
    if request.query.SearchQuery? then SearchHits(Sorted(ObjectIdAsc, objects), request.term, policy, request.kinds)
    else Sorted(EffectiveSort(request, policy), Selected(objects, o => Listed(o, request.query, request.filter)))
  }

  predicate PagedQuery(query: QueryKind) {
    !query.SummaryQuery? && !query.GetQuery? && !query.CountsQuery?
  }

  function ExecutePaged(s: Snapshot, request: Request, policy: QueryPolicy): Result<QueryResult, QueryError> {
    var search := request.query.SearchQuery?;
    var limit :- ResolveLimit(request.page, if search then SEARCH_MAX_LIMIT else MAX_LIMIT, policy.maxResults);
    :- Need(search ==> forall o <- s.objects :: Listable(o, policy, request.kinds), MalformedContent);
    var page :- Paginate(Ordered(s.objects, request, policy), s.roomId, EffectiveSort(request, policy), request.page,
                         limit);
    Ok(PageResult(SummariesOf(page.0, policy), page.1))
  }

  function QueryGuard(matrix: Matrix, s: Snapshot, request: Request, decision: Decision,
                      policy: QueryPolicy): Check<QueryError> {
    if request.page.Some? && request.page.value.cursor.Some?
      && CursorValid(request.page.value.cursor.value, request.roomId).Fail? then
      CursorValid(request.page.value.cursor.value, request.roomId)
    else if request.roomId != s.roomId then Fail(RoomMismatch)
    else if matrix(MatrixOperationOfQuery(request.query), s.mode) != MemoryOnly then Fail(NotAvailable)
    else QueryAllowed(request, decision, policy)
  }

  function FirstWithId(objects: seq<RoomObject>, id: Id): Option<RoomObject> {
    if objects == [] then None
    else if objects[0].objectId == id then Some(objects[0])
    else FirstWithId(objects[1..], id)
  }

  function Execute(matrix: Matrix, s: Snapshot, request: Request, decision: Decision,
                   policy: QueryPolicy): Result<QueryResult, QueryError> {
    var guarded := QueryGuard(matrix, s, request, decision, policy);
    if guarded.Fail? then Err(guarded.error)
    else match request.query
      case SummaryQuery => Ok(SummaryResult(RoomSummaryOf(s, policy)))
      case GetQuery =>
        var found := FirstWithId(s.objects, request.objectId);
        if found.None? || found.value.roomId != s.roomId then Err(NotAvailable)
          else Ok(DetailResult(DetailOf(found.value, policy)))
      case CountsQuery =>
        Ok(CountResult(When(policy.countsAllowed, |Selected(s.objects, o => MatchesFilter(o, request.filter))|)))
      case _ => ExecutePaged(s, request, policy)
  }
}
