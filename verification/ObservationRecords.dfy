/**
 * Observation records: revisions, tombstones and representatives, with the change events that
 * announce every revision.
 */
module ObservationRecords {
  import opened Options
  import PlateSolveJobs
  import opened ChangeFeed

  type RecordId = int
  type FileId = int

  /** `plate_solve_status` mirrors the job, unless a client wrote something else into it. */
  datatype SolveStatus = Mirrored(status: PlateSolveJobs.Status) | Free(text: string)

  datatype Record = Record(
    fileId: FileId,
    clientId: Option<int>,
    catalog: Option<string>,
    representative: bool,
    solveStatus: SolveStatus,
    details: int,  // the descriptive columns, carried as one opaque value
    deleted: bool,
    revision: nat)

  type Records = map<RecordId, Record>

  /** Python truth of `catalog_object_id`. */
  predicate Named(catalog: Option<string>) {
    catalog.Some? && catalog.value != ""
  }

  predicate ActiveRepresentative(r: Record) {
    r.representative && !r.deleted
  }

  function RepresentativesOf(records: Records, catalog: Option<string>, except: Option<RecordId>): set<RecordId> {
    set id | id in records && ActiveRepresentative(records[id]) && records[id].catalog == catalog
             && catalog.Some? && except != Some(id)
  }

  function Demoted(r: Record): Record {
    r.(representative := false, revision := r.revision + 1)
  }

  function WithStatus(r: Record, status: SolveStatus): Record {
    r.(solveStatus := status, revision := r.revision + 1)
  }

  function DemoteAll(records: Records, ids: set<RecordId>): Records {
    map id | id in records :: if id in ids then Demoted(records[id]) else records[id]
  }

  function StatusAll(records: Records, ids: set<RecordId>, status: SolveStatus): Records {
    map id | id in records :: if id in ids then WithStatus(records[id], status) else records[id]
  }

  /** The active records of a file whose status has to change. */
  function OutOfStep(records: Records, fileId: FileId, status: SolveStatus): set<RecordId> {
    set id | id in records && records[id].fileId == fileId && !records[id].deleted && records[id].solveStatus != status
  }

  // ----------------------------------------------------------------- events

  function RecordEvent(id: RecordId, operation: Operation, revision: nat): Event {
    Event(AstroJournal, RecordOf(id), operation, Some(revision), operation.Delete?)
  }

  /** One UPDATE event per record, in the order in which the query returned the records. */
  function Updates(order: seq<RecordId>, records: Records): seq<Event>
    requires forall id :: id in order ==> id in records
  {
    if order == [] then []
    else
      var n := |order| - 1;
      Updates(order[..n], records) + [RecordEvent(order[n], Operation.Update, records[order[n]].revision)]
  }

  /** `order` is an order of exactly these rows. */
  ghost predicate Lists(order: seq<RecordId>, ids: set<RecordId>) {
    && (forall id :: id in order <==> id in ids)
    && (forall i, j :: 0 <= i < j < |order| ==> order[i] != order[j])
  }

  predicate About(e: Event, id: RecordId) {
    e.service.AstroJournal? && e.resource == RecordOf(id)
  }

  function History(events: seq<Event>, id: RecordId): seq<Event> {
    if events == [] then []
    else
      var n := |events| - 1;
      if About(events[n], id) then History(events[..n], id) + [events[n]] else History(events[..n], id)
  }

  function TableView(records: Records): Mirror {
    map id | id in records :: Known(records[id].revision, records[id].deleted)
  }

  ghost predicate Chronicled(h: seq<Event>, r: Record) {
    Told(h, r.revision, r.deleted)
  }

  ghost predicate FeedInv(records: Records, events: seq<Event>) {
    && Replay(events) == TableView(records)
    && forall id :: id in records ==> Chronicled(History(events, id), records[id])
  }

  lemma ReplayOne(events: seq<Event>, e: Event)
    ensures Replay(events + [e]) == Absorb(Replay(events), e)
    ensures forall id :: History(events + [e], id) ==
                         if About(e, id) then History(events, id) + [e] else History(events, id)
  {
    assert (events + [e])[..|events|] == events;
  }

  /** A revision of one active record and its event. */
  lemma Revise(records: Records, events: seq<Event>, id: RecordId, r: Record, operation: Operation)
    requires FeedInv(records, events) && id in records && !records[id].deleted
    requires r.revision == records[id].revision + 1 && !operation.Create? && (r.deleted <==> operation.Delete?)
    ensures FeedInv(records[id := r], events + [RecordEvent(id, operation, r.revision)])
  {
    var e := RecordEvent(id, operation, r.revision);
    ReplayOne(events, e);
    var records' := records[id := r];
    assert TableView(records') == TableView(records)[id := Known(r.revision, r.deleted)];
    forall i | i in records' ensures Chronicled(History(events + [e], i), records'[i]) {
      assert i != id ==> Chronicled(History(events, i), records[i]);
      assert Chronicled(History(events, id), records[id]);
    }
  }

  /** A new record, under an id that no event has used. */
  lemma Introduce(records: Records, events: seq<Event>, id: RecordId, r: Record)
    requires FeedInv(records, events) && id !in records && History(events, id) == []
    requires r.revision == 1 && !r.deleted
    ensures FeedInv(records[id := r], events + [RecordEvent(id, Operation.Create, 1)])
  {
    var e := RecordEvent(id, Operation.Create, 1);
    ReplayOne(events, e);
    var records' := records[id := r];
    assert TableView(records') == TableView(records)[id := Known(1, false)];
    forall i | i in records' ensures Chronicled(History(events + [e], i), records'[i]) {
      assert i != id ==> Chronicled(History(events, i), records[i]);
    }
  }

  /** Events about anything but records leave the invariant alone. */
  lemma Unrelated(records: Records, events: seq<Event>, e: Event)
    requires FeedInv(records, events)
    requires e.service.AstroJournal? ==> !e.resource.RecordOf? && !e.resource.WholeReset?
    ensures FeedInv(records, events + [e])
  {
    ReplayOne(events, e);
    forall i | i in records ensures Chronicled(History(events + [e], i), records[i]) {
      assert Chronicled(History(events, i), records[i]);
    }
  }

  lemma {:induction false} UpdatesAgree(order: seq<RecordId>, a: Records, b: Records)
    requires forall id :: id in order ==> id in a && id in b && a[id].revision == b[id].revision
    ensures Updates(order, a) == Updates(order, b)
  {
    if order != [] {
      UpdatesAgree(order[..|order| - 1], a, b);
    }
  }

  ghost predicate RevisedIn(before: Records, after: Records, ids: set<RecordId>) {
    && before.Keys == after.Keys
    && forall id :: id in before ==>
        if id in ids
        then !before[id].deleted && !after[id].deleted && after[id].revision == before[id].revision + 1
        else after[id] == before[id]
  }

  lemma LastOfBatch(before: Records, after: Records, order: seq<RecordId>, ids: set<RecordId>)
    requires RevisedIn(before, after, ids) && Lists(order, ids) && ids <= before.Keys && order != []
    ensures
      var n := |order| - 1;
      var last := order[n];
      && last in before && last in ids && Lists(order[..n], ids - {last})
      && RevisedIn(before, after[last := before[last]], ids - {last})
      && last !in order[..n]
  {
    var n := |order| - 1;
    var last := order[n];
    forall id ensures id in order[..n] <==> id in ids - {last} {
      if id in ids - {last} {
        assert id in order;
        var i :| 0 <= i < |order| && order[i] == id;
        assert order[..n][i] == id;
      }
      if id in order[..n] {
        var i :| 0 <= i < n && order[..n][i] == id;
        assert order[i] == id && id in order;
      }
    }
  }

  /** A batch of revisions (a demotion or a status change) with one UPDATE event each. */
  lemma {:induction false} ReviseAll(before: Records, after: Records, events: seq<Event>, order: seq<RecordId>,
                                     ids: set<RecordId>)
    requires FeedInv(before, events) && RevisedIn(before, after, ids)
    requires Lists(order, ids) && ids <= before.Keys
    ensures forall id :: id in order ==> id in after
    ensures FeedInv(after, events + Updates(order, after))
  {
    if order == [] {
      assert forall id :: id in before ==> id !in order && after[id] == before[id];
      assert after == before;
      assert events + [] == events;
    } else {
      var n := |order| - 1;
      var last, init := order[n], order[..n];
      var mid := after[last := before[last]];
      LastOfBatch(before, after, order, ids);
      ReviseAll(before, mid, events, init, ids - {last});
      ReviseLast(mid, after, events, order);
    }
  }

  lemma ReviseLast(mid: Records, after: Records, events: seq<Event>, order: seq<RecordId>)
    requires order != []
    requires
      var n := |order| - 1;
      var last := order[n];
      && last in after && last !in order[..n] && last in mid
      && mid == after[last := mid[last]]
      && (forall id :: id in order[..n] ==> id in mid)
      && FeedInv(mid, events + Updates(order[..n], mid))
      && !mid[last].deleted && !after[last].deleted && after[last].revision == mid[last].revision + 1
    ensures forall id :: id in order ==> id in after
    ensures FeedInv(after, events + Updates(order, after))
  {
    var n := |order| - 1;
    var last, init := order[n], order[..n];
    assert order == init + [last];
    UpdatesAgree(init, mid, after);
    Revise(mid, events + Updates(init, mid), last, after[last], Operation.Update);
    assert mid[last := after[last]] == after;
    assert events + Updates(order, after) ==
      events + Updates(init, mid) + [RecordEvent(last, Operation.Update, after[last].revision)];
  }

  // -------------------------------------------------------- representatives

  /** What the partial unique index would enforce, and that a representative names its object. */
  ghost predicate OneRepresentative(records: Records) {
    && (forall id :: id in records && ActiveRepresentative(records[id]) ==> Named(records[id].catalog))
    && (forall i, j | i in records && j in records && ActiveRepresentative(records[i])
        && ActiveRepresentative(records[j])
          :: records[i].catalog == records[j].catalog ==> i == j)
  }

  lemma DemotionClears(records: Records, catalog: Option<string>, except: Option<RecordId>)
    requires OneRepresentative(records)
    ensures
      var after := DemoteAll(records, RepresentativesOf(records, catalog, except));
      && OneRepresentative(after)
      && forall id | id in after && ActiveRepresentative(after[id]) && after[id].catalog == catalog && catalog.Some?
           :: except == Some(id)
  {
    var ids := RepresentativesOf(records, catalog, except);
    var after := DemoteAll(records, ids);
    forall i, j | i in after && j in after && ActiveRepresentative(after[i]) && ActiveRepresentative(after[j])
                  && after[i].catalog == after[j].catalog
      ensures i == j
    {
      assert i !in ids && j !in ids;
    }
  }
}
