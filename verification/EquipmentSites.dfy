/**
 * Equipment and observation sites: a site's default equipment is always active, because deleting an
 * equipment clears it from exactly the active sites that use it, and every change is in the feed.
 */
module EquipmentSites {
  import opened Options
  import opened Ordering
  import opened ChangeFeed

  datatype Equipment = Equipment(details: int, deleted: bool, revision: nat)

  datatype Site = Site(details: int, equipment: Option<int>, deleted: bool, revision: nat)

  datatype Store = Store(equipment: map<int, Equipment>, sites: map<int, Site>, events: seq<Event>)

  datatype Call =
    | CreateEquipment(id: int, details: int)
    | UpdateEquipment(id: int, expected: nat, details: int)
    | DeleteEquipment(id: int, expected: nat)
    | CreateSite(id: int, details: int, default: Option<int>)
    | UpdateSite(id: int, expected: nat, newDetails: Option<int>, newDefault: Option<Option<int>>)
    | DeleteSite(id: int, expected: nat)

  datatype Reply = Accepted | Existing | DeletedId | NotFound | Conflict(current: nat) | NoSuchEquipment

  const EMPTY := Store(map[], map[], [])

  function SiteEvent(id: int, operation: Operation, s: Site): Event {
    Event(AstroJournal, SiteOf(id), operation, Some(s.revision), operation.Delete?)
  }

  function EquipmentEvent(id: int, operation: Operation, e: Equipment): Event {
    Event(AstroJournal, EquipmentOf(id), operation, Some(e.revision), operation.Delete?)
  }

  predicate Selectable(equipment: map<int, Equipment>, id: Option<int>) {
    id.Some? ==> id.value in equipment && !equipment[id.value].deleted
  }

  /** `active_sites_using_equipment` */
  function Users(sites: map<int, Site>, equipment: int): set<int> {
    set id | id in sites && !sites[id].deleted && sites[id].equipment == Some(equipment)
  }

  function Detached(s: Site): Site {
    s.(equipment := None, revision := s.revision + 1)
  }

  function DetachAll(sites: map<int, Site>, ids: set<int>): map<int, Site> {
    map id | id in sites :: if id in ids then Detached(sites[id]) else sites[id]
  }

  function SiteUpdates(order: seq<int>, sites: map<int, Site>): seq<Event>
    requires forall id :: id in order ==> id in sites
  {
    if order == [] then []
    else
      var n := |order| - 1;
      SiteUpdates(order[..n], sites) + [SiteEvent(order[n], Operation.Update, sites[order[n]])]
  }

  function ReplyTo(s: Store, c: Call): Reply {
    match c
    case CreateEquipment(id, _) =>
      if id !in s.equipment then Accepted else if s.equipment[id].deleted then DeletedId else Existing
    case CreateSite(id, _, default) =>
      if id in s.sites then if s.sites[id].deleted then DeletedId else Existing
      else if Selectable(s.equipment, default) then Accepted else NoSuchEquipment
    case UpdateSite(id, expected, _, newDefault) =>
      if id !in s.sites || s.sites[id].deleted then NotFound
      else if s.sites[id].revision != expected then Conflict(s.sites[id].revision)
      else if Selectable(s.equipment, newDefault.GetOr(s.sites[id].equipment)) then Accepted else NoSuchEquipment
    case DeleteSite(id, expected) =>
      if id !in s.sites || s.sites[id].deleted then NotFound
      else if s.sites[id].revision != expected then Conflict(s.sites[id].revision) else Accepted
    case _ =>
      if c.id !in s.equipment || s.equipment[c.id].deleted then NotFound
      else if s.equipment[c.id].revision != c.expected then Conflict(s.equipment[c.id].revision) else Accepted
  }

  function After(s: Store, c: Call): Store {
    if !ReplyTo(s, c).Accepted? then s
    else
      match c
      case CreateEquipment(id, details) =>
        var e := Equipment(details, false, 1);
        s.(equipment := s.equipment[id := e], events := s.events + [EquipmentEvent(id, Operation.Create, e)])
      case UpdateEquipment(id, _, details) =>
        var e := s.equipment[id].(details := details, revision := s.equipment[id].revision + 1);
        s.(equipment := s.equipment[id := e], events := s.events + [EquipmentEvent(id, Operation.Update, e)])
      case DeleteEquipment(id, _) =>
        var e := s.equipment[id].(deleted := true, revision := s.equipment[id].revision + 1);
        var users := Users(s.sites, id);
        var sites := DetachAll(s.sites, users);
        Store(s.equipment[id := e], sites,
              s.events + SiteUpdates(Ascending(users), sites) + [EquipmentEvent(id, Operation.Delete, e)])
      case CreateSite(id, details, default) =>
        var site := Site(details, default, false, 1);
        s.(sites := s.sites[id := site], events := s.events + [SiteEvent(id, Operation.Create, site)])
      case UpdateSite(id, _, newDetails, newDefault) =>
        var was := s.sites[id];
        var site := Site(newDetails.GetOr(was.details), newDefault.GetOr(was.equipment), false, was.revision + 1);
        s.(sites := s.sites[id := site], events := s.events + [SiteEvent(id, Operation.Update, site)])
      case DeleteSite(id, _) =>
        var site := s.sites[id].(deleted := true, revision := s.sites[id].revision + 1);
        s.(sites := s.sites[id := site], events := s.events + [SiteEvent(id, Operation.Delete, site)])
  }

  // -------------------------------------------------------------- integrity

  ghost predicate Integrity(s: Store) {
    forall id :: id in s.sites && !s.sites[id].deleted ==> Selectable(s.equipment, s.sites[id].equipment)
  }

  lemma IntegrityStep(s: Store, c: Call)
    requires Integrity(s)
    ensures Integrity(After(s, c))
  {
    var after := After(s, c);
    forall id | id in after.sites && !after.sites[id].deleted
      ensures Selectable(after.equipment, after.sites[id].equipment)
    {
      if id in s.sites {
        assert !s.sites[id].deleted && Selectable(s.equipment, s.sites[id].equipment);
      }
    }
  }

  // ------------------------------------------------------------------- feed

  function Of(events: seq<Event>, resource: Resource): seq<Event> {
    if events == [] then []
    else
      var n := |events| - 1;
      if events[n].resource == resource then Of(events[..n], resource) + [events[n]] else Of(events[..n], resource)
  }

  ghost predicate AllTold(s: Store) {
    && (forall id :: id in s.sites ==> Told(Of(s.events, SiteOf(id)), s.sites[id].revision, s.sites[id].deleted))
    && (forall id :: id in s.equipment ==>
        Told(Of(s.events, EquipmentOf(id)), s.equipment[id].revision, s.equipment[id].deleted))
    && (forall id :: id !in s.sites ==> Of(s.events, SiteOf(id)) == [])
    && (forall id :: id !in s.equipment ==> Of(s.events, EquipmentOf(id)) == [])
  }

  lemma {:induction false} OfConcat(a: seq<Event>, b: seq<Event>, r: Resource)
    ensures Of(a + b, r) == Of(a, r) + Of(b, r)
  {
    if b == [] {
      assert a + b == a;
    } else {
      var c := b[..|b| - 1];
      OfConcat(a, c, r);
      assert (a + b)[..|a + b| - 1] == a + c;
    }
  }

  /** The batch of a detachment has one event for each of its sites and none for anything else. */
  lemma {:induction false} OfUpdates(order: seq<int>, sites: map<int, Site>, r: Resource)
    requires forall id :: id in order ==> id in sites
    requires StrictlyAscending(order)
    ensures Of(SiteUpdates(order, sites), r) ==
            if r.SiteOf? && r.site in order then [SiteEvent(r.site, Operation.Update, sites[r.site])] else []
  {
    if order != [] {
      var n := |order| - 1;
      var e := SiteEvent(order[n], Operation.Update, sites[order[n]]);
      OfUpdates(order[..n], sites, r);
      LastIsNew(order);
      OfOneMore(SiteUpdates(order[..n], sites), e, r);
    }
  }

  lemma LastIsNew(order: seq<int>)
    requires StrictlyAscending(order) && order != []
    ensures order[|order| - 1] !in order[..|order| - 1]
    ensures forall x :: x in order <==> x in order[..|order| - 1] || x == order[|order| - 1]
  {
    assert order == order[..|order| - 1] + [order[|order| - 1]];
  }

  lemma OfOneMore(events: seq<Event>, e: Event, r: Resource)
    ensures Of(events + [e], r) == Of(events, r) + if e.resource == r then [e] else []
  {
    assert (events + [e])[..|events|] == events;
  }

  /** One more event about `r` continues what was told about it. */
  lemma TellMore(s: Store, c: Call, r: Resource, e: Event)
    requires After(s, c).events == s.events + [e]
    ensures Of(After(s, c).events, r) == Of(s.events, r) + if e.resource == r then [e] else []
  {
    assert (s.events + [e])[..|s.events|] == s.events;
  }

  lemma TellDetached(s: Store, c: Call, r: Resource)
    requires c.DeleteEquipment? && ReplyTo(s, c).Accepted?
    ensures
      var s' := After(s, c);
      Of(s'.events, r) ==
        if r.SiteOf? && r.site in Users(s.sites, c.id)
          then Of(s.events, r) + [SiteEvent(r.site, Operation.Update, s'.sites[r.site])]
        else if r == EquipmentOf(c.id)
          then Of(s.events, r) + [EquipmentEvent(c.id, Operation.Delete, s'.equipment[c.id])]
        else Of(s.events, r)
  {
    var s' := After(s, c);
    var updates := SiteUpdates(Ascending(Users(s.sites, c.id)), s'.sites);
    var e := EquipmentEvent(c.id, Operation.Delete, s'.equipment[c.id]);
    OfUpdates(Ascending(Users(s.sites, c.id)), s'.sites, r);
    OfConcat(s.events, updates, r);
    assert (s.events + updates + [e])[..|s.events + updates|] == s.events + updates;
  }

  lemma ToldOnce(h: seq<Event>, e: Event, revision: nat)
    requires if e.operation.Create? then h == [] && revision == 0 else Told(h, revision, false)
    requires e.revision == Some(revision + 1) && (e.tombstone <==> e.operation.Delete?)
    ensures Told(h + [e], revision + 1, e.tombstone)
  {}

  lemma SiteToldStep(s: Store, c: Call, id: int)
    requires AllTold(s) && ReplyTo(s, c).Accepted?
    ensures id in After(s, c).sites ==>
              Told(Of(After(s, c).events, SiteOf(id)), After(s, c).sites[id].revision, After(s, c).sites[id].deleted)
    ensures id !in After(s, c).sites ==> Of(After(s, c).events, SiteOf(id)) == []
  {
    var s' := After(s, c);
    var h := Of(s.events, SiteOf(id));
    if c.DeleteEquipment? {
      TellDetached(s, c, SiteOf(id));
      if id in Users(s.sites, c.id) {
        ToldOnce(h, SiteEvent(id, Operation.Update, s'.sites[id]), s.sites[id].revision);
      }
    } else {
      var e := s'.events[|s'.events| - 1];
      TellMore(s, c, SiteOf(id), e);
      if e.resource == SiteOf(id) {
        ToldOnce(h, e, if id in s.sites then s.sites[id].revision else 0);
      } else {
        assert id in s.sites ==> s'.sites[id] == s.sites[id];
      }
    }
  }

  lemma EquipmentToldStep(s: Store, c: Call, id: int)
    requires AllTold(s) && ReplyTo(s, c).Accepted?
    ensures id in After(s, c).equipment ==>
              Told(Of(After(s, c).events, EquipmentOf(id)), After(s, c).equipment[id].revision,
                   After(s, c).equipment[id].deleted)
    ensures id !in After(s, c).equipment ==> Of(After(s, c).events, EquipmentOf(id)) == []
  {
    var s' := After(s, c);
    var h := Of(s.events, EquipmentOf(id));
    if c.DeleteEquipment? {
      TellDetached(s, c, EquipmentOf(id));
      if id == c.id { ToldOnce(h, EquipmentEvent(id, Operation.Delete, s'.equipment[id]), s.equipment[id].revision); }
    } else {
      var e := s'.events[|s'.events| - 1];
      TellMore(s, c, EquipmentOf(id), e);
      if e.resource == EquipmentOf(id) {
        ToldOnce(h, e, if id in s.equipment then s.equipment[id].revision else 0);
      } else {
        assert id in s.equipment ==> s'.equipment[id] == s.equipment[id];
      }
    }
  }

  lemma ToldStep(s: Store, c: Call)
    requires AllTold(s)
    ensures AllTold(After(s, c))
  {
    if ReplyTo(s, c).Accepted? {
      forall id { SiteToldStep(s, c, id); }
      forall id { EquipmentToldStep(s, c, id); }
    }
  }

  // ------------------------------------------------------------------- runs

  /** The store after any sequence of calls of both services, from the empty one. */
  function Run(calls: seq<Call>): Store {
    if calls == [] then EMPTY else After(Run(calls[..|calls| - 1]), calls[|calls| - 1])
  }

  /** No active site names a missing or deleted equipment, and the feed tells every row's revisions. */
  lemma {:induction false} SitesNameActiveEquipment(calls: seq<Call>)
    ensures Integrity(Run(calls)) && AllTold(Run(calls))
  {
    if calls != [] {
      SitesNameActiveEquipment(calls[..|calls| - 1]);
      IntegrityStep(Run(calls[..|calls| - 1]), calls[|calls| - 1]);
      ToldStep(Run(calls[..|calls| - 1]), calls[|calls| - 1]);
    }
  }

  /**
   * Deleting an equipment gives exactly the active sites that used it a new revision and one event
   * each; every other site, and what the feed tells of it, stays.
   */
  lemma DeletionDetachesItsUsers(s: Store, c: Call, id: int)
    requires c.DeleteEquipment? && ReplyTo(s, c).Accepted? && id in s.sites
    ensures
      var s' := After(s, c);
      var news := Of(s'.events, SiteOf(id));
      && Users(s'.sites, c.id) == {}
      && if !s.sites[id].deleted && s.sites[id].equipment == Some(c.id) then
           && s'.sites[id] == s.sites[id].(equipment := None, revision := s.sites[id].revision + 1)
           && news == Of(s.events, SiteOf(id)) + [SiteEvent(id, Operation.Update, s'.sites[id])]
         else
           s'.sites[id] == s.sites[id] && news == Of(s.events, SiteOf(id))
  {
    TellDetached(s, c, SiteOf(id));
  }

  // --------------------------------------------------------------- services

  function Elements(s: seq<int>): set<int> {
    set x | x in s
  }

  lemma DetachOneMore(sites: map<int, Site>, done: set<int>, id: int)
    requires id in sites && id !in done
    ensures DetachAll(sites, done + {id}) == DetachAll(sites, done)[id := Detached(DetachAll(sites, done)[id])]
  {}

  lemma NextIsNew(order: seq<int>, i: nat)
    requires StrictlyAscending(order) && i < |order|
    ensures order[i] in order && order[i] !in order[..i]
    ensures Elements(order[..i] + [order[i]]) == Elements(order[..i]) + {order[i]}
    ensures order[..i + 1] == order[..i] + [order[i]]
  {}

  class EquipmentCatalog {
    var equipment: map<int, Equipment>
    var sites: map<int, Site>
    var events: seq<Event>

    ghost function View(): Store
      reads this
    {
      Store(equipment, sites, events)
    }

    constructor ()
      ensures View() == EMPTY
    {
      equipment, sites, events := map[], map[], [];
    }

    method CreateEquipmentRow(id: int, details: int) returns (reply: Reply)
      modifies this
      ensures View() == After(old(View()), CreateEquipment(id, details))
      ensures reply == ReplyTo(old(View()), CreateEquipment(id, details))
      ensures reply.Accepted? <==> id !in old(equipment)
      ensures sites == old(sites) && (!reply.Accepted? ==> View() == old(View()))
      ensures reply.Accepted? ==>
                && equipment == old(equipment)[id := Equipment(details, false, 1)]
                && events == old(events) + [Event(AstroJournal, EquipmentOf(id), Operation.Create, Some(1), false)]
    {
      if id in equipment {
        return if equipment[id].deleted then DeletedId else Existing;
      }
      equipment := equipment[id := Equipment(details, false, 1)];
      events := events + [EquipmentEvent(id, Operation.Create, equipment[id])];
      return Accepted;
    }

    method UpdateEquipmentRow(id: int, expected: nat, details: int) returns (reply: Reply)
      modifies this
      ensures View() == After(old(View()), UpdateEquipment(id, expected, details))
      ensures reply == ReplyTo(old(View()), UpdateEquipment(id, expected, details))
      ensures reply.Accepted? <==>
                id in old(equipment) && !old(equipment)[id].deleted && old(equipment)[id].revision == expected
      ensures sites == old(sites) && (!reply.Accepted? ==> View() == old(View()))
      ensures reply.Accepted? ==>
                && equipment == old(equipment)[id := Equipment(details, false, expected + 1)]
                && events == old(events)
                     + [Event(AstroJournal, EquipmentOf(id), Operation.Update, Some(expected + 1), false)]
    {
      if id !in equipment || equipment[id].deleted {
        return NotFound;
      }
      var row := equipment[id];
      if row.revision != expected {
        return Conflict(row.revision);
      }
      row := row.(details := details);
      row := row.(revision := row.revision + 1);
      equipment := equipment[id := row];
      events := events + [EquipmentEvent(id, Operation.Update, row)];
      return Accepted;
    }

    method DeleteEquipmentRow(id: int, expected: nat) returns (reply: Reply)
      modifies this
      ensures View() == After(old(View()), DeleteEquipment(id, expected))
      ensures reply == ReplyTo(old(View()), DeleteEquipment(id, expected))
      ensures reply.Accepted? <==>
                id in old(equipment) && !old(equipment)[id].deleted && old(equipment)[id].revision == expected
      ensures !reply.Accepted? ==> View() == old(View())
      ensures reply.Accepted? ==>
                && equipment == old(equipment)[id := Equipment(old(equipment)[id].details, true, expected + 1)]
                && sites.Keys == old(sites).Keys
                && forall k :: k in sites ==>
                     sites[k] == if !old(sites)[k].deleted && old(sites)[k].equipment == Some(id)
                                 then old(sites)[k].(equipment := None, revision := old(sites)[k].revision + 1)
                                 else old(sites)[k]
    {
      hide DetachAll, Users, SiteUpdates;
      if id !in equipment || equipment[id].deleted {
        return NotFound;
      }
      var row := equipment[id];
      if row.revision != expected {
        return Conflict(row.revision);
      }
      Remove(id);
      return Accepted;
    }

    /** Detaches the sites that use the equipment, and then tombstones it. */
    method Remove(id: int)
      requires id in equipment && !equipment[id].deleted
      modifies this
      ensures View() == After(old(View()), DeleteEquipment(id, old(equipment)[id].revision))
      ensures equipment == old(equipment)[id := equipment[id]]
      ensures equipment[id] == Equipment(old(equipment)[id].details, true, old(equipment)[id].revision + 1)
      ensures sites.Keys == old(sites).Keys
      ensures forall k :: k in sites ==>
                sites[k] == if !old(sites)[k].deleted && old(sites)[k].equipment == Some(id)
                            then old(sites)[k].(equipment := None, revision := old(sites)[k].revision + 1)
                            else old(sites)[k]
    {
      hide DetachAll, Users, SiteUpdates;
      DetachSites(id);
      var row := equipment[id].(deleted := true);
      row := row.(revision := row.revision + 1);
      equipment := equipment[id := row];
      events := events + [EquipmentEvent(id, Operation.Delete, row)];
    }

    method DetachSites(id: int)
      modifies this`sites, this`events
      ensures sites == DetachAll(old(sites), Users(old(sites), id))
      ensures sites.Keys == old(sites).Keys
      ensures forall k :: k in sites ==>
                sites[k] == if !old(sites)[k].deleted && old(sites)[k].equipment == Some(id)
                            then old(sites)[k].(equipment := None, revision := old(sites)[k].revision + 1)
                            else old(sites)[k]
      ensures events == old(events) + SiteUpdates(Ascending(Users(old(sites), id)), sites)
    {
      var order := Ascending(Users(sites, id));
      assert Elements(order) == Users(sites, id);
      DetachInOrder(order);
    }

    method DetachInOrder(order: seq<int>)
      requires StrictlyAscending(order) && Elements(order) <= sites.Keys
      modifies this`sites, this`events
      ensures sites == DetachAll(old(sites), Elements(order))
      ensures forall x :: x in order ==> x in sites
      ensures events == old(events) + SiteUpdates(order, sites)
    {
      ghost var done: seq<int> := [];
      assert DetachAll(sites, {}) == sites;
      for i := 0 to |order|
        invariant done == order[..i]
        invariant sites == DetachAll(old(sites), Elements(done)) && forall x :: x in done ==> x in sites
        invariant events == old(events) + SiteUpdates(done, sites)
      {
        NextIsNew(order, i);
        assert order[i] in Elements(order);
        DetachOneMore(old(sites), Elements(done), order[i]);
        DetachSite(order[i], done);
        done := done + [order[i]];
      }
      assert done == order;
    }

    method DetachSite(id: int, ghost done: seq<int>)
      requires id in sites && id !in done && forall i :: i in done ==> i in sites
      modifies this`sites, this`events
      ensures sites == old(sites)[id := Detached(old(sites)[id])]
      ensures events == old(events) + [SiteEvent(id, Operation.Update, sites[id])]
      ensures SiteUpdates(done + [id], sites) ==
                SiteUpdates(done, old(sites)) + [SiteEvent(id, Operation.Update, sites[id])]
    {
      var site := sites[id].(equipment := None);
      site := site.(revision := site.revision + 1);
      sites := sites[id := site];
      events := events + [SiteEvent(id, Operation.Update, site)];
      SameUpdates(done, old(sites), sites);
      assert (done + [id])[..|done|] == done;
    }

    method CreateSiteRow(id: int, details: int, default: Option<int>) returns (reply: Reply)
      modifies this
      ensures View() == After(old(View()), CreateSite(id, details, default))
      ensures reply == ReplyTo(old(View()), CreateSite(id, details, default))
      ensures reply.Accepted? <==>
                && id !in old(sites)
                && (default.Some? ==> default.value in equipment && !equipment[default.value].deleted)
      ensures equipment == old(equipment) && (!reply.Accepted? ==> View() == old(View()))
      ensures reply.Accepted? ==>
                && sites == old(sites)[id := Site(details, default, false, 1)]
                && events == old(events) + [Event(AstroJournal, SiteOf(id), Operation.Create, Some(1), false)]
    {
      if id in sites {
        return if sites[id].deleted then DeletedId else Existing;
      }
      if default.Some? && (default.value !in equipment || equipment[default.value].deleted) {
        return NoSuchEquipment;
      }
      sites := sites[id := Site(details, default, false, 1)];
      events := events + [SiteEvent(id, Operation.Create, sites[id])];
      return Accepted;
    }

    method UpdateSiteRow(id: int, expected: nat, details: Option<int>, default: Option<Option<int>>)
      returns (reply: Reply)
      modifies this
      ensures View() == After(old(View()), UpdateSite(id, expected, details, default))
      ensures reply == ReplyTo(old(View()), UpdateSite(id, expected, details, default))
      ensures equipment == old(equipment) && (!reply.Accepted? ==> View() == old(View()))
      ensures reply.Accepted? ==>
                && id in old(sites) && !old(sites)[id].deleted && old(sites)[id].revision == expected
                && id in sites && sites == old(sites)[id := sites[id]]
                && sites[id].details == (match details case Some(d) => d case None => old(sites)[id].details)
                && sites[id].equipment == (match default case Some(e) => e case None => old(sites)[id].equipment)
                && (sites[id].equipment.Some? ==>
                      sites[id].equipment.value in equipment && !equipment[sites[id].equipment.value].deleted)
                && !sites[id].deleted && sites[id].revision == expected + 1
                && events == old(events)
                     + [Event(AstroJournal, SiteOf(id), Operation.Update, Some(expected + 1), false)]
    {
      if id !in sites || sites[id].deleted {
        return NotFound;
      }
      var row := sites[id];
      if row.revision != expected {
        return Conflict(row.revision);
      }
      var candidate := default.GetOr(row.equipment);
      if candidate.Some? && (candidate.value !in equipment || equipment[candidate.value].deleted) {
        return NoSuchEquipment;
      }
      row := row.(details := details.GetOr(row.details), equipment := candidate);
      row := row.(revision := row.revision + 1);
      sites := sites[id := row];
      events := events + [SiteEvent(id, Operation.Update, row)];
      return Accepted;
    }

    method DeleteSiteRow(id: int, expected: nat) returns (reply: Reply)
      modifies this
      ensures View() == After(old(View()), DeleteSite(id, expected))
      ensures reply == ReplyTo(old(View()), DeleteSite(id, expected))
      ensures reply.Accepted? <==> id in old(sites) && !old(sites)[id].deleted && old(sites)[id].revision == expected
      ensures equipment == old(equipment) && (!reply.Accepted? ==> View() == old(View()))
      ensures reply.Accepted? ==>
                && sites == old(sites)[id := old(sites)[id].(deleted := true, revision := expected + 1)]
                && events == old(events) + [Event(AstroJournal, SiteOf(id), Operation.Delete, Some(expected + 1), true)]
    {
      if id !in sites || sites[id].deleted {
        return NotFound;
      }
      var row := sites[id];
      if row.revision != expected {
        return Conflict(row.revision);
      }
      row := row.(deleted := true);
      row := row.(revision := row.revision + 1);
      sites := sites[id := row];
      events := events + [SiteEvent(id, Operation.Delete, row)];
      return Accepted;
    }
  }

  lemma {:induction false} SameUpdates(order: seq<int>, a: map<int, Site>, b: map<int, Site>)
    requires forall id :: id in order ==> id in a && id in b && a[id] == b[id]
    ensures SiteUpdates(order, a) == SiteUpdates(order, b)
  {
    if order != [] {
      SameUpdates(order[..|order| - 1], a, b);
    }
  }
}
