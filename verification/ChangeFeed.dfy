/**
 * The append-only change feed, and a client that keeps a copy of the observation records by paging
 * through it. Cursors are database sequence values: increasing at commit, possibly with gaps.
 */
module ChangeFeed {
  import opened Options

  datatype Service = AstroJournal | MemoryKeeper | OtherService(name: string)

  datatype Operation = Create | Update | Delete

  datatype Resource =
    | RecordOf(id: int)
    | WholeReset
    | SiteOf(site: int)
    | EquipmentOf(equipment: int)
    | CaptureDateOf(file: int)

  datatype Event = Event(
    service: Service, resource: Resource, operation: Operation, revision: Option<nat>, tombstone: bool)

  datatype Entry = Entry(cursor: nat, event: Event)

  type Log = seq<Entry>

  ghost predicate Increasing(log: Log) {
    && (forall i :: 0 <= i < |log| ==> log[i].cursor > 0)
    && (forall i, j :: 0 <= i < j < |log| ==> log[i].cursor < log[j].cursor)
  }

  function Matching(log: Log, cursor: nat, service: Option<Service>): seq<Entry> {
    if log == [] then []
    else
      var rows, last := Matching(log[..|log| - 1], cursor, service), log[|log| - 1];
      if last.cursor > cursor && (service.None? || last.event.service == service.value) then rows + [last] else rows
  }

  /** `list_after`: one row more than the page tells whether there are further rows. */
  function ListAfter(log: Log, cursor: nat, limit: nat, service: Option<Service>): (seq<Entry>, bool) {
    var matching := Matching(log, cursor, service);
    var rows := if |matching| <= limit + 1 then matching else matching[..limit + 1];
    (if |rows| <= limit then rows else rows[..limit], |rows| > limit)
  }

  /** An entry behind the cursor, of the service that was asked for. */
  ghost predicate Wanted(e: Entry, cursor: nat, service: Option<Service>) {
    e.cursor > cursor && (service.None? || service == Some(e.event.service))
  }

  lemma {:induction false} MatchingAre(log: Log, cursor: nat, service: Option<Service>)
    ensures forall e :: e in Matching(log, cursor, service) <==> e in log && Wanted(e, cursor, service)
  {
    if log != [] {
      var n := |log| - 1;
      MatchingAre(log[..n], cursor, service);
      assert log == log[..n] + [log[n]];
    }
  }

  lemma Longer(rows: Log, last: Entry)
    requires Increasing(rows) && last.cursor > 0 && forall e :: e in rows ==> e.cursor < last.cursor
    ensures Increasing(rows + [last])
  {
    assert forall i :: 0 <= i < |rows| ==> rows[i] in rows;
  }

  lemma {:induction false} MatchingIncreases(log: Log, cursor: nat, service: Option<Service>)
    requires Increasing(log)
    ensures Increasing(Matching(log, cursor, service))
  {
    if log != [] {
      var n := |log| - 1;
      var rows := Matching(log[..n], cursor, service);
      MatchingIncreases(log[..n], cursor, service);
      MatchingAre(log[..n], cursor, service);
      forall e | e in rows ensures e.cursor < log[n].cursor {
        var i :| 0 <= i < n && log[..n][i] == e;
      }
      Longer(rows, log[n]);
    }
  }

  lemma FirstRows(matching: Log, items: Log, limit: nat)
    requires Increasing(matching) && items == if |matching| <= limit then matching else matching[..limit]
    ensures Increasing(items) && |items| <= limit && (|matching| > limit ==> |items| == limit)
    ensures forall e :: e in items ==> e in matching
    ensures forall e :: e in matching && e !in items ==>
              |matching| > limit && forall i :: 0 <= i < |items| ==> items[i].cursor < e.cursor
    ensures |matching| > limit ==> matching[limit] in matching && matching[limit] !in items
  {
    assert forall k :: 0 <= k < |items| ==> items[k] == matching[k] && items[k] in items;
    forall e | e in matching && e !in items
      ensures |matching| > limit && forall i :: 0 <= i < |items| ==> items[i].cursor < e.cursor
    {
      var k :| 0 <= k < |matching| && matching[k] == e;
      assert |items| <= k;
    }
  }

  /** A page holds the first wanted entries in order, up to the limit, and tells whether any is left. */
  lemma PageIs(log: Log, cursor: nat, limit: nat, service: Option<Service>)
    requires Increasing(log)
    ensures
      var (items, more) := ListAfter(log, cursor, limit, service);
      && |items| <= limit && Increasing(items) && (more ==> |items| == limit)
      && (forall e :: e in items ==> e in log && Wanted(e, cursor, service))
      && (forall e :: e in log && Wanted(e, cursor, service) && e !in items ==>
            more && forall i :: 0 <= i < |items| ==> items[i].cursor < e.cursor)
      && (more <==> exists e :: e in log && Wanted(e, cursor, service) && e !in items)
  {
    hide Matching, Wanted, Increasing;
    var matching := Matching(log, cursor, service);
    var items := if |matching| <= limit then matching else matching[..limit];
    MatchingIncreases(log, cursor, service);
    MatchingAre(log, cursor, service);
    if |matching| > limit {
      assert matching[..limit + 1][..limit] == matching[..limit];
    }
    assert ListAfter(log, cursor, limit, service) == (items, |matching| > limit);
    FirstRows(matching, items, limit);
  }

  /** The events of one row are its revisions 1, 2, .., a CREATE first and a tombstone only last. */
  ghost predicate Told(h: seq<Event>, revision: nat, deleted: bool) {
    && |h| == revision && revision >= 1
    && forall k :: 0 <= k < |h| ==>
        && h[k].revision == Some(k + 1)
        && (h[k].operation.Create? <==> k == 0)
        && (h[k].tombstone <==> k == |h| - 1 && deleted)
        && (h[k].operation.Delete? <==> h[k].tombstone)
  }

  // ----------------------------------------------------------------- client

  /** What a client knows of one record: its revision, and whether it was deleted. */
  datatype Known = Known(revision: nat, deleted: bool)

  type Mirror = map<int, Known>

  function Absorb(mirror: Mirror, event: Event): Mirror {
    if !event.service.AstroJournal? then mirror
    else
      match event.resource
      case WholeReset => map[]
      case RecordOf(id) => if event.revision.Some? then mirror[id := Known(event.revision.value, event.tombstone)]
        else mirror
      case _ => mirror
  }

  function AbsorbAll(mirror: Mirror, events: seq<Event>): Mirror {
    if events == [] then mirror else Absorb(AbsorbAll(mirror, events[..|events| - 1]), events[|events| - 1])
  }

  /** The state a reader of the whole log ends in. */
  function Replay(events: seq<Event>): Mirror {
    AbsorbAll(map[], events)
  }

  function Events(log: Log): seq<Event> {
    seq(|log|, i requires 0 <= i < |log| => log[i].event)
  }

  datatype Client = Client(cursor: nat, mirror: Mirror)

  function Poll(client: Client, log: Log, limit: nat): (Client, bool) {
    var (items, more) := ListAfter(log, client.cursor, limit, Some(AstroJournal));
    if items == [] then (client, more)
    else (Client(items[|items| - 1].cursor, AbsorbAll(client.mirror, Events(items))), more)
  }

  lemma {:induction false} AbsorbConcat(mirror: Mirror, a: seq<Event>, b: seq<Event>)
    ensures AbsorbAll(mirror, a + b) == AbsorbAll(AbsorbAll(mirror, a), b)
  {
    if b == [] {
      assert a + b == a;
    } else {
      var c := b[..|b| - 1];
      AbsorbConcat(mirror, a, c);
      assert (a + b)[..|a + b| - 1] == a + c;
    }
  }

  /** The client has taken in exactly the first `p` entries, up to other services' entries. */
  ghost predicate Consumed(client: Client, log: Log, p: nat) {
    && p <= |log|
    && client.mirror == Replay(Events(log[..p]))
    && (forall i :: 0 <= i < p ==> log[i].cursor <= client.cursor)
    && (forall i :: p <= i < |log| ==> log[i].cursor > client.cursor)
  }

  lemma {:induction false} MatchingConcat(a: Log, b: Log, cursor: nat, service: Option<Service>)
    ensures Matching(a + b, cursor, service) == Matching(a, cursor, service) + Matching(b, cursor, service)
  {
    if b == [] {
      assert a + b == a;
    } else {
      var c := b[..|b| - 1];
      MatchingConcat(a, c, cursor, service);
      assert (a + b)[..|a + b| - 1] == a + c;
    }
  }

  lemma {:induction false} OldMatchNothing(log: Log, cursor: nat, service: Option<Service>)
    requires forall i :: 0 <= i < |log| ==> log[i].cursor <= cursor
    ensures Matching(log, cursor, service) == []
  {
    if log != [] {
      OldMatchNothing(log[..|log| - 1], cursor, service);
    }
  }

  lemma EventsOfPrefix(log: Log)
    requires log != []
    ensures Events(log)[..|log| - 1] == Events(log[..|log| - 1])
    ensures Events(log)[|log| - 1] == log[|log| - 1].event
  {}

  /** Entries of other services do not matter to the client. */
  lemma {:induction false} OthersIgnored(mirror: Mirror, log: Log, cursor: nat)
    requires forall i :: 0 <= i < |log| ==> log[i].cursor > cursor
    ensures AbsorbAll(mirror, Events(Matching(log, cursor, Some(AstroJournal)))) == AbsorbAll(mirror, Events(log))
  {
    if log != [] {
      var rows, last := Matching(log[..|log| - 1], cursor, Some(AstroJournal)), log[|log| - 1];
      OthersIgnored(mirror, log[..|log| - 1], cursor);
      EventsOfPrefix(log);
      if last.event.service.AstroJournal? {
        EventsOfPrefix(rows + [last]);
        assert (rows + [last])[..|rows + [last]| - 1] == rows;
      }
    }
  }

  /** The first `k` matching rows are the matching rows of some prefix, and end with its last entry. */
  lemma {:induction false} PageEnds(log: Log, cursor: nat, k: nat, service: Option<Service>) returns (q: nat)
    requires 0 < k <= |Matching(log, cursor, service)|
    ensures 0 < q <= |log|
    ensures Matching(log[..q], cursor, service) == Matching(log, cursor, service)[..k]
    ensures log[q - 1] == Matching(log, cursor, service)[k - 1]
  {
    var init := log[..|log| - 1];
    if k <= |Matching(init, cursor, service)| {
      q := PageEnds(init, cursor, k, service);
      assert log[..q] == init[..q];
    } else {
      q := |log|;
      assert log[..q] == log;
    }
  }

  lemma ReplaySplit(log: Log, p: nat)
    requires p <= |log|
    ensures Replay(Events(log)) == AbsorbAll(Replay(Events(log[..p])), Events(log[p..]))
  {
    assert Events(log) == Events(log[..p]) + Events(log[p..]);
    AbsorbConcat(map[], Events(log[..p]), Events(log[p..]));
  }

  /** What is still to come, once the first `p` entries are consumed. */
  lemma Remaining(client: Client, log: Log, p: nat)
    requires Consumed(client, log, p)
    ensures Matching(log, client.cursor, Some(AstroJournal)) == Matching(log[p..], client.cursor, Some(AstroJournal))
    ensures Replay(Events(log)) ==
              AbsorbAll(client.mirror, Events(Matching(log[p..], client.cursor, Some(AstroJournal))))
  {
    assert log == log[..p] + log[p..];
    MatchingConcat(log[..p], log[p..], client.cursor, Some(AstroJournal));
    OldMatchNothing(log[..p], client.cursor, Some(AstroJournal));
    OthersIgnored(client.mirror, log[p..], client.cursor);
    ReplaySplit(log, p);
  }

  /** Taking in the first `k` of the remaining rows brings the client to a later prefix of the log. */
  lemma PageConsumes(client: Client, log: Log, p: nat, k: nat) returns (p': nat)
    requires Increasing(log) && Consumed(client, log, p)
    requires 0 < k <= |Matching(log[p..], client.cursor, Some(AstroJournal))|
    ensures
      var page := Matching(log[p..], client.cursor, Some(AstroJournal))[..k];
      p < p' && Consumed(Client(page[k - 1].cursor, AbsorbAll(client.mirror, Events(page))), log, p')
  {
    var rest := log[p..];
    var q := PageEnds(rest, client.cursor, k, Some(AstroJournal));
    p' := p + q;
    OthersIgnored(client.mirror, rest[..q], client.cursor);
    ReplaySplit(log[..p'], p);
    assert log[..p'][..p] == log[..p] && log[..p'][p..] == rest[..q];
    assert log[p' - 1] == rest[q - 1];
  }

  /** One poll takes in the next stretch of the log; without further rows the client has the whole log. */
  lemma PollConsumes(client: Client, log: Log, limit: nat, p: nat) returns (p': nat)
    requires Increasing(log) && limit > 0 && Consumed(client, log, p)
    ensures p <= p' && Consumed(Poll(client, log, limit).0, log, p')
    ensures Poll(client, log, limit).1 ==> p < p'
    ensures !Poll(client, log, limit).1 ==> Poll(client, log, limit).0.mirror == Replay(Events(log))
  {
    var m := Matching(log[p..], client.cursor, Some(AstroJournal));
    Remaining(client, log, p);
    p' := p;
    if m != [] {
      var k := if |m| <= limit then |m| else limit;
      p' := PageConsumes(client, log, p, k);
      assert |m| > limit ==> m[..limit + 1][..limit] == m[..limit];
      assert |m| <= limit ==> m[..k] == m;
    }
  }

  /** Poll `k` is answered from `logs[k]` with page size `limits[k]`; the log only grows in between. */
  ghost predicate Growing(logs: seq<Log>) {
    && (forall i :: 0 <= i < |logs| ==> Increasing(logs[i]))
    && (forall i :: 0 < i < |logs| ==> logs[i - 1] <= logs[i])
  }

  function Polls(logs: seq<Log>, limits: seq<nat>): (Client, bool)
    requires |logs| == |limits|
  {
    if logs == [] then (Client(0, map[]), true)
    else
      var n := |logs| - 1;
      Poll(Polls(logs[..n], limits[..n]).0, logs[n], limits[n])
  }

  lemma ConsumedLater(client: Client, log: Log, later: Log, p: nat)
    requires Consumed(client, log, p) && log <= later && Increasing(later)
    requires client.cursor <= LastCursor(log)
    ensures Consumed(client, later, p)
  {
    assert later[..p] == log[..p];
    forall i | p <= i < |later| ensures later[i].cursor > client.cursor {
      if i < |log| {
        assert later[i] == log[i];
      } else if log != [] {
        assert later[|log| - 1] == log[|log| - 1];
      }
    }
  }

  lemma StillConsumed(client: Client, logs: seq<Log>, n: nat, p: nat)
    requires Growing(logs) && 0 < n < |logs|
    requires Consumed(client, logs[n - 1], p) && client.cursor <= LastCursor(logs[n - 1])
    ensures Consumed(client, logs[n], p) && client.cursor <= LastCursor(logs[n])
  {
    ConsumedLater(client, logs[n - 1], logs[n], p);
    LastCursorGrows(logs[n - 1], logs[n]);
  }

  lemma NothingConsumed(log: Log)
    requires Increasing(log)
    ensures Consumed(Client(0, map[]), log, 0) && 0 <= LastCursor(log)
  {
    assert log[..0] == [];
  }

  /** One more poll keeps what the client has consumed, and its cursor within the log. */
  lemma PollOnce(client: Client, log: Log, limit: nat, p: nat) returns (p': nat)
    requires Increasing(log) && limit > 0 && Consumed(client, log, p) && client.cursor <= LastCursor(log)
    ensures Consumed(Poll(client, log, limit).0, log, p') && Poll(client, log, limit).0.cursor <= LastCursor(log)
    ensures !Poll(client, log, limit).1 ==> Poll(client, log, limit).0.mirror == Replay(Events(log))
  {
    p' := PollConsumes(client, log, limit, p);
    CursorInLog(client, log, limit);
  }

  lemma {:induction false} PollsConsume(logs: seq<Log>, limits: seq<nat>) returns (p: nat)
    requires |logs| == |limits| > 0 && Growing(logs) && forall i :: 0 <= i < |limits| ==> limits[i] > 0
    ensures Consumed(Polls(logs, limits).0, logs[|logs| - 1], p)
    ensures Polls(logs, limits).0.cursor <= LastCursor(logs[|logs| - 1])
    ensures !Polls(logs, limits).1 ==> Polls(logs, limits).0.mirror == Replay(Events(logs[|logs| - 1]))
  {
    var n := |logs| - 1;
    var earlier := Polls(logs[..n], limits[..n]).0;
    if n == 0 {
      NothingConsumed(logs[0]);
      p := 0;
    } else {
      p := PollsConsume(logs[..n], limits[..n]);
      assert logs[..n][n - 1] == logs[n - 1];
      StillConsumed(earlier, logs, n, p);
    }
    p := PollOnce(earlier, logs[n], limits[n], p);
  }

  function LastCursor(log: Log): nat {
    if log == [] then 0 else log[|log| - 1].cursor
  }

  lemma LastCursorGrows(log: Log, later: Log)
    requires log <= later && Increasing(later)
    ensures LastCursor(log) <= LastCursor(later)
  {
    if log != [] {
      assert later[|log| - 1] == log[|log| - 1];
    }
  }

  lemma {:induction false} MatchingInLog(log: Log, cursor: nat, service: Option<Service>)
    ensures forall e :: e in Matching(log, cursor, service) ==> e in log
  {
    if log != [] {
      MatchingInLog(log[..|log| - 1], cursor, service);
    }
  }

  lemma CursorInLog(client: Client, log: Log, limit: nat)
    requires Increasing(log) && limit > 0
    ensures
      var c := Poll(client, log, limit).0.cursor;
      c == client.cursor || (log != [] && c <= log[|log| - 1].cursor)
  {
    var (items, _) := ListAfter(log, client.cursor, limit, Some(AstroJournal));
    MatchingInLog(log, client.cursor, Some(AstroJournal));
    if items != [] {
      assert items[|items| - 1] in Matching(log, client.cursor, Some(AstroJournal));
    }
  }

  /**
   * Whatever is appended between two pages and whatever the page sizes are, a client that pages from
   * cursor 0 until no further rows are announced holds exactly what replaying the whole log gives.
   */
  lemma PagingIsReplay(logs: seq<Log>, limits: seq<nat>)
    requires |logs| == |limits| > 0 && Growing(logs) && forall i :: 0 <= i < |limits| ==> limits[i] > 0
    requires !Polls(logs, limits).1
    ensures Polls(logs, limits).0.mirror == Replay(Events(logs[|logs| - 1]))
  {
    var p := PollsConsume(logs, limits);
  }

  class ChangeEventRepository {
    var log: Log

    constructor ()
      ensures log == []
    {
      log := [];
    }

    /** `cursor` is the sequence value the database draws for the row. */
    method Append(event: Event, cursor: nat)
      requires Increasing(log) && cursor > 0 && (log == [] || cursor > log[|log| - 1].cursor)
      modifies this
      ensures log == old(log) + [Entry(cursor, event)] && Increasing(log)
    {
      log := log + [Entry(cursor, event)];
    }

    /** A client drains the feed page by page. */
    method Drain(client: Client, limit: nat) returns (synced: Client)
      requires Increasing(log) && limit > 0
      requires exists p: nat :: Consumed(client, log, p)
      ensures synced.mirror == Replay(Events(log))
    {
      ghost var p: nat :| Consumed(client, log, p);
      synced := client;
      var more := true;
      while more
        invariant Consumed(synced, log, p)
        invariant !more ==> synced.mirror == Replay(Events(log))
        decreases |log| - p, more
      {
        ghost var p' := PollConsumes(synced, log, limit, p);
        var page := ListAfter(log, synced.cursor, limit, Some(AstroJournal));
        var mirror := AbsorbAll(synced.mirror, Events(page.0));
        if page.0 != [] {
          synced := Client(page.0[|page.0| - 1].cursor, mirror);
        }
        more := page.1;
        p := p';
      }
    }
  }
}
