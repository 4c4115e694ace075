/**
 * The shared HTTP client of the metered providers: a caller checks the month's quota, sends its request,
 * and adds the usage once the provider has answered. Check and charge are separate transactions, so
 * callers in between count on units that others are about to use.
 */
module ApiClients {
  import opened ApiUsage

  /** Which counter the client charges; the hard-capped one is charged by reservations instead. */
  datatype Meter = Meter(provider: Provider, api: Api, config: Config)

  datatype State = State(table: Table, year: nat, month: nat, inFlight: set<nat>)

  /** `Fail` is a request or an answer that raises; it charges nothing. */
  datatype Event =
    | Check(caller: nat)
    | Charge(caller: nat)
    | Fail(caller: nat)
    | Tick(year: nat, month: nat)

  function MonthKey(meter: Meter, year: nat, month: nat): Key {
    Key(meter.provider, meter.api, year, month)
  }

  function Now(meter: Meter, s: State): Key {
    MonthKey(meter, s.year, s.month)
  }

  predicate Later(year: nat, month: nat, key: Key) {
    key.year < year || (key.year == year && key.month < month)
  }

  predicate Enabled(callers: set<nat>, s: State, event: Event) {
    match event
    case Check(caller) => caller in callers && caller !in s.inFlight
    case Charge(caller) => caller in s.inFlight
    case Fail(caller) => caller in s.inFlight
    case Tick(year, month) => Later(year, month, Key(Local, Vision, s.year, s.month))
  }

  function Next(meter: Meter, s: State, event: Event): State {
    match event
    case Check(caller) =>
      var table := Effect(s.table, meter.config, Read(Now(meter, s)));
      s.(table := table,
         inFlight := if CanUse(table, meter.config, Now(meter, s), 1) then s.inFlight + {caller} else s.inFlight)
    case Charge(caller) =>
      s.(table := Effect(s.table, meter.config, Increase(Now(meter, s), 1)), inFlight := s.inFlight - {caller})
    case Fail(caller) => s.(inFlight := s.inFlight - {caller})
    case Tick(year, month) => s.(year := year, month := month)
  }

  function Start(year: nat, month: nat): State {
    State(map[], year, month, {})
  }

  ghost function Play(meter: Meter, start: State, events: seq<Event>): State {
    if events == [] then start
    else Next(meter, Play(meter, start, events[..|events| - 1]), events[|events| - 1])
  }

  ghost predicate Legal(meter: Meter, callers: set<nat>, start: State, events: seq<Event>) {
    events == [] ||
    (var earlier := events[..|events| - 1];
     && Legal(meter, callers, start, earlier)
     && Enabled(callers, Play(meter, start, earlier), events[|events| - 1]))
  }

  function MeterLimit(meter: Meter): nat {
    EffectiveLimit(meter.config, meter.api)
  }

  /** What a month can reach: all callers but one may be on their way when the last unit is used. */
  function Ceiling(meter: Meter, callers: set<nat>): int {
    if MeterLimit(meter) == 0 then 0 else MeterLimit(meter) + |callers| - 1
  }

  ghost predicate Bounded(meter: Meter, callers: set<nat>, s: State) {
    && Settled(s.table, meter.config)
    && s.inFlight <= callers
    && Used(s.table, Now(meter, s)) + |s.inFlight| <= Ceiling(meter, callers)
    && forall year: nat, month: nat :: (year, month) != (s.year, s.month) ==>
         (var key := MonthKey(meter, year, month);
          if Later(s.year, s.month, key) then Used(s.table, key) <= Ceiling(meter, callers)
          else Used(s.table, key) == 0)
  }

  lemma SubsetSize(a: set<nat>, b: set<nat>)
    requires a <= b
    ensures |a| <= |b|
  {
    assert b == a + (b - a);
  }

  /** A check, a charge, a failure or a new month leaves every month within the ceiling. */
  lemma BoundedStep(meter: Meter, callers: set<nat>, s: State, event: Event)
    requires Bounded(meter, callers, s) && Enabled(callers, s, event)
    ensures Bounded(meter, callers, Next(meter, s, event))
  {
    var next := Next(meter, s, event);
    match event
    case Check(caller) =>
      forall key ensures Used(next.table, key) == Used(s.table, key) {
        EffectStep(s.table, meter.config, Read(Now(meter, s)), key);
      }
      SubsetSize(next.inFlight, callers);
    case Charge(caller) =>
      forall key ensures Used(next.table, key) <= Used(s.table, key) + if key == Now(meter, s) then 1 else 0 {
        EffectStep(s.table, meter.config, Increase(Now(meter, s), 1), key);
      }
      EffectStep(s.table, meter.config, Increase(Now(meter, s), 1), Now(meter, s));
    case Fail(caller) =>
    case Tick(year, month) =>
      SubsetSize(s.inFlight, callers);
      assert Used(s.table, MonthKey(meter, year, month)) == 0;
  }

  lemma {:induction false} PlayBounded(meter: Meter, callers: set<nat>, year: nat, month: nat, events: seq<Event>)
    requires Legal(meter, callers, Start(year, month), events)
    ensures Bounded(meter, callers, Play(meter, Start(year, month), events))
  {
    if events == [] {
      SubsetSize({}, callers);
    } else {
      var earlier := events[..|events| - 1];
      PlayBounded(meter, callers, year, month, earlier);
      BoundedStep(meter, callers, Play(meter, Start(year, month), earlier), events[|events| - 1]);
    }
  }

  /** Over every run, whatever months pass between check and charge, no month passes the ceiling. */
  lemma MonthsStayBelowCeiling(
    meter: Meter, callers: set<nat>, start: State, events: seq<Event>, year: nat, month: nat
  )
    requires start == Start(start.year, start.month) && Legal(meter, callers, start, events)
    ensures
      Used(Play(meter, start, events).table, MonthKey(meter, year, month)) <= AtLeastZero(Ceiling(meter, callers))
  {
    PlayBounded(meter, callers, start.year, start.month, events);
  }

  lemma Append(meter: Meter, callers: set<nat>, start: State, events: seq<Event>, event: Event)
    requires Legal(meter, callers, start, events) && Enabled(callers, Play(meter, start, events), event)
    ensures Legal(meter, callers, start, events + [event])
    ensures Play(meter, start, events + [event]) == Next(meter, Play(meter, start, events), event)
  {
    assert (events + [event])[..|events|] == events;
  }

  /** A run of the meter with this many units used and these callers on their way, in the first month. */
  ghost predicate Leads(
    meter: Meter, callers: set<nat>, start: State, events: seq<Event>, used: int, inFlight: set<nat>
  ) {
    && Legal(meter, callers, start, events)
    && var s := Play(meter, start, events);
       && Settled(s.table, meter.config)
       && s.year == start.year && s.month == start.month && s.inFlight == inFlight
       && Used(s.table, Now(meter, s)) == used
  }

  lemma Admit(
    meter: Meter, callers: set<nat>, start: State, events: seq<Event>, used: nat, inFlight: set<nat>, caller: nat
  )
    requires Leads(meter, callers, start, events, used, inFlight)
    requires caller in callers && caller !in inFlight && used < MeterLimit(meter)
    ensures Leads(meter, callers, start, events + [Check(caller)], used, inFlight + {caller})
  {
    var s := Play(meter, start, events);
    Append(meter, callers, start, events, Check(caller));
    EffectStep(s.table, meter.config, Read(Now(meter, s)), Now(meter, s));
  }

  lemma Settle(
    meter: Meter, callers: set<nat>, start: State, events: seq<Event>, used: nat, inFlight: set<nat>, caller: nat
  )
    requires Leads(meter, callers, start, events, used, inFlight)
    requires caller in inFlight && !Hard(Now(meter, start))
    ensures Leads(meter, callers, start, events + [Charge(caller)], used + 1, inFlight - {caller})
  {
    var s := Play(meter, start, events);
    Append(meter, callers, start, events, Charge(caller));
    EffectStep(s.table, meter.config, Increase(Now(meter, s), 1), Now(meter, s));
  }

  lemma {:induction false} UseUp(meter: Meter, callers: set<nat>, start: State, caller: nat, units: nat)
    returns (events: seq<Event>)
    requires start == Start(start.year, start.month) && !Hard(Now(meter, start))
    requires caller in callers && units <= MeterLimit(meter)
    ensures Leads(meter, callers, start, events, units, {})
  {
    if units == 0 {
      events := [];
    } else {
      events := UseUp(meter, callers, start, caller, units - 1);
      Admit(meter, callers, start, events, units - 1, {}, caller);
      Settle(meter, callers, start, events + [Check(caller)], units - 1, {} + {caller}, caller);
      assert {} + {caller} - {caller} == {};
      events := events + [Check(caller)] + [Charge(caller)];
    }
  }

  lemma {:induction false} AdmitAll(
    meter: Meter, callers: set<nat>, start: State, events: seq<Event>, used: nat, todo: set<nat>
  ) returns (more: seq<Event>)
    requires Leads(meter, callers, start, events, used, {})
    requires todo <= callers && used < MeterLimit(meter)
    ensures Leads(meter, callers, start, more, used, todo)
  {
    if todo == {} {
      more := events;
    } else {
      var caller :| caller in todo;
      more := AdmitAll(meter, callers, start, events, used, todo - {caller});
      Admit(meter, callers, start, more, used, todo - {caller}, caller);
      assert todo - {caller} + {caller} == todo;
      more := more + [Check(caller)];
    }
  }

  lemma {:induction false} ChargeAll(
    meter: Meter, callers: set<nat>, start: State, events: seq<Event>, used: nat, inFlight: set<nat>
  ) returns (more: seq<Event>)
    requires Leads(meter, callers, start, events, used, inFlight) && !Hard(Now(meter, start))
    ensures Leads(meter, callers, start, more, used + |inFlight|, {})
    decreases |inFlight|
  {
    if inFlight == {} {
      more := events;
    } else {
      var caller :| caller in inFlight;
      Settle(meter, callers, start, events, used, inFlight, caller);
      more := ChargeAll(meter, callers, start, events + [Charge(caller)], used + 1, inFlight - {caller});
    }
  }

  /** The ceiling is reached, for every limit of at least one: everybody sees the last unit, then uses it. */
  lemma CeilingIsReached(meter: Meter, callers: set<nat>, start: State) returns (events: seq<Event>)
    requires start == Start(start.year, start.month) && !Hard(Now(meter, start))
    requires callers != {} && MeterLimit(meter) > 0
    ensures Legal(meter, callers, start, events)
    ensures Used(Play(meter, start, events).table, Now(meter, start)) == MeterLimit(meter) + |callers| - 1
  {
    var caller :| caller in callers;
    events := UseUp(meter, callers, start, caller, MeterLimit(meter) - 1);
    events := AdmitAll(meter, callers, start, events, MeterLimit(meter) - 1, callers);
    events := ChargeAll(meter, callers, start, events, MeterLimit(meter) - 1, callers);
  }

  ghost predicate NeverPassesLimit(meter: Meter, callers: set<nat>, start: State) {
    forall events: seq<Event>, year: nat, month: nat :: Legal(meter, callers, start, events) ==>
      Used(Play(meter, start, events).table, MonthKey(meter, year, month)) <= MeterLimit(meter)
  }

  /** Checking before the request protects the monthly limit exactly for one caller, or for a limit of zero. */
  lemma CheckSufficesForOneCaller(meter: Meter, callers: set<nat>, start: State)
    requires start == Start(start.year, start.month) && !Hard(Now(meter, start))
    ensures NeverPassesLimit(meter, callers, start) <==> MeterLimit(meter) == 0 || |callers| <= 1
  {
    if MeterLimit(meter) == 0 || |callers| <= 1 {
      forall events: seq<Event>, year: nat, month: nat | Legal(meter, callers, start, events)
        ensures Used(Play(meter, start, events).table, MonthKey(meter, year, month)) <= MeterLimit(meter)
      {
        MonthsStayBelowCeiling(meter, callers, start, events, year, month);
      }
    } else {
      var events := CeilingIsReached(meter, callers, start);
      assert Used(Play(meter, start, events).table, MonthKey(meter, start.year, start.month)) > MeterLimit(meter);
    }
  }
}
