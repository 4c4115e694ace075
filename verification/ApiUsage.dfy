/**
 * Monthly usage of the external APIs. A provider call is paid for by a reservation that is refused
 * once it would pass the month's effective limit; other callers add usage after the fact.
 */
module ApiUsage {

  datatype Provider = Google | Weather | Astrometry | Local
  datatype Api = Vision | Geocoding | Places | WeatherApi | PlateSolve | OtherApi(name: string)

  datatype Config = Config(vision: int, geocoding: int, weather: int, plateSolve: int)

  datatype Key = Key(provider: Provider, api: Api, year: int, month: int)

  datatype Usage = Usage(used: nat, limit: nat, remaining: nat, deleted: bool)

  type Table = map<Key, Usage>

  const VISION_SAFE_MONTHLY_LIMIT: nat := 900

  function AtLeastZero(n: int): nat {
    if n < 0 then 0 else n
  }

  function EffectiveLimit(config: Config, api: Api): nat {
    match api
    case Vision =>
      var configured := AtLeastZero(config.vision);
      if configured < VISION_SAFE_MONTHLY_LIMIT then configured else VISION_SAFE_MONTHLY_LIMIT
    case Geocoding => AtLeastZero(config.geocoding)
    case Places => AtLeastZero(config.geocoding)
    case WeatherApi => AtLeastZero(config.weather)
    case PlateSolve => AtLeastZero(config.plateSolve)
    case OtherApi(_) => 0
  }

  /** Which setting limits which API; VISION has a ceiling of its own, and an unknown API has no units. */
  lemma LimitOfEachApi(config: Config, name: string)
    ensures EffectiveLimit(config, Vision) ==
            if config.vision <= 0 then 0 else if 900 <= config.vision then 900 else config.vision
    ensures EffectiveLimit(config, Geocoding) == if config.geocoding <= 0 then 0 else config.geocoding
    ensures EffectiveLimit(config, Places) == if config.geocoding <= 0 then 0 else config.geocoding
    ensures EffectiveLimit(config, WeatherApi) == if config.weather <= 0 then 0 else config.weather
    ensures EffectiveLimit(config, PlateSolve) == if config.plateSolve <= 0 then 0 else config.plateSolve
    ensures EffectiveLimit(config, OtherApi(name)) == 0
  {}

  datatype Call =
    | Reserve(key: Key, units: nat)
    | Increase(key: Key, units: nat)
    | Read(key: Key)

  function NewUsage(limit: nat): Usage {
    Usage(0, limit, limit, false)
  }

  function Limit(config: Config, key: Key): nat {
    EffectiveLimit(config, key.api)
  }

  /** INSERT .. ON CONFLICT DO NOTHING. */
  function Initialized(table: Table, key: Key, limit: nat): Table {
    if key in table then table else table[key := NewUsage(limit)]
  }

  function Added(usage: Usage, units: nat, limit: nat): Usage {
    usage.(used := usage.used + units, limit := limit,
           remaining := AtLeastZero(limit - (usage.used + units)))
  }

  predicate Hard(key: Key) {
    key.provider.Google? && key.api.Vision?
  }

  function Used(table: Table, key: Key): nat {
    if key in table then table[key].used else 0
  }

  function GrantedReservation(table: Table, config: Config, key: Key, units: nat): nat {
    if 1 <= units && Used(table, key) + units <= Limit(config, key) then units else 0
  }

  /** Units the call charges; zero for a refused or failing call. */
  function Granted(table: Table, config: Config, call: Call): nat {
    match call
    case Reserve(key, units) => GrantedReservation(table, config, key, units)
    case Increase(key, units) =>
      if Hard(key) then GrantedReservation(table, config, key, units)
      else if key in table && table[key].deleted then 0 else units
    case Read(_) => 0
  }

  function Reserved(table: Table, config: Config, key: Key, units: nat): Table {
    var limit := Limit(config, key);
    if units < 1 || limit < units then table
    else
      var initialized := Initialized(table, key, limit);
      if initialized[key].used + units <= limit
      then initialized[key := Added(initialized[key], units, limit).(deleted := false)]
      else initialized
  }

  function Fetched(table: Table, config: Config, key: Key): Table {
    var limit := Limit(config, key);
    if key !in table then table[key := NewUsage(limit)]
    else if table[key].deleted || table[key].limit == limit then table
    else table[key := Added(table[key], 0, limit)]
  }

  function Effect(table: Table, config: Config, call: Call): Table {
    match call
    case Reserve(key, units) => Reserved(table, config, key, units)
    case Increase(key, units) =>
      if Hard(key) then
        if GrantedReservation(table, config, key, units) > 0
        then Fetched(Reserved(table, config, key, units), config, key)
        else Reserved(table, config, key, units)
      else
        var fetched := Fetched(table, config, key);
        if fetched[key].deleted then fetched
        else fetched[key := Added(fetched[key], units, Limit(config, key))]
    case Read(key) => Fetched(table, config, key)
  }

  /** Every stored row has the configured limit and its exact remainder. */
  ghost predicate Settled(table: Table, config: Config) {
    forall key :: key in table ==>
      && table[key].limit == Limit(config, key) && !table[key].deleted
      && table[key].remaining == AtLeastZero(table[key].limit - table[key].used)
  }

  ghost function Run(table: Table, config: Config, calls: seq<Call>): Table {
    if calls == [] then table else Effect(Run(table, config, calls[..|calls| - 1]), config, calls[|calls| - 1])
  }

  ghost function Charged(table: Table, config: Config, calls: seq<Call>, key: Key): nat {
    if calls == [] then 0
    else
      var earlier, last := calls[..|calls| - 1], calls[|calls| - 1];
      Charged(table, config, earlier, key) +
      if last.key == key then Granted(Run(table, config, earlier), config, last) else 0
  }

  /** Whether only reservations charge the key: PLATESOLVE is used this way, VISION always is. */
  ghost predicate ReservedOnly(calls: seq<Call>, key: Key) {
    Hard(key) || forall i :: 0 <= i < |calls| ==> calls[i].key == key ==> !calls[i].Increase?
  }

  lemma ReservedStep(table: Table, config: Config, key: Key, units: nat)
    requires Settled(table, config)
    ensures Settled(Reserved(table, config, key, units), config)
    ensures forall k :: Used(Reserved(table, config, key, units), k) ==
                        Used(table, k) + if k == key then GrantedReservation(table, config, key, units) else 0
  {}

  lemma EffectStep(table: Table, config: Config, call: Call, key: Key)
    requires Settled(table, config)
    ensures Settled(Effect(table, config, call), config)
    ensures Used(Effect(table, config, call), key) ==
            Used(table, key) + if call.key == key then Granted(table, config, call) else 0
  {
    match call
    case Reserve(k, units) => ReservedStep(table, config, k, units);
    case Read(k) => FetchedStep(table, config, k);
    case Increase(k, units) =>
      if Hard(k) {
        ReservedStep(table, config, k, units);
        FetchedStep(Reserved(table, config, k, units), config, k);
      } else {
        FetchedStep(table, config, k);
      }
  }

  lemma FetchedStep(table: Table, config: Config, key: Key)
    requires Settled(table, config)
    ensures Settled(Fetched(table, config, key), config)
    ensures forall k :: Used(Fetched(table, config, key), k) == Used(table, k)
    ensures key in Fetched(table, config, key)
  {}

  /**
   * Over any sequence of calls from all workers, a month's used units are exactly the units granted,
   * the stored remainder is exact, and a key charged by reservations only stays within its limit.
   */
  lemma {:induction false} UsageConserved(config: Config, calls: seq<Call>, key: Key)
    ensures Settled(Run(map[], config, calls), config)
    ensures Used(Run(map[], config, calls), key) == Charged(map[], config, calls, key)
    ensures ReservedOnly(calls, key) ==> Used(Run(map[], config, calls), key) <= Limit(config, key)
  {
    if calls != [] {
      var earlier, last := calls[..|calls| - 1], calls[|calls| - 1];
      UsageConserved(config, earlier, key);
      EffectStep(Run(map[], config, earlier), config, last, key);
      assert ReservedOnly(calls, key) ==> ReservedOnly(earlier, key);
      assert calls[|calls| - 1] == last;
    }
  }

  /** `can_use`: the month's remainder, never shown below zero, covers the units. */
  predicate CanUse(table: Table, config: Config, key: Key, units: nat) {
    AtLeastZero(Limit(config, key) - Used(table, key)) >= units
  }

  /** Usage added after a provider call is not capped: it stays within the limit exactly if it had room. */
  lemma IncreaseFits(table: Table, config: Config, key: Key, units: nat)
    requires Settled(table, config) && !Hard(key)
    ensures
      Used(Effect(table, config, Increase(key, units)), key) <= Limit(config, key) <==>
      Used(table, key) + units <= Limit(config, key)
  {
    EffectStep(table, config, Increase(key, units), key);
  }

  /** Whether the month is within its limit after each of the calls. */
  ghost predicate WithinLimit(config: Config, calls: seq<Call>, key: Key) {
    forall n :: 0 <= n <= |calls| ==> Used(Run(map[], config, calls[..n]), key) <= Limit(config, key)
  }

  ghost predicate EachIncreaseFits(config: Config, calls: seq<Call>, key: Key) {
    forall i :: 0 <= i < |calls| ==>
      calls[i].Increase? && calls[i].key == key ==>
        CanUse(Run(map[], config, calls[..i]), config, key, calls[i].units)
  }

  lemma RunStep(config: Config, calls: seq<Call>, key: Key, n: nat)
    requires n < |calls|
    ensures Settled(Run(map[], config, calls[..n]), config)
    ensures Used(Run(map[], config, calls[..n + 1]), key) ==
            Used(Run(map[], config, calls[..n]), key)
            + if calls[n].key == key then Granted(Run(map[], config, calls[..n]), config, calls[n]) else 0
  {
    UsageConserved(config, calls[..n], key);
    EffectStep(Run(map[], config, calls[..n]), config, calls[n], key);
    assert calls[..n + 1][..n] == calls[..n];
  }

  lemma {:induction false} FittingPrefix(config: Config, calls: seq<Call>, key: Key, n: nat)
    requires !Hard(key) && EachIncreaseFits(config, calls, key) && n <= |calls|
    ensures Used(Run(map[], config, calls[..n]), key) <= Limit(config, key)
  {
    if n > 0 {
      FittingPrefix(config, calls, key, n - 1);
      RunStep(config, calls, key, n - 1);
    }
  }

  /**
   * The exact condition for a month that is not hard-capped: it is within its limit after every call if
   * and only if each addition to it found room at that moment. Reservations need no condition.
   */
  lemma LimitHoldsIffIncreasesFit(config: Config, calls: seq<Call>, key: Key)
    requires !Hard(key)
    ensures WithinLimit(config, calls, key) <==> EachIncreaseFits(config, calls, key)
  {
    if WithinLimit(config, calls, key) {
      forall i | 0 <= i < |calls| && calls[i].Increase? && calls[i].key == key
        ensures CanUse(Run(map[], config, calls[..i]), config, key, calls[i].units)
      {
        RunStep(config, calls, key, i);
        assert Used(Run(map[], config, calls[..i + 1]), key) <= Limit(config, key);
      }
    }
    if EachIncreaseFits(config, calls, key) {
      forall n | 0 <= n <= |calls| ensures Used(Run(map[], config, calls[..n]), key) <= Limit(config, key) {
        FittingPrefix(config, calls, key, n);
      }
    }
  }

  class ApiUsageRepository {
    var rows: Table
    const config: Config

    constructor (config: Config)
      ensures rows == map[] && this.config == config
    {
      rows := map[];
      this.config := config;
    }

    /** A refusal because `units` is below one is the source's ValueError. */
    method ReserveUsage(key: Key, units: nat) returns (reserved: bool)
      modifies this
      ensures rows == Effect(old(rows), config, Reserve(key, units))
      ensures reserved <==> Granted(old(rows), config, Reserve(key, units)) > 0
      ensures
        var used := if key in old(rows) then old(rows)[key].used else 0;
        var limit := EffectiveLimit(config, key.api);
        && (reserved <==> 1 <= units && used + units <= limit)
        && rows == if reserved then old(rows)[key := Usage(used + units, limit, limit - (used + units), false)]
                   else old(rows)
    {
      var limit := EffectiveLimit(config, key.api);
      if units < 1 || units > limit {
        return false;
      }
      if key !in rows {
        rows := rows[key := NewUsage(limit)];
      }
      var usage := rows[key];
      reserved := usage.used + units <= limit;
      if reserved {
        usage := usage.(used := usage.used + units);
        usage := usage.(limit := limit);
        usage := usage.(remaining := limit - usage.used);
        usage := usage.(deleted := false);
        rows := rows[key := usage];
      }
    }

    /** Fails, as the unique key does, when the month's row was deleted. */
    method GetOrCreate(key: Key) returns (found: bool)
      modifies this
      ensures rows == Effect(old(rows), config, Read(key))
      ensures found <==> key in rows && !rows[key].deleted
      ensures
        var limit := EffectiveLimit(config, key.api);
        if key !in old(rows) then rows == old(rows)[key := Usage(0, limit, limit, false)]
        else
          var row := old(rows)[key];
          rows == if row.deleted || row.limit == limit then old(rows)
                  else old(rows)[key := Usage(row.used, limit, if row.used <= limit then limit - row.used else 0,
                                              false)]
    {
      var limit := EffectiveLimit(config, key.api);
      if key in rows {
        var usage := rows[key];
        if usage.deleted {
          return false;
        }
        if usage.limit != limit {
          usage := usage.(limit := limit);
          usage := usage.(remaining := if limit < usage.used then 0 else limit - usage.used);
          rows := rows[key := usage];
        }
        return true;
      }
      rows := rows[key := NewUsage(limit)];
      return true;
    }

    /** Raises, without a charge, when the hard-capped VISION reservation is refused. */
    method IncreaseUsage(key: Key, units: nat) returns (ok: bool)
      modifies this
      ensures rows == Effect(old(rows), config, Increase(key, units))
      ensures ok ==> Granted(old(rows), config, Increase(key, units)) == units
      ensures !ok ==> Granted(old(rows), config, Increase(key, units)) == 0
      ensures
        var used := if key in old(rows) then old(rows)[key].used else 0;
        var limit := EffectiveLimit(config, key.api);
        var capped := key.provider == Google && key.api == Vision;
        && (ok <==> if capped then 1 <= units && used + units <= limit
                    else key in old(rows) ==> !old(rows)[key].deleted)
        && rows == if !ok then old(rows)
                   else old(rows)[key := Usage(used + units, limit,
                                               if used + units <= limit then limit - (used + units) else 0, false)]
    {
      if key.provider.Google? && key.api.Vision? {
        ok := ReserveUsage(key, units);
        if ok {
          ok := GetOrCreate(key);
        }
        return;
      }
      ok := GetOrCreate(key);
      if ok {
        var limit := EffectiveLimit(config, key.api);
        var usage := rows[key];
        usage := usage.(used := usage.used + units);
        usage := usage.(remaining := if limit < usage.used then 0 else limit - usage.used);
        rows := rows[key := usage];
      }
    }
  }
}
