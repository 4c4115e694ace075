/**
 * `audit_sources` as it runs: files are scanned with progress counters, hashed files are grouped by
 * digest and classified group by group, and the rows are put back into scan order.
 */
module SourceYearAuditor {
  import opened Options
  import Picking
  import opened CaptureDates
  import opened SourceYearPlan
  import opened SourceYearAudit

  datatype Progress = Progress(
    scanned: nat, hashed: nat, matched: nat, mismatch: nat, missingYear: nat, notInMemoryKeeper: nat,
    noPathYear: nat, hashErrors: nat)

  /** The scan stops in front of the first dated path beyond the limit. */
  function ScanLength(sources: seq<Source>, limit: Option<nat>): (k: nat)
    ensures k <= |sources|
  {
    if sources == [] then 0
    else
      var n := |sources| - 1;
      var k := ScanLength(sources[..n], limit);
      if k < n || (sources[n].pathYear.Some? && limit.Some? && Candidates(sources[..n]) >= limit.value) then k
        else n + 1
  }

  function Candidates(sources: seq<Source>): nat {
    if sources == [] then 0
    else Candidates(sources[..|sources| - 1]) + if sources[|sources| - 1].pathYear.Some? then 1 else 0
  }

  lemma {:induction false} StoppedStays(sources: seq<Source>, limit: Option<nat>, i: nat)
    requires i < |sources| && ScanLength(sources[..i], limit) == i
    requires sources[i].pathYear.Some? && limit.Some? && Candidates(sources[..i]) >= limit.value
    ensures ScanLength(sources, limit) == i
  {
    var n := |sources| - 1;
    if i < n {
      assert sources[..n][..i] == sources[..i];
      StoppedStays(sources[..n], limit, i);
    }
  }

  /** What the counter of one class counts, before ambiguity is known. */
  function CountStatus(sources: seq<Source>, records: Records, status: AuditStatus): nat {
    if sources == [] then 0
    else
      var last := sources[|sources| - 1];
      CountStatus(sources[..|sources| - 1], records, status)
        + if RowOf(last, false, records).status == status then 1 else 0
  }

  ghost predicate Counts(p: Progress, sources: seq<Source>, records: Records) {
    && p.scanned == |sources|
    && p.scanned == p.noPathYear + p.hashErrors + p.hashed
    && p.hashed == p.matched + p.mismatch + p.missingYear + p.notInMemoryKeeper
    && p.matched == CountStatus(sources, records, Match) && p.mismatch == CountStatus(sources, records, YearMismatch)
    && p.missingYear == CountStatus(sources, records, MissingEffectiveYear)
    && p.notInMemoryKeeper == CountStatus(sources, records, NotInMemoryKeeper)
    && p.noPathYear == CountStatus(sources, records, NoPathYear)
      && p.hashErrors == CountStatus(sources, records, HashError)
  }

  function Progressed(p: Progress, s: Source, records: Records): Progress {
    var q := p.(scanned := p.scanned + 1, hashed := p.hashed + if Hashed(s) then 1 else 0);
    match RowOf(s, false, records).status
    case NoPathYear => q.(noPathYear := q.noPathYear + 1)
    case HashError => q.(hashErrors := q.hashErrors + 1)
    case NotInMemoryKeeper => q.(notInMemoryKeeper := q.notInMemoryKeeper + 1)
    case MissingEffectiveYear => q.(missingYear := q.missingYear + 1)
    case Match => q.(matched := q.matched + 1)
    case _ => q.(mismatch := q.mismatch + 1)
  }

  lemma ProgressedCounts(p: Progress, sources: seq<Source>, s: Source, records: Records)
    requires Counts(p, sources, records)
    ensures Counts(Progressed(p, s, records), sources + [s], records)
  {
    CountOneMore(sources, s, records, Match);
    CountOneMore(sources, s, records, YearMismatch);
    CountOneMore(sources, s, records, MissingEffectiveYear);
    CountOneMore(sources, s, records, NotInMemoryKeeper);
    CountOneMore(sources, s, records, NoPathYear);
    CountOneMore(sources, s, records, HashError);
  }

  lemma CountOneMore(sources: seq<Source>, s: Source, records: Records, status: AuditStatus)
    ensures CountStatus(sources + [s], records, status) ==
            CountStatus(sources, records, status) + if RowOf(s, false, records).status == status then 1 else 0
  {
    assert (sources + [s])[..|sources|] == sources;
  }

  /** Each digest lists exactly the positions of its files. */
  ghost predicate Grouped(sources: seq<Source>, groups: map<Sha, seq<nat>>) {
    && (forall d :: d in groups ==> forall i :: i in groups[d] ==>
        i < |sources| && Hashed(sources[i]) && sources[i].digest == Some(d))
    && (forall i :: 0 <= i < |sources| && Hashed(sources[i]) ==>
        sources[i].digest.value in groups && i in groups[sources[i].digest.value])
  }

  lemma GroupedMore(sources: seq<Source>, groups: map<Sha, seq<nat>>, s: Source)
    requires Grouped(sources, groups) && Hashed(s)
    ensures
      var d := s.digest.value;
      Grouped(sources + [s], groups[d := (if d in groups then groups[d] else []) + [|sources|]])
  {}

  method AddToGroup(ghost sources: seq<Source>, groups: map<Sha, seq<nat>>, s: Source, index: nat)
    returns (added: map<Sha, seq<nat>>)
    requires Grouped(sources, groups) && index == |sources|
    ensures Grouped(sources + [s], added)
  {
    added := groups;
    if Hashed(s) {
      GroupedMore(sources, groups, s);
      var digest := s.digest.value;
      added := groups[digest := (if digest in groups then groups[digest] else []) + [index]];
    }
  }

  /** The rows that need no digest. */
  ghost predicate Immediate(sources: seq<Source>, records: Records, immediate: map<nat, AuditRow>) {
    && (forall i: nat :: i in immediate <==> i < |sources| && !Hashed(sources[i]))
    && (forall i: nat :: i in immediate ==> immediate[i] == RowOf(sources[i], false, records))
  }

  method AddImmediate(ghost sources: seq<Source>, records: Records, immediate: map<nat, AuditRow>, s: Source,
                      index: nat)
    returns (added: map<nat, AuditRow>)
    requires Immediate(sources, records, immediate) && index == |sources|
    ensures Immediate(sources + [s], records, added)
  {
    added := if Hashed(s) then immediate else immediate[index := RowOf(s, false, records)];
  }

  method CountFile(p: Progress, ghost sources: seq<Source>, s: Source, records: Records) returns (q: Progress)
    requires Counts(p, sources, records)
    ensures Counts(q, sources + [s], records)
  {
    ProgressedCounts(p, sources, s, records);
    q := Progressed(p, s, records);
  }

  method Scan(sources: seq<Source>, records: Records, limit: Option<nat>)
    returns (length: nat, immediate: map<nat, AuditRow>, groups: map<Sha, seq<nat>>, progress: Progress)
    ensures length == ScanLength(sources, limit) && Counts(progress, sources[..length], records)
    ensures Immediate(sources[..length], records, immediate) && Grouped(sources[..length], groups)
  {
    length, immediate, groups, progress := 0, map[], map[], Progress(0, 0, 0, 0, 0, 0, 0, 0);
    var candidates := 0;
    while length < |sources|
      invariant length <= |sources| && ScanLength(sources[..length], limit) == length
      invariant candidates == Candidates(sources[..length])
      invariant Counts(progress, sources[..length], records)
      invariant Immediate(sources[..length], records, immediate) && Grouped(sources[..length], groups)
    {
      var s := sources[length];
      if s.pathYear.Some? && limit.Some? && candidates >= limit.value {
        StoppedStays(sources, limit, length);
        return;
      }
      assert sources[..length + 1] == sources[..length] + [s] && sources[..length + 1][..length] == sources[..length];
      progress := CountFile(progress, sources[..length], s, records);
      if s.pathYear.Some? {
        candidates := candidates + 1;
      }
      groups := AddToGroup(sources[..length], groups, s, length);
      immediate := AddImmediate(sources[..length], records, immediate, s, length);
      length := length + 1;
    }
    assert sources[..length] == sources;
  }

  /** The rows of one digest: ambiguous as soon as two of its files lie under different years. */
  method ClassifyDigest(sources: seq<Source>, records: Records, digest: Sha, members: seq<nat>,
                        rows: map<nat, AuditRow>)
    returns (added: map<nat, AuditRow>)
    requires forall i :: i in members <==> 0 <= i < |sources| && Hashed(sources[i]) && sources[i].digest == Some(digest)
    requires members != []
    ensures added.Keys == rows.Keys + Positions(members)
    ensures forall i :: i in added ==>
              if i in members then i < |sources| && added[i] == Audit(sources, records)[i] else added[i] == rows[i]
  {
    added := rows;
    assert members[0] in members;
    var years := set i | i in members :: sources[i].pathYear;
    var ambiguous := |years| > 1;
    YearsDiffer(sources, digest, members, years);
    for k := 0 to |members|
      invariant added.Keys == rows.Keys + Positions(members[..k])
      invariant forall i :: i in added ==>
                  if i in members[..k] then i < |sources| && added[i] == Audit(sources, records)[i]
                  else i in rows && added[i] == rows[i]
    {
      var i := members[k];
      assert i in members;
      assert members[..k + 1] == members[..k] + [i];
      added := added[i := RowOf(sources[i], ambiguous, records)];
    }
    assert members[..|members|] == members;
  }

  function Positions(members: seq<nat>): set<nat> {
    set i | i in members
  }

  lemma YearsDiffer(sources: seq<Source>, digest: Sha, members: seq<nat>, years: set<Option<int>>)
    requires forall i :: i in members <==> 0 <= i < |sources| && Hashed(sources[i]) && sources[i].digest == Some(digest)
    requires members != [] && years == set i | i in members :: sources[i].pathYear
    ensures |years| > 1 <==> SeveralYears(sources, digest)
  {
    assert members[0] in members;
    var first := sources[members[0]].pathYear;
    assert first in years;
    if years - {first} == {} {
      assert years == {first};
      forall i, j | 0 <= i < |sources| && 0 <= j < |sources| && i in members && j in members
        ensures sources[i].pathYear == sources[j].pathYear
      {
        assert sources[i].pathYear in years && sources[j].pathYear in years;
      }
    } else {
      var other := Picking.Member(years - {first});
      assert |years - {first}| == |years| - 1;
      var j :| j in members && sources[j].pathYear == other;
    }
  }

  /** The audit of the scanned prefix, in scan order, with counters that add up. */
  method AuditSources(sources: seq<Source>, records: Records, limit: Option<nat>)
    returns (ok: bool, rows: seq<AuditRow>, progress: Progress)
    ensures ok <==> limit != Some(0)
    ensures ok ==>
              var scanned := sources[..ScanLength(sources, limit)];
              rows == Audit(scanned, records) && Counts(progress, scanned, records)
  {
    if limit == Some(0) {
      return false, [], Progress(0, 0, 0, 0, 0, 0, 0, 0);
    }
    var length, immediate, groups, counted := Scan(sources, records, limit);
    var classified := ClassifyGroups(sources[..length], records, groups, immediate);
    rows := [];
    for i := 0 to length
      invariant rows == Audit(sources[..length], records)[..i]
    {
      rows := rows + [classified[i]];
    }
    return true, rows, counted;
  }

  method ClassifyGroups(sources: seq<Source>, records: Records, groups: map<Sha, seq<nat>>,
                        immediate: map<nat, AuditRow>)
    returns (rows: map<nat, AuditRow>)
    requires Immediate(sources, records, immediate) && Grouped(sources, groups)
    ensures forall i: nat :: i < |sources| ==> i in rows && rows[i] == Audit(sources, records)[i]
  {
    rows := immediate;
    var pending := groups.Keys;
    while pending != {}
      invariant pending <= groups.Keys
      invariant forall i :: i in rows ==> i < |sources| && rows[i] == Audit(sources, records)[i]
      invariant forall i :: 0 <= i < |sources| && i !in rows ==>
                  Hashed(sources[i]) && sources[i].digest.value in pending
      decreases pending
    {
      var digest := Picking.Any(pending);
      pending := pending - {digest};
      if groups[digest] != [] {
        rows := ClassifyDigest(sources, records, digest, groups[digest], rows);
      }
    }
  }
}
