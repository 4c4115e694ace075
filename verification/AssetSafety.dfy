/**
 * Which files lose stored assets, and what refers to such a file before and after: a clean-up spares
 * every used file, a Reset deletes the assets of used files before it knows that it will succeed.
 */
module AssetSafety {
  import opened Options
  import opened ChangeFeed
  import opened ObservationRecords
  import opened AstroStore
  import opened AstroInvariants
  import opened ResetContract

  /** Nothing keeps the file's assets, and there is something left to remove. */
  predicate Removable(db: Db, f: FileId, service: Service) {
    && f in db.files && (db.files[f].deleted ==> HasPaths(db.files[f]))
    && !LinkedElsewhere(db, f, service) && !VisionBusy(db, f) && !SolvePending(db, f)
    && (service.AstroJournal? ==> !Referenced(db.records, f))
  }

  /**
   * The storage is asked exactly for removable files. No active record uses one, even when a service
   * that does not look at records acts, because a used file has an AstroJournal link.
   */
  lemma CleanupSparesUsedFiles(db: Db, f: FileId, service: Service, assets: Assets)
    requires FilesInv(db)
    ensures
      var verdict := CleanupVerdict(db, f, service, assets);
      && (verdict.Cleaned? || verdict.AssetDeleteFailed? <==> Removable(db, f, service))
      && (verdict.Cleaned? <==> Removable(db, f, service) && Succeeded(assets))
      && (verdict.FileNotFound? <==> f !in db.files)
    ensures Removable(db, f, service) ==>
              && !Referenced(db.records, f)
              && forall l :: l in db.links && l.fileId == f ==> l.service == service
  {
    ActiveAreLinked(db);
  }

  /** A cleaned file is an unreferenced tombstone, and cleaning it again finds nothing to do. */
  lemma CleanedForGood(db: Db, c: Call, again: Service, assets: Assets)
    requires FilesInv(db) && Enabled(db, c) && c.Cleanup? && CleanupVerdict(db, c.fileId, c.service, c.assets).Cleaned?
    ensures
      var db' := After(db, c);
      && db'.files == db.files[c.fileId := FileRow(true, None, None, None)]
      && !Referenced(db'.records, c.fileId)
      && (forall l :: l in db'.links <==> l in db.links && l.fileId != c.fileId)
      && CleanupVerdict(db', c.fileId, again, assets).AlreadyCleaned?
      && After(db', Cleanup(c.fileId, again, assets)) == db'
  {
    var db' := After(db, c);
    CleanupSparesUsedFiles(db, c.fileId, c.service, c.assets);
    assert !VisionBusy(db', c.fileId);
    assert !SolvePending(db', c.fileId);
    ClearsNothing(db', Cleanup(c.fileId, again, assets));
  }

  lemma ClearsNothing(db: Db, c: Call)
    requires c.Cleanup?
    requires
      var verdict := CleanupVerdict(db, c.fileId, c.service, c.assets);
      verdict.AlreadyCleaned? || verdict.AssetDeleteFailed?
    ensures Enabled(db, c) && After(db, c) == db
  {
    var db' := After(db, c);
    assert db'.visions == db.visions;
    assert db'.tags == db.tags;
    assert db'.metadata == db.metadata;
    assert db'.events == db.events;
  }

  /** After a storage failure nothing has changed in the database, and a retry that succeeds cleans the file. */
  lemma FailedCleanupCanBeRetried(db: Db, c: Call, retry: Assets)
    requires FilesInv(db) && Enabled(db, c) && c.Cleanup? && Succeeded(retry)
    requires CleanupVerdict(db, c.fileId, c.service, c.assets).AssetDeleteFailed?
    ensures After(db, c) == db && CleanupVerdict(After(db, c), c.fileId, c.service, retry).Cleaned?
  {
    CleanupSparesUsedFiles(db, c.fileId, c.service, c.assets);
    ClearsNothing(db, c);
    CleanupSparesUsedFiles(db, c.fileId, c.service, retry);
  }

  // ------------------------------------------------------------------ reset

  function AnswerFor(answers: map<FileId, Assets>, f: FileId): Assets {
    if f in answers then answers[f] else Assets(Unsuccessful, Unsuccessful, Unsuccessful)
  }

  /** Whether everything the storage is asked for before this file was deleted: uploads, then smaller ids. */
  predicate Reaches(files: set<FileId>, deletions: map<FileId, Assets>, f: FileId) {
    f in files && forall g :: g in files && g < f ==> Succeeded(AnswerFor(deletions, g))
  }

  predicate UploadsGone(db: Db, incoming: map<int, Asset>) {
    forall u :: u in AstroUploads(db) ==> u in incoming && !incoming[u].Unsuccessful?
  }

  /** The files whose assets a call asks the storage to delete, successfully or not. */
  predicate DeletesAssets(db: Db, c: Call, f: FileId) {
    match c
    case Cleanup(file, service, assets) =>
      var verdict := CleanupVerdict(db, file, service, assets);
      f == file && (verdict.Cleaned? || verdict.AssetDeleteFailed?)
    case Reset(incoming, deletions) =>
      !ResetBlocked(db) && UploadsGone(db, incoming) && Reaches(AstroOnly(db), deletions, f)
    case _ => false
  }

  function Acting(c: Call): Service {
    match c
    case Cleanup(_, service, _) => service
    case OtherReset(service) => service
    case _ => AstroJournal
  }

  /**
   * No call asks for the assets of a file another service links or removes such a link, and a Reset is
   * the only call that asks for the assets of a file an active record uses.
   */
  lemma SharedFilesArePreserved(db: Db, c: Call, f: FileId)
    requires FilesInv(db) && Enabled(db, c)
    ensures DeletesAssets(db, c, f) ==> !LinkedElsewhere(db, f, Acting(c))
    ensures DeletesAssets(db, c, f) && Referenced(db.records, f) ==> c.Reset?
    ensures forall l :: l in db.links && l.service != Acting(c) ==> l in After(db, c).links
  {
    ActiveAreLinked(db);
  }

  /** A Reset that asks for a used file's assets ends its use or, if it fails, leaves every row as it was. */
  lemma UsedFilesInAReset(db: Db, c: Call, f: FileId)
    requires FilesInv(db) && Enabled(db, c) && c.Reset? && DeletesAssets(db, c, f)
    ensures ResetSucceeds(db, c) ==>
              && !Referenced(After(db, c).records, f) && After(db, c).files[f] == FileRow(true, None, None, None)
              && forall l :: l in After(db, c).links ==> l.fileId != f
    ensures !ResetSucceeds(db, c) ==> After(db, c) == db
  {
    if ResetSucceeds(db, c) {
      SuccessClearsAstroJournal(db, c);
    } else {
      FailureChangesNothing(db, c);
    }
  }

  predicate SomeDeleted(a: Assets) {
    a.original.Deleted? || a.preview.Deleted? || a.thumb.Deleted?
  }

  function StorageAnswer(c: Call, f: FileId): Assets {
    match c
    case Cleanup(_, _, assets) => assets
    case Reset(_, deletions) => AnswerFor(deletions, f)
    case _ => Assets(AlreadyAbsent, AlreadyAbsent, AlreadyAbsent)
  }

  /** The storage deleted an asset of the file, and afterwards an active record still uses the file. */
  ghost predicate Strands(db: Db, c: Call, f: FileId) {
    && Enabled(db, c)
    && DeletesAssets(db, c, f) && SomeDeleted(StorageAnswer(c, f)) && Referenced(After(db, c).records, f)
  }

  /** Exactly the failing Resets that reached a used file strand it. */
  lemma StrandingCalls(db: Db, c: Call, f: FileId)
    requires FilesInv(db) && Enabled(db, c)
    ensures Strands(db, c, f) <==>
            && c.Reset? && !ResetSucceeds(db, c) && Referenced(db.records, f)
            && DeletesAssets(db, c, f) && SomeDeleted(StorageAnswer(c, f))
  {
    SharedFilesArePreserved(db, c, f);
    if c.Reset? && DeletesAssets(db, c, f) {
      UsedFilesInAReset(db, c, f);
    } else if c.Cleanup? {
      assert After(db, c).records == db.records;
    }
  }

  /** What the storage answers for one path: a path that is not stored is already absent. */
  predicate HonestFor(path: Option<string>, a: Asset) {
    !Stored(path) ==> a.AlreadyAbsent?
  }

  predicate Honest(f: FileRow, a: Assets) {
    HonestFor(f.original, a.original) && HonestFor(f.preview, a.preview) && HonestFor(f.thumb, a.thumb)
  }

  /** The storage may fail on stored paths only. */
  predicate HonestReset(db: Db, c: Call) {
    c.Reset? && forall f :: f in AstroOnly(db) ==> f in c.deletions && Honest(db.files[f], c.deletions[f])
  }

  predicate SeveralPaths(f: FileRow) {
    (Stored(f.original) && Stored(f.preview)) || (Stored(f.thumb) && (Stored(f.original) || Stored(f.preview)))
  }

  /**
   * A Reset would run now, the used file has assets, and another stored path comes after its first one: in
   * the file itself, or in an Astro-only file of larger id.
   */
  predicate CanBeStranded(db: Db, f: FileId) {
    && !ResetBlocked(db) && f in AstroOnly(db) && Referenced(db.records, f) && HasPaths(db.files[f])
    && (SeveralPaths(db.files[f]) || exists g :: g in AstroOnly(db) && g > f && HasPaths(db.files[g]))
  }

  function Removed(path: Option<string>): Asset {
    if Stored(path) then Deleted else AlreadyAbsent
  }

  function AllRemoved(f: FileRow): Assets {
    Assets(Removed(f.original), Removed(f.preview), Removed(f.thumb))
  }

  /** The last stored path cannot be deleted. */
  function LastRefused(f: FileRow): (a: Assets)
    requires HasPaths(f)
    ensures Honest(f, a) && !Succeeded(a) && (SeveralPaths(f) ==> SomeDeleted(a))
  {
    if Stored(f.thumb) then AllRemoved(f).(thumb := Unsuccessful)
    else if Stored(f.preview) then AllRemoved(f).(preview := Unsuccessful)
    else AllRemoved(f).(original := Unsuccessful)
  }

  /** Everything is deleted but the last stored path of one file. */
  function RefusedAt(db: Db, g: FileId): Call
    requires g in AstroOnly(db) && HasPaths(db.files[g])
  {
    Reset(map u | u in AstroUploads(db) :: Deleted,
          map f | f in AstroOnly(db) :: if f == g then LastRefused(db.files[f]) else AllRemoved(db.files[f]))
  }

  lemma RefusedAtReaches(db: Db, f: FileId, g: FileId)
    requires !ResetBlocked(db) && f in AstroOnly(db) && g in AstroOnly(db) && f <= g && HasPaths(db.files[g])
    ensures HonestReset(db, RefusedAt(db, g)) && DeletesAssets(db, RefusedAt(db, g), f)
    ensures !ResetSucceeds(db, RefusedAt(db, g))
  {
    assert !Succeeded(RefusedAt(db, g).deletions[g]);
  }

  lemma RefusedAtStrands(db: Db, f: FileId, g: FileId)
    requires FilesInv(db) && !ResetBlocked(db) && f in AstroOnly(db) && g in AstroOnly(db) && f <= g
    requires Referenced(db.records, f) && HasPaths(db.files[f]) && HasPaths(db.files[g])
    requires f == g ==> SeveralPaths(db.files[f])
    ensures HonestReset(db, RefusedAt(db, g)) && Strands(db, RefusedAt(db, g), f)
  {
    var c := RefusedAt(db, g);
    assert Enabled(db, c);
    RefusedAtReaches(db, f, g);
    assert SomeDeleted(c.deletions[f]);
    StrandingCalls(db, c, f);
  }

  lemma StrandedOnlyIf(db: Db, c: Call, f: FileId)
    requires FilesInv(db) && HonestReset(db, c) && Strands(db, c, f)
    ensures CanBeStranded(db, f)
  {
    StrandingCalls(db, c, f);
    var g :| g in AstroOnly(db) && !Succeeded(c.deletions[g]);
    assert f <= g;
    assert Honest(db.files[g], c.deletions[g]) && Honest(db.files[f], c.deletions[f]);
  }

  /**
   * Some failure of the storage makes a Reset strand the file exactly if the file can be stranded; a used
   * file with one stored path that no other follows cannot.
   */
  lemma WhenFilesCanBeStranded(db: Db, f: FileId)
    requires FilesInv(db)
    ensures (exists c :: HonestReset(db, c) && Strands(db, c, f)) <==> CanBeStranded(db, f)
  {
    if CanBeStranded(db, f) {
      if SeveralPaths(db.files[f]) {
        RefusedAtStrands(db, f, f);
      } else {
        var g :| g in AstroOnly(db) && g > f && HasPaths(db.files[g]);
        RefusedAtStrands(db, f, g);
      }
    }
    forall c | HonestReset(db, c) && Strands(db, c, f) ensures CanBeStranded(db, f) {
      StrandedOnlyIf(db, c, f);
    }
  }
}
