/** Uploads and downloads of rotated snapshots, over every sequence of runs (hf_state_snapshot.py). */
module SnapshotRotation {
  import opened Text
  import opened Calendar
  import opened UsageEvents
  import opened Snapshot

  /** What a rotation manifest says, as far as the program reads it back. */
  datatype Manifest = Manifest(latestPath: Option<string>, retainedPaths: Option<seq<string>>, interval: Option<nat>,
                               keep: Option<nat>)

  /** File contents: a database snapshot, a state file, a rotation manifest. */
  datatype File = Snapshot(content: string) | StateFile(sha256: string) | ManifestFile(manifest: Manifest)

  type Repository = map<string, File>

  datatype Operation = Add(path: string, file: File) | Delete(path: string)

  /** One run: its content, the time of its snapshot in seconds of Unix time, its settings, whether the listing
      can be read, and whether the commit goes through. */
  datatype Run = Run(content: string, time: nat, interval: nat, keep: nat, writeLatest: bool, listing: bool,
                     commits: bool)

  predicate RotateEnabled(run: Run) { run.interval > 0 && run.keep > 0 }

  const NO_MANIFEST: Manifest := Manifest(None, None, None, None)

  /** load_manifest, with an empty manifest for none. */
  function LoadManifest(l: Location, repo: Repository): Manifest {
    if ManifestPath(l) in repo && repo[ManifestPath(l)].ManifestFile? then repo[ManifestPath(l)].manifest
    else NO_MANIFEST
  }

  function Checksum(content: string): string { Digest(content) }

  predicate SameChecksum(l: Location, repo: Repository, content: string) {
    StatePath(l) in repo && repo[StatePath(l)].StateFile? && repo[StatePath(l)].sha256 == Checksum(content)
  }

  /** The repository's paths in the order the listing happens to have. */
  ghost predicate ListingOf(listing: seq<string>, repo: Repository) { forall p :: p in listing <==> p in repo }

  /** latest_path, if it is a history path of this snapshot. */
  predicate LatestKnown(l: Location, m: Manifest) {
    m.latestPath.Some? && m.latestPath.value != "" && IsHistory(l, m.latestPath.value)
  }

  predicate NeedsRotated(l: Location, repo: Repository, run: Run) {
    var m := LoadManifest(l, repo);
    !SameChecksum(l, repo, run.content) || !LatestKnown(l, m) || (run.listing && m.latestPath.value !in repo)
  }

  function RotatedPath(l: Location, run: Run): string { HistoryPath(l, FloorTime(run.time, run.interval)) }

  function CurrentPath(l: Location, repo: Repository, run: Run): string {
    if NeedsRotated(l, repo, run) then RotatedPath(l, run) else LoadManifest(l, repo).latestPath.value
  }

  function NonEmpty(paths: seq<string>): (r: seq<string>)
    ensures forall x :: x in r <==> x in paths && x != ""
  {
    if paths == [] then []
    else
      var n := |paths| - 1;
      assert paths == paths[..n] + [paths[n]];
      NonEmpty(paths[..n]) + if paths[n] != "" then [paths[n]] else []
  }

  function PreviousPaths(m: Manifest): seq<string> {
    if m.retainedPaths.Some? then NonEmpty(m.retainedPaths.value) else []
  }

  function RetainedBy(l: Location, repo: Repository, run: Run, listing: seq<string>): seq<string> {
    Retained(l,
             [CurrentPath(l, repo, run)] + (if run.listing then ExistingPaths(l, listing) else [])
             + PreviousPaths(LoadManifest(l, repo)),
             run.keep)
  }

  function DeletedBy(l: Location, repo: Repository, run: Run, listing: seq<string>): seq<string> {
    Deleted(l, if run.listing then ExistingPaths(l, listing) else PreviousPaths(LoadManifest(l, repo)),
            RetainedBy(l, repo, run, listing))
  }

  function NewManifest(l: Location, repo: Repository, run: Run, listing: seq<string>): Manifest {
    Manifest(Some(CurrentPath(l, repo, run)), Some(RetainedBy(l, repo, run, listing)), Some(run.interval),
             Some(run.keep))
  }

  predicate NeedsManifest(l: Location, repo: Repository, run: Run, listing: seq<string>) {
    var m := LoadManifest(l, repo);
    NeedsRotated(l, repo, run) || m.retainedPaths != Some(RetainedBy(l, repo, run, listing))
    || m.interval != Some(run.interval)
    || m.keep != Some(run.keep) || DeletedBy(l, repo, run, listing) != []
  }

  function Deletes(paths: seq<string>): (ops: seq<Operation>)
    ensures |ops| == |paths| && forall i :: 0 <= i < |paths| ==> ops[i] == Delete(paths[i])
  {
    seq(|paths|, i requires 0 <= i < |paths| => Delete(paths[i]))
  }

  /** What a run decides to do: the snapshot's own path, the state file, the rotated path, the manifest
      and the paths to delete. */
  datatype Plan = Plan(writeOwn: bool, deleteOwn: bool, writeState: bool, rotate: bool, rotated: string,
                       writeManifest: bool, manifest: Manifest, deleted: seq<string>)

  function PlanOf(l: Location, repo: Repository, run: Run, listing: seq<string>): Plan {
    var same := SameChecksum(l, repo, run.content);
    if RotateEnabled(run) then
      Plan(run.writeLatest && !same, !run.writeLatest && run.listing && PathOf(l) in repo, !same,
           NeedsRotated(l, repo, run), RotatedPath(l, run), NeedsManifest(l, repo, run, listing),
           NewManifest(l, repo, run, listing), DeletedBy(l, repo, run, listing))
    else Plan(!same, false, !same, false, "", false, NO_MANIFEST, [])
  }

  function When(b: bool, op: Operation): seq<Operation> { if b then [op] else [] }

  /** The operations of the commit, in the program's order. */
  function PlannedOperations(l: Location, p: Plan, content: string): seq<Operation> {
    When(p.writeOwn, Add(PathOf(l), Snapshot(content)))
    + When(p.deleteOwn, Delete(PathOf(l)))
    + When(p.writeState, Add(StatePath(l), StateFile(Checksum(content))))
    + When(p.rotate, Add(p.rotated, Snapshot(content)))
    + When(p.writeManifest, Add(ManifestPath(l), ManifestFile(p.manifest)))
    + Deletes(p.deleted)
  }

  function Operations(l: Location, repo: Repository, run: Run, listing: seq<string>): seq<Operation> {
    PlannedOperations(l, PlanOf(l, repo, run, listing), run.content)
  }

  function Apply(repo: Repository, op: Operation): Repository {
    match op
    case Add(path, file) => repo[path := file]
    case Delete(path) => repo - {path}
  }

  /** An atomic commit. */
  function Committed(repo: Repository, ops: seq<Operation>): Repository {
    if ops == [] then repo else Apply(Committed(repo, ops[..|ops| - 1]), ops[|ops| - 1])
  }

  /** The run does something, and it reaches its end. */
  predicate Completes(l: Location, repo: Repository, run: Run, listing: seq<string>) {
    run.content != "" && (run.commits || Operations(l, repo, run, listing) == [])
  }

  function Uploaded(l: Location, repo: Repository, run: Run, listing: seq<string>): Repository {
    if Completes(l, repo, run, listing) then Committed(repo, Operations(l, repo, run, listing)) else repo
  }

  /** download_latest: what the manifest calls the latest, or else the snapshot's own path. */
  function Downloaded(l: Location, repo: Repository): Option<File> {
    var latest := LoadManifest(l, repo).latestPath;
    if latest.Some? && latest.value != "" && latest.value in repo then Some(repo[latest.value])
    else if PathOf(l) in repo then Some(repo[PathOf(l)])
    else None
  }

  // ------------------------------------------------------------------ one commit

  /** A path that no operation names keeps its file. */
  lemma {:induction false} Untouched(repo: Repository, ops: seq<Operation>, path: string)
    requires forall op :: op in ops ==> op.path != path
    ensures (path in Committed(repo, ops) <==> path in repo)
            && (path in repo ==> Committed(repo, ops)[path] == repo[path])
  {
    if ops != [] { Untouched(repo, ops[..|ops| - 1], path); }
  }

  /** A path gets what its operation says, if there is only one. */
  lemma {:induction false} Touched(repo: Repository, ops: seq<Operation>, op: Operation)
    requires op in ops && forall q :: q in ops && q.path == op.path ==> q == op
    ensures var after := Committed(repo, ops);
            if op.Add? then op.path in after && after[op.path] == op.file else op.path !in after
  {
    var n := |ops| - 1;
    assert ops == ops[..n] + [ops[n]];
    if ops[n].path != op.path { Touched(repo, ops[..n], op); }
  }

  predicate PlanOk(l: Location, p: Plan) {
    ValidLocation(l) && !(p.writeOwn && p.deleteOwn)
    && (p.rotate ==> IsHistory(l, p.rotated) && p.rotated !in p.deleted)
    && forall x :: x in p.deleted ==> IsHistory(l, x)
  }

  predicate Planned(l: Location, p: Plan, content: string, op: Operation) {
    (p.writeOwn && op == Add(PathOf(l), Snapshot(content)))
    || (p.deleteOwn && op == Delete(PathOf(l)))
    || (p.writeState && op == Add(StatePath(l), StateFile(Checksum(content))))
    || (p.rotate && op == Add(p.rotated, Snapshot(content)))
    || (p.writeManifest && op == Add(ManifestPath(l), ManifestFile(p.manifest)))
    || (op.Delete? && op.path in p.deleted)
  }

  lemma InEither(op: Operation, a: seq<Operation>, b: seq<Operation>)
    ensures op in a + b <==> op in a || op in b
  {
  }

  lemma InDeletes(op: Operation, paths: seq<string>)
    ensures op in Deletes(paths) <==> op.Delete? && op.path in paths
  {
    if op.Delete? && op.path in paths {
      var i :| 0 <= i < |paths| && paths[i] == op.path;
      assert Deletes(paths)[i] == op;
    }
  }

  lemma OperationsArePlanned(l: Location, p: Plan, content: string, op: Operation)
    ensures op in PlannedOperations(l, p, content) <==> Planned(l, p, content, op)
  {
    var a, b := When(p.writeOwn, Add(PathOf(l), Snapshot(content))), When(p.deleteOwn, Delete(PathOf(l)));
    var c := When(p.writeState, Add(StatePath(l), StateFile(Checksum(content))));
    var d := When(p.rotate, Add(p.rotated, Snapshot(content)));
    var e := When(p.writeManifest, Add(ManifestPath(l), ManifestFile(p.manifest)));
    InEither(op, a, b);
    InEither(op, a + b, c);
    InEither(op, a + b + c, d);
    InEither(op, a + b + c + d, e);
    InEither(op, a + b + c + d + e, Deletes(p.deleted));
    InDeletes(op, p.deleted);
  }

  /** No path is named twice in a commit; in particular none is both added and deleted. */
  lemma OneOperationPerPath(l: Location, p: Plan, content: string, a: Operation, b: Operation)
    requires PlanOk(l, p) && a in PlannedOperations(l, p, content) && b in PlannedOperations(l, p, content)
             && a.path == b.path
    ensures a == b
  {
    OperationsArePlanned(l, p, content, a);
    OperationsArePlanned(l, p, content, b);
    PathsAreDistinct(l);
  }

  lemma CommitDoes(l: Location, repo: Repository, p: Plan, content: string, op: Operation)
    requires PlanOk(l, p) && Planned(l, p, content, op)
    ensures var after := Committed(repo, PlannedOperations(l, p, content));
            if op.Add? then op.path in after && after[op.path] == op.file else op.path !in after
  {
    var ops := PlannedOperations(l, p, content);
    OperationsArePlanned(l, p, content, op);
    forall q | q in ops && q.path == op.path ensures q == op { OneOperationPerPath(l, p, content, q, op); }
    Touched(repo, ops, op);
  }

  predicate Named(l: Location, p: Plan, path: string) {
    ((p.writeOwn || p.deleteOwn) && path == PathOf(l)) || (p.writeState && path == StatePath(l))
    || (p.rotate && path == p.rotated)
    || (p.writeManifest && path == ManifestPath(l)) || path in p.deleted
  }

  lemma CommitKeeps(l: Location, repo: Repository, p: Plan, content: string, path: string)
    requires !Named(l, p, path)
    ensures var after := Committed(repo, PlannedOperations(l, p, content));
            (path in after <==> path in repo) && (path in repo ==> after[path] == repo[path])
  {
    var ops := PlannedOperations(l, p, content);
    forall op | op in ops ensures op.path != path { OperationsArePlanned(l, p, content, op); }
    Untouched(repo, ops, path);
  }

  // ------------------------------------------------------------------ the invariant

  predicate RetainedStored(l: Location, repo: Repository) {
    forall x :: x in PreviousPaths(LoadManifest(l, repo)) ==> x in repo
  }

  predicate LatestIs(l: Location, repo: Repository, file: string) {
    var m := LoadManifest(l, repo);
    LatestKnown(l, m) && m.latestPath.value in repo && repo[m.latestPath.value] == Snapshot(file)
  }

  /** The manifest names a stored file, the state file has the checksum of `sum`, and every path the
      manifest retains is stored. */
  predicate HoldsFile(l: Location, repo: Repository, file: string, sum: string) {
    LatestIs(l, repo, file) && SameChecksum(l, repo, sum) && RetainedStored(l, repo)
  }

  predicate Holds(l: Location, repo: Repository, content: string) { HoldsFile(l, repo, content, content) }

  /** Before the first upload there is no rotation manifest. */
  predicate Good(l: Location, repo: Repository, last: Option<string>) {
    if last.Some? then Holds(l, repo, last.value) else LoadManifest(l, repo) == NO_MANIFEST
  }

  lemma RetainedFacts(l: Location, repo: Repository, run: Run, listing: seq<string>)
    requires ValidLocation(l) && RotateEnabled(run) && RetainedStored(l, repo)
             && (run.listing ==> ListingOf(listing, repo))
    ensures var current, retained := CurrentPath(l, repo, run), RetainedBy(l, repo, run, listing);
            var deleted := DeletedBy(l, repo, run, listing);
            IsHistory(l, current) && current in retained
            && (forall x :: x in retained ==> IsHistory(l, x) && (x == current || x in repo))
            && (forall x :: x in deleted ==> IsHistory(l, x) && x !in retained && x in repo)
  {
    var m := LoadManifest(l, repo);
    HistoryPathIsHistory(l, FloorTime(run.time, run.interval));
    if run.listing { ExistingPathsOk(l, listing); }
    var items := [CurrentPath(l, repo, run)] + (if run.listing then ExistingPaths(l, listing) else [])
                 + PreviousPaths(m);
    RetainedOk(l, items, run.keep);
    assert items[0] == CurrentPath(l, repo, run);
    FirstIsRetained(l, items, run.keep);
  }

  lemma PlanIsOk(l: Location, repo: Repository, run: Run, listing: seq<string>)
    requires ValidLocation(l) && RotateEnabled(run) && RetainedStored(l, repo)
             && (run.listing ==> ListingOf(listing, repo))
    ensures PlanOk(l, PlanOf(l, repo, run, listing))
  {
    RetainedFacts(l, repo, run, listing);
  }

  /** After the commit the state file has the new checksum. */
  lemma StateIsWritten(l: Location, repo: Repository, p: Plan, content: string)
    requires PlanOk(l, p) && (!p.writeState ==> SameChecksum(l, repo, content))
    ensures SameChecksum(l, Committed(repo, PlannedOperations(l, p, content)), content)
  {
    PathsAreDistinct(l);
    if p.writeState {
      CommitDoes(l, repo, p, content, Add(StatePath(l), StateFile(Checksum(content))));
    } else {
      CommitKeeps(l, repo, p, content, StatePath(l));
    }
  }

  lemma ManifestIsWritten(l: Location, repo: Repository, p: Plan, content: string)
    requires PlanOk(l, p)
    ensures LoadManifest(l, Committed(repo, PlannedOperations(l, p, content)))
            == if p.writeManifest then p.manifest else LoadManifest(l, repo)
  {
    PathsAreDistinct(l);
    if p.writeManifest {
      CommitDoes(l, repo, p, content, Add(ManifestPath(l), ManifestFile(p.manifest)));
    } else {
      CommitKeeps(l, repo, p, content, ManifestPath(l));
    }
  }

  /** A history path that is not deleted is stored afterwards if it was before, or is the rotated one;
      the rotated one then has the new content. */
  lemma HistoryIsKept(l: Location, repo: Repository, p: Plan, content: string, path: string)
    requires PlanOk(l, p) && IsHistory(l, path) && path !in p.deleted
    ensures var after := Committed(repo, PlannedOperations(l, p, content));
            if p.rotate && path == p.rotated then path in after && after[path] == Snapshot(content)
            else (path in after <==> path in repo) && (path in repo ==> after[path] == repo[path])
  {
    PathsAreDistinct(l);
    if p.rotate && path == p.rotated {
      CommitDoes(l, repo, p, content, Add(p.rotated, Snapshot(content)));
    } else {
      CommitKeeps(l, repo, p, content, path);
    }
  }

  /** With an unchanged checksum the content is unchanged. */
  lemma SameChecksumSameContent(l: Location, repo: Repository, sum: string, content: string)
    requires SameChecksum(l, repo, sum) && SameChecksum(l, repo, content)
    ensures sum == content
  {
    DigestInjective(sum, content);
  }

  /** What a commit leaves with rotation on: the file it rotated in, or the one that stayed. */
  lemma RotatedCommit(l: Location, repo: Repository, run: Run, listing: seq<string>, file: string)
    requires ValidLocation(l) && RotateEnabled(run) && RetainedStored(l, repo)
             && (run.listing ==> ListingOf(listing, repo))
    requires if NeedsRotated(l, repo, run) then file == run.content else LatestIs(l, repo, file)
    ensures HoldsFile(l, Committed(repo, Operations(l, repo, run, listing)), file, run.content)
  {
    var p := PlanOf(l, repo, run, listing);
    var content := run.content;
    var after := Committed(repo, PlannedOperations(l, p, content));
    var current, retained := CurrentPath(l, repo, run), RetainedBy(l, repo, run, listing);
    RetainedFacts(l, repo, run, listing);
    PlanIsOk(l, repo, run, listing);
    StateIsWritten(l, repo, p, content);
    ManifestIsWritten(l, repo, p, content);
    assert LoadManifest(l, after).latestPath == Some(current) && LoadManifest(l, after).retainedPaths == Some(retained);
    forall x | x in retained ensures x in after && (x == current ==> after[x] == Snapshot(file)) {
      HistoryIsKept(l, repo, p, content, x);
    }
  }

  /** A commit establishes the invariant for the content it uploads. */
  lemma CommitEstablishes(l: Location, repo: Repository, run: Run, listing: seq<string>, last: Option<string>)
    requires ValidLocation(l) && RotateEnabled(run) && Good(l, repo, last) && (run.listing ==> ListingOf(listing, repo))
    ensures Holds(l, Committed(repo, Operations(l, repo, run, listing)), run.content)
  {
    if !NeedsRotated(l, repo, run) && last.Some? { SameChecksumSameContent(l, repo, last.value, run.content); }
    RotatedCommit(l, repo, run, listing, run.content);
  }

  /** What else a commit with rotation on leaves: the settings in the manifest, and at the snapshot's own path
      the new content, nothing, or what was there, as the settings say. */
  lemma CommitFollowsSettings(l: Location, repo: Repository, run: Run, listing: seq<string>)
    requires ValidLocation(l) && RotateEnabled(run) && RetainedStored(l, repo)
             && (run.listing ==> ListingOf(listing, repo))
    ensures var after := Committed(repo, Operations(l, repo, run, listing));
            LoadManifest(l, after).interval == Some(run.interval) && LoadManifest(l, after).keep == Some(run.keep)
            && (if run.writeLatest
                then if SameChecksum(l, repo, run.content) then OwnFile(l, after) == OwnFile(l, repo)
                     else OwnFile(l, after) == Some(Snapshot(run.content))
                else if run.listing then OwnFile(l, after).None? else OwnFile(l, after) == OwnFile(l, repo))
  {
    var p := PlanOf(l, repo, run, listing);
    PlanIsOk(l, repo, run, listing);
    PathsAreDistinct(l);
    ManifestIsWritten(l, repo, p, run.content);
    if p.writeOwn {
      CommitDoes(l, repo, p, run.content, Add(PathOf(l), Snapshot(run.content)));
    } else if p.deleteOwn {
      CommitDoes(l, repo, p, run.content, Delete(PathOf(l)));
    } else {
      CommitKeeps(l, repo, p, run.content, PathOf(l));
    }
  }

  function OwnFile(l: Location, repo: Repository): Option<File> {
    if PathOf(l) in repo then Some(repo[PathOf(l)]) else None
  }

  // -------------------------------------------------------------------- durability

  /** Runs in a row; each sees the listing of the repository as it is. */
  ghost predicate Listings(l: Location, repo: Repository, runs: seq<(Run, seq<string>)>)
    decreases |runs|
  {
    runs != [] ==>
      (runs[0].0.listing ==> ListingOf(runs[0].1, repo))
      && Listings(l, Uploaded(l, repo, runs[0].0, runs[0].1), runs[1..])
  }

  function AllUploaded(l: Location, repo: Repository, runs: seq<(Run, seq<string>)>): Repository
    decreases |runs|
  {
    if runs == [] then repo else AllUploaded(l, Uploaded(l, repo, runs[0].0, runs[0].1), runs[1..])
  }

  /** The content of the last run that completed. */
  function LastContent(l: Location, repo: Repository, runs: seq<(Run, seq<string>)>,
                       last: Option<string>): Option<string>
    decreases |runs|
  {
    if runs == [] then last
    else
      var (run, listing) := runs[0];
      LastContent(l, Uploaded(l, repo, run, listing), runs[1..],
                  if Completes(l, repo, run, listing) then Some(run.content) else last)
  }

  lemma UploadKeepsGood(l: Location, repo: Repository, run: Run, listing: seq<string>, last: Option<string>)
    requires ValidLocation(l) && RotateEnabled(run) && Good(l, repo, last) && (run.listing ==> ListingOf(listing, repo))
    ensures Good(l, Uploaded(l, repo, run, listing),
                 if Completes(l, repo, run, listing) then Some(run.content) else last)
  {
    CommitEstablishes(l, repo, run, listing, last);
  }

  lemma HeldIsDownloaded(l: Location, repo: Repository, content: string)
    requires Holds(l, repo, content)
    ensures Downloaded(l, repo) == Some(Snapshot(content))
  {
  }

  predicate AllRotate(runs: seq<(Run, seq<string>)>) {
    forall i :: 0 <= i < |runs| ==> runs[i].0.interval > 0 && runs[i].0.keep > 0
  }

  /** Durability: whatever the intervals, keep counts, failed commits and unavailable listings of the
      runs, a download returns the content of the last completed upload. */
  lemma {:induction false} LastUploadIsDownloaded(l: Location, repo: Repository, runs: seq<(Run, seq<string>)>,
                                                  last: Option<string>)
    requires ValidLocation(l) && Good(l, repo, last) && Listings(l, repo, runs) && AllRotate(runs)
    ensures var after, content := AllUploaded(l, repo, runs), LastContent(l, repo, runs, last);
            Good(l, after, content) && (content.Some? ==> Downloaded(l, after) == Some(Snapshot(content.value)))
    decreases |runs|
  {
    if runs == [] {
      if last.Some? { HeldIsDownloaded(l, repo, last.value); }
    } else {
      var (run, listing) := runs[0];
      UploadKeepsGood(l, repo, run, listing, last);
      LastUploadIsDownloaded(l, Uploaded(l, repo, run, listing), runs[1..],
                             if Completes(l, repo, run, listing) then Some(run.content) else last);
    }
  }

  /** A commit with rotation enabled is well formed: one operation per path, deletions only of stored
      files, and never of the path the manifest calls the latest. */
  lemma CommitIsWellFormed(l: Location, repo: Repository, run: Run, listing: seq<string>, last: Option<string>,
                           a: Operation, b: Operation)
    requires ValidLocation(l) && RotateEnabled(run) && Good(l, repo, last) && (run.listing ==> ListingOf(listing, repo))
    requires a in Operations(l, repo, run, listing) && b in Operations(l, repo, run, listing)
    ensures a.path == b.path ==> a == b
    ensures a.Delete? ==> a.path in repo && a.path != CurrentPath(l, repo, run)
  {
    var p := PlanOf(l, repo, run, listing);
    PlanIsOk(l, repo, run, listing);
    RetainedFacts(l, repo, run, listing);
    OperationsArePlanned(l, p, run.content, a);
    PathsAreDistinct(l);
    if a.path == b.path { OneOperationPerPath(l, p, run.content, a, b); }
  }

  // --------------------------------------------------------------------- retention

  /** Runs with the same interval write to the same history path exactly if their snapshots are of the same
      interval; and the path names the second at which the interval began. */
  lemma RunsShareAPath(l: Location, a: Run, b: Run)
    requires a.interval == b.interval > 0
    ensures RotatedPath(l, a) == RotatedPath(l, b) <==> a.time / a.interval == b.time / a.interval
    ensures exists s: nat :: RotatedPath(l, a) == HistoryPath(l, s) && s % a.interval == 0
              && s <= a.time < s + a.interval
  {
    OnePathPerInterval(l, a.time, b.time, a.interval);
    FloorOfInterval(a.time, a.interval);
    DivModUnique(FloorTime(a.time, a.interval), a.interval, a.time / a.interval, 0);
  }

  lemma IndexOfPath(s: seq<string>, x: string) returns (i: nat)
    requires x in s
    ensures i < |s| && s[i] == x
  {
    i :| i < |s| && s[i] == x;
  }

  /** Retention, with the listing available: the history files left are among the retained paths, at
      most `keep` of them and the current one included, and every other one kept is newer by name
      than every one deleted. */
  lemma NewestHistoryIsRetained(l: Location, repo: Repository, run: Run, listing: seq<string>, last: Option<string>,
                                x: string)
    requires ValidLocation(l) && RotateEnabled(run) && Good(l, repo, last) && run.listing && ListingOf(listing, repo)
    requires IsHistory(l, x) && x in Committed(repo, Operations(l, repo, run, listing))
    ensures var retained := RetainedBy(l, repo, run, listing);
            x in retained && |retained| <= run.keep && CurrentPath(l, repo, run) in retained
            && (x != CurrentPath(l, repo, run) ==> forall d :: d in DeletedBy(l, repo, run, listing) ==> Less(d, x))
  {
    var p := PlanOf(l, repo, run, listing);
    var current := CurrentPath(l, repo, run);
    var existing, previous := ExistingPaths(l, listing), PreviousPaths(LoadManifest(l, repo));
    var items := [current] + existing + previous;
    RetainedFacts(l, repo, run, listing);
    PlanIsOk(l, repo, run, listing);
    RetainedOk(l, items, run.keep);
    ExistingPathsOk(l, listing);
    if x in p.deleted {
      PathsAreDistinct(l);
      CommitDoes(l, repo, p, run.content, Delete(x));
    } else {
      HistoryIsKept(l, repo, p, run.content, x);
    }
    assert x in RetainedBy(l, repo, run, listing);
    if x != current {
      assert x in existing;
      forall d | d in DeletedBy(l, repo, run, listing) ensures Less(d, x) {
        KeptIsNewer(l, current, existing, previous, run.keep, x, d);
      }
    }
  }

  lemma KeptIsNewer(l: Location, current: string, existing: seq<string>, previous: seq<string>, keep: nat, x: string,
                    d: string)
    requires Descending(existing) && x in existing && d in existing && IsHistory(l, d) && x != current
    requires x in Retained(l, [current] + existing + previous, keep)
             && d !in Retained(l, [current] + existing + previous, keep)
    ensures Less(d, x)
  {
    var items := [current] + existing + previous;
    var i := IndexOfPath(existing, x);
    var j := IndexOfPath(existing, d);
    assert items[i + 1] == x && items[j + 1] == d;
    if j < i {
      assert x !in items[..i + 1] by {
        forall k | 0 <= k < i + 1 ensures items[k] != x {
          if k > 0 {
            assert items[k] == existing[k - 1] && Less(existing[i], existing[k - 1]);
            LessTotal(existing[i], existing[k - 1]);
          }
        }
      }
      EarlierIsRetained(l, items, keep, i + 1, j + 1);
    }
  }

  // ------------------------------------------------------------ rotation switched off

  /** Without an interval, or with nothing to keep, a run does not rotate. */
  lemma UnrotatedOperations(l: Location, repo: Repository, run: Run, listing: seq<string>)
    requires run.interval == 0 || run.keep == 0
    ensures Operations(l, repo, run, listing)
            == if SameChecksum(l, repo, run.content) then []
               else [Add(PathOf(l), Snapshot(run.content)), Add(StatePath(l), StateFile(Checksum(run.content)))]
  {
    assert Deletes([]) == [];
  }

  /** A completed run with rotation off writes the snapshot's own path and the state file, unless the
      checksum is the same, and nothing else. */
  lemma UnrotatedCommit(l: Location, repo: Repository, run: Run, listing: seq<string>)
    requires ValidLocation(l) && !RotateEnabled(run) && Completes(l, repo, run, listing)
    ensures var after := Uploaded(l, repo, run, listing);
            if SameChecksum(l, repo, run.content) then after == repo
            else after == repo[PathOf(l) := Snapshot(run.content)][StatePath(l) := StateFile(Checksum(run.content))]
  {
    UnrotatedOperations(l, repo, run, listing);
    CommitOfTwo(repo, Add(PathOf(l), Snapshot(run.content)), Add(StatePath(l), StateFile(Checksum(run.content))));
  }

  lemma CommitOfTwo(repo: Repository, a: Operation, b: Operation)
    ensures Committed(repo, [a, b]) == Apply(Apply(repo, a), b)
  {
    assert [a, b][..1] == [a] && [a][..0] == [];
    assert Committed(repo, [a]) == Apply(repo, a);
  }

  /** The file the manifest names, if it is stored. */
  function LatestFile(l: Location, repo: Repository): Option<File> {
    var latest := LoadManifest(l, repo).latestPath;
    if latest.Some? && latest.value != "" && latest.value in repo then Some(repo[latest.value]) else None
  }

  /** Exactly when an upload of new content with rotation off is what a download returns: the manifest
      names no stored file, or the snapshot's own path, or a file that has this content already (and not
      the state file, which no program writes there). */
  lemma UnrotatedUploadIsDownloadedIff(l: Location, repo: Repository, run: Run, listing: seq<string>)
    requires ValidLocation(l) && !RotateEnabled(run) && Completes(l, repo, run, listing)
    requires !SameChecksum(l, repo, run.content)
    ensures var latest := LoadManifest(l, repo).latestPath;
            Downloaded(l, Uploaded(l, repo, run, listing)) == Some(Snapshot(run.content))
            <==> latest != Some(StatePath(l))
                 && (LatestFile(l, repo).None? || latest == Some(PathOf(l))
                     || LatestFile(l, repo) == Some(Snapshot(run.content)))
  {
    PathsAreDistinct(l);
    UnrotatedCommit(l, repo, run, listing);
  }

  /** What a repository serves: nothing yet, the snapshot's own path, or the file that the manifest names
      with the checksum of a content that may be another one. */
  datatype Served = Nothing | Own(content: string) | Manifested(file: string, sum: string)

  predicate Serves(l: Location, repo: Repository, v: Served) {
    match v
    case Nothing => LoadManifest(l, repo) == NO_MANIFEST && StatePath(l) !in repo
    case Own(content) =>
      LoadManifest(l, repo) == NO_MANIFEST && SameChecksum(l, repo, content)
      && PathOf(l) in repo && repo[PathOf(l)] == Snapshot(content)
    case Manifested(file, sum) => HoldsFile(l, repo, file, sum)
  }

  /** What a completed run makes of it. A run with rotation off leaves the manifest alone; one with
      rotation on leaves it alone too when the checksum is the same. */
  function ServedAfter(v: Served, content: string, rotate: bool): Served {
    match v
    case Nothing => if rotate then Manifested(content, content) else Own(content)
    case Own(_) => if rotate then Manifested(content, content) else Own(content)
    case Manifested(file, sum) => if content == sum then v else Manifested(if rotate then content else file, content)
  }

  /** The download is what was uploaded last. */
  predicate UpToDate(v: Served) { v.Manifested? ==> v.file == v.sum }

  lemma UnrotatedServes(l: Location, repo: Repository, run: Run, listing: seq<string>, v: Served)
    requires ValidLocation(l) && Serves(l, repo, v) && !RotateEnabled(run) && Completes(l, repo, run, listing)
    ensures Serves(l, Uploaded(l, repo, run, listing), ServedAfter(v, run.content, false))
  {
    PathsAreDistinct(l);
    UnrotatedCommit(l, repo, run, listing);
    if SameChecksum(l, repo, run.content) {
      match v
      case Own(content) => SameChecksumSameContent(l, repo, content, run.content);
      case Manifested(file, sum) => SameChecksumSameContent(l, repo, sum, run.content);
    }
  }

  lemma RotatedServes(l: Location, repo: Repository, run: Run, listing: seq<string>, v: Served)
    requires ValidLocation(l) && Serves(l, repo, v) && RotateEnabled(run) && Completes(l, repo, run, listing)
    requires run.listing ==> ListingOf(listing, repo)
    ensures Serves(l, Uploaded(l, repo, run, listing), ServedAfter(v, run.content, true))
  {
    if v.Manifested? && SameChecksum(l, repo, run.content) { SameChecksumSameContent(l, repo, v.sum, run.content); }
    RotatedCommit(l, repo, run, listing, ServedAfter(v, run.content, true).file);
  }

  function ServedAfterAll(l: Location, repo: Repository, runs: seq<(Run, seq<string>)>, v: Served): Served
    decreases |runs|
  {
    if runs == [] then v
    else
      var (run, listing) := runs[0];
      ServedAfterAll(l, Uploaded(l, repo, run, listing), runs[1..],
                     if Completes(l, repo, run, listing) then ServedAfter(v, run.content, RotateEnabled(run)) else v)
  }

  function LastOf(v: Served): Option<string> {
    match v
    case Nothing => None
    case Own(content) => Some(content)
    case Manifested(file, sum) => Some(sum)
  }

  lemma RunServes(l: Location, repo: Repository, run: Run, listing: seq<string>, v: Served)
    requires ValidLocation(l) && Serves(l, repo, v) && (run.listing ==> ListingOf(listing, repo))
    ensures Serves(l, Uploaded(l, repo, run, listing),
                   if Completes(l, repo, run, listing) then ServedAfter(v, run.content, RotateEnabled(run)) else v)
  {
    if Completes(l, repo, run, listing) {
      if RotateEnabled(run) {
        RotatedServes(l, repo, run, listing, v);
      } else {
        UnrotatedServes(l, repo, run, listing, v);
      }
    }
  }

  lemma LastIsUploaded(v: Served, content: string, rotate: bool)
    ensures LastOf(ServedAfter(v, content, rotate)) == Some(content)
  {
  }

  lemma ServedIsDownloaded(l: Location, repo: Repository, v: Served)
    requires Serves(l, repo, v) && v != Nothing
    ensures Downloaded(l, repo) == Some(Snapshot(LastOf(v).value)) <==> UpToDate(v)
  {
  }

  /** With rotation switched on and off at will, over every sequence of runs: the content uploaded last is
      known, and a download returns it exactly if what is served is up to date. */
  lemma {:induction false} DownloadsOverAllRuns(l: Location, repo: Repository, runs: seq<(Run, seq<string>)>, v: Served)
    requires ValidLocation(l) && Serves(l, repo, v) && Listings(l, repo, runs)
    ensures var after, v' := AllUploaded(l, repo, runs), ServedAfterAll(l, repo, runs, v);
            Serves(l, after, v') && LastOf(v') == LastContent(l, repo, runs, LastOf(v))
            && (v' != Nothing ==> (Downloaded(l, after) == Some(Snapshot(LastOf(v').value)) <==> UpToDate(v')))
    decreases |runs|
  {
    if runs == [] {
      if v != Nothing { ServedIsDownloaded(l, repo, v); }
    } else {
      var (run, listing) := runs[0];
      var next := if Completes(l, repo, run, listing) then ServedAfter(v, run.content, RotateEnabled(run)) else v;
      RunServes(l, repo, run, listing, v);
      LastIsUploaded(v, run.content, RotateEnabled(run));
      DownloadsOverAllRuns(l, Uploaded(l, repo, run, listing), runs[1..], next);
    }
  }

  /** The manifest goes stale with one run: new content uploaded with rotation off is not downloaded, and
      stays so when rotation is switched on again for the same content; only other content, with rotation
      on, brings it up to date. */
  lemma StaleUntilNewContent(l: Location, repo: Repository, was: string, off: Run, on: Run, listing: seq<string>,
                             seen: seq<string>)
    requires ValidLocation(l) && Holds(l, repo, was) && !RotateEnabled(off) && RotateEnabled(on) && off.content != was
    requires Completes(l, repo, off, listing) && Completes(l, Uploaded(l, repo, off, listing), on, seen)
    requires on.listing ==> ListingOf(seen, Uploaded(l, repo, off, listing))
    ensures var between := Uploaded(l, repo, off, listing);
            var after := Uploaded(l, between, on, seen);
            Downloaded(l, between) == Some(Snapshot(was))
            && Downloaded(l, after) == Some(Snapshot(if on.content == off.content then was else on.content))
  {
    UnrotatedServes(l, repo, off, listing, Manifested(was, was));
    RotatedServes(l, Uploaded(l, repo, off, listing), on, seen, Manifested(was, off.content));
  }

  // ------------------------------------------------------------------- the program

  class SnapshotRepository {
    const location: Location
    var files: Repository

    constructor (location: Location, files: Repository)
      ensures this.location == location && this.files == files
    {
      this.location, this.files := location, files;
    }

    method ChooseCurrent(run: Run) returns (needsRotated: bool, current: string)
      ensures needsRotated == NeedsRotated(location, files, run) && current == CurrentPath(location, files, run)
    {
      var rotated := HistoryPath(location, FloorTime(run.time, run.interval));
      var manifest := LoadManifest(location, files);
      var latestKnown := LatestKnown(location, manifest);
      var latestMissing := run.listing && latestKnown && manifest.latestPath.value !in files;
      needsRotated := !SameChecksum(location, files, run.content) || !latestKnown || latestMissing;
      current := if needsRotated then rotated else manifest.latestPath.value;
    }

    method ChooseRetained(run: Run, listing: seq<string>, current: string)
      returns (retained: seq<string>, deleted: seq<string>)
      requires RotateEnabled(run) && current == CurrentPath(location, files, run)
      ensures retained == RetainedBy(location, files, run, listing)
              && deleted == DeletedBy(location, files, run, listing)
    {
      var previous := PreviousPaths(LoadManifest(location, files));
      var existing := if run.listing then ExistingPaths(location, listing) else [];
      retained := RetainedHistoryPaths(location, current, previous, existing, run.keep);
      deleted := Deleted(location, if run.listing then existing else previous, retained);
    }

    /** The operations on the history and the manifest, appended to those before them. */
    method Rotate(run: Run, listing: seq<string>, before: seq<Operation>) returns (operations: seq<Operation>)
      requires RotateEnabled(run)
      ensures operations
              == before
                 + When(NeedsRotated(location, files, run), Add(RotatedPath(location, run), Snapshot(run.content)))
                 + When(NeedsManifest(location, files, run, listing),
                        Add(ManifestPath(location), ManifestFile(NewManifest(location, files, run, listing))))
                 + Deletes(DeletedBy(location, files, run, listing))
    {
      operations := before;
      var needsRotated, current := ChooseCurrent(run);
      var retained, deleted := ChooseRetained(run, listing, current);
      var manifest := LoadManifest(location, files);
      if needsRotated {
        operations := operations
                      + [Add(HistoryPath(location, FloorTime(run.time, run.interval)), Snapshot(run.content))];
      }
      if needsRotated || manifest.retainedPaths != Some(retained) || manifest.interval != Some(run.interval)
         || manifest.keep != Some(run.keep) || deleted != []
      {
        var renewed := Manifest(Some(current), Some(retained), Some(run.interval), Some(run.keep));
        operations := operations + [Add(ManifestPath(location), ManifestFile(renewed))];
      }
      operations := operations + Deletes(deleted);
    }

    /** The operations on the snapshot's own path and on the state file. */
    method WriteState(run: Run, listing: seq<string>) returns (operations: seq<Operation>)
      ensures var p := PlanOf(location, files, run, listing);
              operations
              == When(p.writeOwn, Add(PathOf(location), Snapshot(run.content)))
                 + When(p.deleteOwn, Delete(PathOf(location)))
                 + When(p.writeState, Add(StatePath(location), StateFile(Checksum(run.content))))
    {
      var writeLatest := run.writeLatest || !RotateEnabled(run);
      var same := SameChecksum(location, files, run.content);
      operations := [];
      if writeLatest {
        if !same {
          operations := operations + [Add(PathOf(location), Snapshot(run.content))];
        }
      } else if run.listing && PathOf(location) in files {
        operations := operations + [Delete(PathOf(location))];
      }
      if !same {
        operations := operations + [Add(StatePath(location), StateFile(Checksum(run.content)))];
      }
    }

    method PlanCommit(run: Run, listing: seq<string>) returns (operations: seq<Operation>)
      ensures operations == Operations(location, files, run, listing)
    {
      operations := WriteState(run, listing);
      if RotateEnabled(run) {
        operations := Rotate(run, listing, operations);
      }
    }

    method UploadSnapshot(run: Run, listing: seq<string>) returns (completed: bool)
      modifies this`files
      ensures files == Uploaded(location, old(files), run, listing)
      ensures completed <==> Completes(location, old(files), run, listing)
    {
      if run.content == "" {
        return false;
      }
      var operations := PlanCommit(run, listing);
      if operations == [] {
        return true;
      }
      if !run.commits {
        return false;
      }
      files := Committed(files, operations);
      return true;
    }

    method DownloadLatest() returns (file: Option<File>)
      ensures file == Downloaded(location, files)
    {
      file := None;
      var latest := LoadManifest(location, files).latestPath;
      if latest.Some? && latest.value != "" && latest.value in files {
        file := Some(files[latest.value]);
      }
      if file.None? && PathOf(location) in files {
        file := Some(files[PathOf(location)]);
      }
    }
  }
}
