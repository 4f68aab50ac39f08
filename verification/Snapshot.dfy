/** Snapshot rotation in a repository of files that changes by atomic commits (hf_state_snapshot.py). */
module Snapshot {
  import opened Text
  import opened Calendar

  // ---------------------------------------------------------------------- order

  /** Python's order on strings, by code point. */
  predicate Less(a: string, b: string) {
    b != "" && (a == "" || a[0] < b[0] || (a[0] == b[0] && Less(a[1..], b[1..])))
  }

  lemma {:induction false} LessTotal(a: string, b: string)
    ensures (Less(a, b) && a != b && !Less(b, a)) || (a == b && !Less(a, b) && !Less(b, a))
            || (Less(b, a) && a != b && !Less(a, b))
  {
    if a != "" && b != "" {
      LessTotal(a[1..], b[1..]);
      assert a == [a[0]] + a[1..] && b == [b[0]] + b[1..];
    }
  }

  lemma {:induction false} LessTransitive(a: string, b: string, c: string)
    requires Less(a, b) && Less(b, c)
    ensures Less(a, c)
  {
    if a != "" && a[0] == b[0] && b[0] == c[0] { LessTransitive(a[1..], b[1..], c[1..]); }
  }

  predicate Descending(s: seq<string>) { forall i, j :: 0 <= i < j < |s| ==> Less(s[j], s[i]) }

  /** x put in its place, unless it is already there. */
  function Placed(x: string, s: seq<string>): seq<string> {
    if s == [] || Less(s[0], x) then [x] + s
    else if s[0] == x then s
    else [s[0]] + Placed(x, s[1..])
  }

  lemma {:induction false} PlacedOk(x: string, s: seq<string>)
    requires Descending(s)
    ensures Descending(Placed(x, s))
    ensures forall y :: y in Placed(x, s) <==> y == x || y in s
  {
    if s == [] {
    } else if Less(s[0], x) {
      forall i | 0 <= i < |s| ensures Less(s[i], x) { if i > 0 { LessTransitive(s[i], s[0], x); } }
    } else if s[0] != x {
      LessTotal(s[0], x);
      PlacedOk(x, s[1..]);
      var r := Placed(x, s[1..]);
      forall i | 0 <= i < |r| ensures Less(r[i], s[0]) {
        assert r[i] in r;
        if r[i] != x { var j :| 0 <= j < |s[1..]| && s[1..][j] == r[i]; }
      }
      assert s == [s[0]] + s[1..];
    }
  }

  // ---------------------------------------------------------------------- paths

  /** A normalised repository path, cut as pathlib cuts it: `dir` is empty or ends in a slash, `suffix`
      is empty or the last dot with what follows it. */
  datatype Location = Location(dir: string, stem: string, suffix: string)

  predicate ValidLocation(l: Location) {
    l.stem != "" && Free(l.stem, '/') && Free(l.suffix, '/')
    && (l.suffix != "" ==> l.suffix[0] == '.' && Free(l.suffix[1..], '.'))
  }

  function PathOf(l: Location): string { l.dir + l.stem + l.suffix }
  function ManifestPath(l: Location): string { l.dir + l.stem + ".manifest.json" }
  function StatePath(l: Location): string { ManifestPath(l) + ".state.json" }
  function HistoryPrefix(l: Location): string { l.dir + l.stem + ".history" + "/" }

  /** The bucket is in Unix time. */
  function HistoryPath(l: Location, bucket: nat): string {
    HistoryPrefix(l) + CompactText(UNIX_EPOCH + bucket * SECOND) + if l.suffix == "" then ".db" else l.suffix
  }

  predicate IsHistory(l: Location, path: string) { HistoryPrefix(l) <= path && path != HistoryPrefix(l) }

  /** floor_time, in whole seconds of Unix time. */
  function FloorTime(time: nat, interval: nat): (bucket: nat)
    ensures bucket <= time && (interval > 0 ==> time < bucket + interval)
  {
    if interval == 0 then time else time - time % interval
  }

  lemma FloorOfInterval(time: nat, interval: nat)
    requires interval > 0
    ensures FloorTime(time, interval) == time / interval * interval
  {
  }

  /** All snapshots of one interval share a history path, and those of different intervals do not. */
  lemma OnePathPerInterval(l: Location, s: nat, t: nat, interval: nat)
    requires interval > 0
    ensures HistoryPath(l, FloorTime(s, interval)) == HistoryPath(l, FloorTime(t, interval))
            <==> s / interval == t / interval
  {
    var a, b := FloorTime(s, interval), FloorTime(t, interval);
    FloorOfInterval(s, interval);
    FloorOfInterval(t, interval);
    if HistoryPath(l, a) == HistoryPath(l, b) {
      SamePathSameSecond(l, a, b);
      DivModUnique(a, interval, s / interval, 0);
      DivModUnique(b, interval, t / interval, 0);
    }
  }

  lemma SecondsApart(a: nat, b: nat)
    requires (UNIX_EPOCH + a * SECOND) / SECOND == (UNIX_EPOCH + b * SECOND) / SECOND
    ensures a == b
  {
    DivModUnique(UNIX_EPOCH + a * SECOND, SECOND, UNIX_EPOCH / SECOND + a, 0);
    DivModUnique(UNIX_EPOCH + b * SECOND, SECOND, UNIX_EPOCH / SECOND + b, 0);
  }

  lemma SamePathSameSecond(l: Location, a: nat, b: nat)
    requires HistoryPath(l, a) == HistoryPath(l, b)
    ensures a == b
  {
    var s, t := UNIX_EPOCH + a * SECOND, UNIX_EPOCH + b * SECOND;
    SameMiddle(HistoryPrefix(l), CompactText(s), CompactText(t), if l.suffix == "" then ".db" else l.suffix);
    CompactTextInjective(s, t);
    SecondsApart(a, b);
  }

  /** Two texts that differ after a common start differ. */
  lemma TailsDiffer(base: string, x: string, y: string)
    requires x != y
    ensures base + x != base + y
  {
    assert (base + x)[|base|..] == x && (base + y)[|base|..] == y;
  }

  lemma NotHistory(l: Location, tail: string)
    requires |tail| <= 8 || tail[8] != '/' || tail[1] != 'h'
    ensures !IsHistory(l, l.dir + l.stem + tail)
  {
    var n := |l.dir + l.stem|;
    var path := l.dir + l.stem + tail;
    assert HistoryPrefix(l)[n + 8] == '/' && HistoryPrefix(l)[n + 1] == 'h';
    assert |tail| > 8 ==> path[n + 8] == tail[8] && path[n + 1] == tail[1];
  }

  /** The snapshot itself, its manifest, its state file and the history never share a path. */
  lemma PathsAreDistinct(l: Location)
    requires ValidLocation(l)
    ensures PathOf(l) != ManifestPath(l) && PathOf(l) != StatePath(l) && ManifestPath(l) != StatePath(l)
    ensures !IsHistory(l, PathOf(l)) && !IsHistory(l, ManifestPath(l)) && !IsHistory(l, StatePath(l))
  {
    var base := l.dir + l.stem;
    var manifest, state := ".manifest.json", ".manifest.json.state.json";
    assert StatePath(l) == base + state;
    assert manifest[1..][8] == '.' && state[1..][8] == '.';
    TailsDiffer(base, l.suffix, manifest);
    TailsDiffer(base, l.suffix, state);
    TailsDiffer(base, manifest, state);
    NotHistory(l, l.suffix);
    NotHistory(l, manifest);
    NotHistory(l, state);
  }

  lemma HistoryPathIsHistory(l: Location, bucket: nat)
    ensures IsHistory(l, HistoryPath(l, bucket))
  {
  }

  // ---------------------------------------------------------------- retained paths

  /** existing_history_paths, for a listing in any order. */
  function ExistingPaths(l: Location, listing: seq<string>): seq<string> {
    if listing == [] then []
    else
      var rest := ExistingPaths(l, listing[..|listing| - 1]);
      if IsHistory(l, listing[|listing| - 1]) then Placed(listing[|listing| - 1], rest) else rest
  }

  lemma {:induction false} ExistingPathsOk(l: Location, listing: seq<string>)
    ensures Descending(ExistingPaths(l, listing))
    ensures forall y :: y in ExistingPaths(l, listing) <==> y in listing && IsHistory(l, y)
  {
    if listing != [] {
      var n := |listing| - 1;
      ExistingPathsOk(l, listing[..n]);
      PlacedOk(listing[n], ExistingPaths(l, listing[..n]));
      assert listing == listing[..n] + [listing[n]];
    }
  }

  /** retained_history_paths: the first `keep` distinct history paths. */
  function Retained(l: Location, items: seq<string>, keep: nat): (r: seq<string>) {
    if items == [] then []
    else
      var before := Retained(l, items[..|items| - 1], keep);
      var item := items[|items| - 1];
      if |before| >= keep || item in before || !IsHistory(l, item) then before else before + [item]
  }

  method RetainedHistoryPaths(l: Location, current: string, previous: seq<string>, existing: seq<string>, keep: nat)
    returns (retained: seq<string>)
    requires keep > 0
    ensures retained == Retained(l, [current] + existing + previous, keep)
  {
    retained := [];
    var seen: set<string> := {};
    var items := [current] + existing + previous;
    var i := 0;
    while i < |items|
      invariant 0 <= i <= |items| && |retained| < keep
      invariant retained == Retained(l, items[..i], keep)
      invariant seen == set x | x in retained
    {
      var item := items[i];
      assert items[..i + 1][..i] == items[..i];
      i := i + 1;
      if item == "" || item in seen || !IsHistory(l, item) {
        continue;
      }
      seen := seen + {item};
      retained := retained + [item];
      if |retained| >= keep {
        FullIsFinal(l, items, keep, i);
        return;
      }
    }
    assert items[..i] == items;
  }

  /** Once full, nothing that follows is retained. */
  lemma {:induction false} FullIsFinal(l: Location, items: seq<string>, keep: nat, i: nat)
    requires i <= |items| && |Retained(l, items[..i], keep)| >= keep
    ensures Retained(l, items, keep) == Retained(l, items[..i], keep)
  {
    if i < |items| {
      var n := |items| - 1;
      assert items[..n][..i] == items[..i];
      FullIsFinal(l, items[..n], keep, i);
    } else {
      assert items[..i] == items;
    }
  }

  predicate Distinct(s: seq<string>) { forall i, j :: 0 <= i < j < |s| ==> s[i] != s[j] }

  lemma {:induction false} RetainedOk(l: Location, items: seq<string>, keep: nat)
    ensures var r := Retained(l, items, keep);
            |r| <= keep && Distinct(r) && forall x :: x in r ==> x in items && IsHistory(l, x)
  {
    if items != [] {
      RetainedOk(l, items[..|items| - 1], keep);
    }
  }

  /** Taking more items never drops a retained one. */
  lemma {:induction false} RetainedGrows(l: Location, items: seq<string>, keep: nat, i: nat)
    requires i <= |items|
    ensures forall x :: x in Retained(l, items[..i], keep) ==> x in Retained(l, items, keep)
  {
    if i < |items| {
      var n := |items| - 1;
      assert items[..n][..i] == items[..i];
      RetainedGrows(l, items[..n], keep, i);
    } else {
      assert items[..i] == items;
    }
  }

  lemma FirstIsRetained(l: Location, items: seq<string>, keep: nat)
    requires items != [] && keep > 0 && IsHistory(l, items[0])
    ensures items[0] in Retained(l, items, keep)
  {
    assert items[..1][..0] == [];
    assert Retained(l, items[..1], keep) == [items[0]];
    RetainedGrows(l, items, keep, 1);
  }

  /** Whatever comes before a retained item is retained too. */
  lemma {:induction false} EarlierIsRetained(l: Location, items: seq<string>, keep: nat, i: nat, j: nat)
    requires j < i < |items| && items[i] in Retained(l, items, keep) && items[i] !in items[..i]
             && IsHistory(l, items[j])
    ensures items[j] in Retained(l, items, keep)
  {
    var n := |items| - 1;
    var init := items[..n];
    if items[i] in Retained(l, init, keep) {
      RetainedOk(l, init, keep);
      if i < n {
        assert init[..i] == items[..i];
        EarlierIsRetained(l, init, keep, i, j);
      } else {
        assert false;
      }
    } else {
      assert |Retained(l, init, keep)| < keep;
      RoomMeansAll(l, init, keep, j);
    }
  }

  /** With room left, every history path was taken. */
  lemma {:induction false} RoomMeansAll(l: Location, items: seq<string>, keep: nat, j: nat)
    requires |Retained(l, items, keep)| < keep && j < |items| && IsHistory(l, items[j])
    ensures items[j] in Retained(l, items, keep)
  {
    var n := |items| - 1;
    if j < n { RoomMeansAll(l, items[..n], keep, j); }
  }

  /** deleted_history_paths. */
  function Deleted(l: Location, candidates: seq<string>, retained: seq<string>): (r: seq<string>)
    ensures forall x :: x in r <==> x in candidates && IsHistory(l, x) && x !in retained
  {
    if candidates == [] then []
    else
      var n := |candidates| - 1;
      var rest := Deleted(l, candidates[..n], retained);
      assert candidates == candidates[..n] + [candidates[n]];
      if IsHistory(l, candidates[n]) && candidates[n] !in retained then rest + [candidates[n]] else rest
  }
}
