/** The incremental library scan (`get_songs`): every chart-file path is matched against
    the ids already stored, new or changed files are built into songs, and stored ids that
    no path matched are deleted.

    `DEBUG` is on in the source, so a failure other than a decoding error or a
    `SongException` ends the whole scan: nothing is deleted and nothing is saved. */
module LibrarySync {
  import opened Results
  import opened SongAssembly

  /** What a finished scan hands to the database: the songs to save and the ids to
      delete. */
  datatype ScanResult = ScanResult(songs: seq<Song>, deleted: set<string>)

  /** What the scan needs from the rest of the importer: the id of a chart-file path and
      the outcome of building the song at a path. The lemmas below hold for any builder;
      the importer's own is `SongBuilder`. */
  datatype Builder = Builder(idOf: string -> string, build: string -> Result<Song>)

  /** The importer's builder: MD5 ids and `Song(path)`. */
  function SongBuilder(env: Env): Builder {
    Builder(env.idOf, path => Assemble(env, path))
  }

  /** Every song a builder builds carries the id of its path. */
  ghost predicate KeepsIds(b: Builder) {
    forall path | b.build(path).Ok? :: b.build(path).value.id == b.idOf(path)
  }

  /** A failure that only skips its file: a decoding error or a `SongException`. */
  predicate Skips(f: Failure) {
    f.DecodeFailure? || f.SongFailure?
  }

  /** The scan loop from a given point: `known` is what is left of the stored ids,
      `songs` what has been built so far. Each path's id is popped from `known` before
      anything else; in changed-only mode a popped (stored) id is not parsed again. */
  function SyncFrom(b: Builder, changedOnly: bool, known: set<string>, songs: seq<Song>,
                    paths: seq<string>): Result<ScanResult>
    decreases |paths|
  {
    if paths == [] then Ok(ScanResult(songs, known))
    else
      var id := b.idOf(paths[0]);
      var remaining := known - {id};
      if changedOnly && id in known then SyncFrom(b, changedOnly, remaining, songs, paths[1..])
      else
        match b.build(paths[0])
        case Ok(song) => SyncFrom(b, changedOnly, remaining, songs + [song], paths[1..])
        case Err(f) =>
          if Skips(f) then SyncFrom(b, changedOnly, remaining, songs, paths[1..]) else Err(f)
  }

  /** `get_songs` over the stored ids and the enumerated chart-file paths. */
  function Sync(b: Builder, changedOnly: bool, known: set<string>, paths: seq<string>): Result<ScanResult> {
    SyncFrom(b, changedOnly, known, [], paths)
  }

  /** The loop of `get_songs`, popping ids from the stored set and collecting songs. */
  method GetSongs(env: Env, changedOnly: bool, known: set<string>, paths: seq<string>)
    returns (r: Result<ScanResult>)
    ensures r == Sync(SongBuilder(env), changedOnly, known, paths)
  {
    var b := SongBuilder(env);
    var knownSongs := known;
    var songs: seq<Song> := [];
    for i := 0 to |paths|
      invariant Sync(b, changedOnly, known, paths) == SyncFrom(b, changedOnly, knownSongs, songs, paths[i..])
    {
      assert paths[i..][0] == paths[i] && paths[i..][1..] == paths[i + 1..];
      var path := paths[i];
      var songId := env.idOf(path);
      var isKnown := songId in knownSongs;
      knownSongs := knownSongs - {songId};
      if changedOnly && isKnown {
        continue;
      }
      var song := NewSong(env, path);
      if song.Ok? {
        songs := songs + [song.value];
      } else if !Skips(song.failure) {
        return Err(song.failure);
      }
    }
    return Ok(ScanResult(songs, knownSongs));
  }

  // ---------------------------------------------------------------------------
  // A reference description of the scan

  /** The ids of the enumerated paths. */
  function IdsOf(b: Builder, paths: seq<string>): set<string>
    decreases |paths|
  {
    if paths == [] then {} else {b.idOf(paths[0])} + IdsOf(b, paths[1..])
  }

  /** No two paths share an id (the MD5 digests of distinct paths do not collide). */
  predicate DistinctIds(b: Builder, paths: seq<string>) {
    forall i, j | 0 <= i < j < |paths| :: b.idOf(paths[i]) != b.idOf(paths[j])
  }

  /** The paths that get parsed: all of them, or in changed-only mode those whose id was
      not stored. */
  function Considered(b: Builder, changedOnly: bool, known: set<string>, paths: seq<string>): seq<string>
    decreases |paths|
  {
    if paths == [] then []
    else
      (if changedOnly && b.idOf(paths[0]) in known then [] else [paths[0]])
      + Considered(b, changedOnly, known, paths[1..])
  }

  /** Building the song of `path` fails with an exception that ends the scan. */
  predicate Fatal(b: Builder, path: string) {
    b.build(path).Err? && !Skips(b.build(path).failure)
  }

  /** The songs that the paths build, in order; failures are left out. */
  function Built(b: Builder, paths: seq<string>): seq<Song>
    decreases |paths|
  {
    if paths == [] then []
    else (if b.build(paths[0]).Ok? then [b.build(paths[0]).value] else [])
         + Built(b, paths[1..])
  }

  /** The ids of some songs. */
  function SongIds(songs: seq<Song>): set<string> {
    set s | s in songs :: s.id
  }

  /** What the database holds after a scan: the stored ids minus the deleted ones, plus
      the saved songs. */
  function Stored(known: set<string>, r: ScanResult): set<string> {
    (known - r.deleted) + SongIds(r.songs)
  }

  // ---------------------------------------------------------------------------
  // Lemmas

  /** The importer's builder gives each song the MD5 id of its chart file. */
  lemma SongBuilderKeepsIds(env: Env)
    ensures KeepsIds(SongBuilder(env))
  {
    forall path | SongBuilder(env).build(path).Ok?
      ensures SongBuilder(env).build(path).value.id == env.idOf(path)
    {
      assert SongBuilder(env).build(path) == Assemble(env, path);
    }
  }

  /** The deleted ids are the stored ids that no enumerated path has, whichever files
      failed to parse: every path's id is popped before it is parsed. */
  lemma {:induction false} DeletedAreUnmatched(b: Builder, changedOnly: bool, known: set<string>,
                                               songs: seq<Song>, paths: seq<string>)
    ensures SyncFrom(b, changedOnly, known, songs, paths).Ok? ==>
              SyncFrom(b, changedOnly, known, songs, paths).value.deleted == known - IdsOf(b, paths)
    decreases |paths|
  {
    if paths != [] {
      var id := b.idOf(paths[0]);
      var remaining := known - {id};
      DeletedAreUnmatched(b, changedOnly, remaining, songs, paths[1..]);
      if b.build(paths[0]).Ok? {
        DeletedAreUnmatched(b, changedOnly, remaining, songs + [b.build(paths[0]).value], paths[1..]);
      }
      assert remaining - IdsOf(b, paths[1..]) == known - IdsOf(b, paths);
    }
  }

  /** The deletion rule of a whole scan. */
  lemma DeletedIds(b: Builder, changedOnly: bool, known: set<string>, paths: seq<string>)
    ensures Sync(b, changedOnly, known, paths).Ok? ==>
              Sync(b, changedOnly, known, paths).value.deleted == known - IdsOf(b, paths)
  {
    DeletedAreUnmatched(b, changedOnly, known, [], paths);
  }

  lemma {:induction false} IdsOfHas(b: Builder, paths: seq<string>, i: nat)
    requires i < |paths|
    ensures b.idOf(paths[i]) in IdsOf(b, paths)
    decreases i
  {
    if i > 0 {
      IdsOfHas(b, paths[1..], i - 1);
    }
  }

  lemma {:induction false} IdsOfLacks(b: Builder, paths: seq<string>, id: string)
    requires forall i | 0 <= i < |paths| :: b.idOf(paths[i]) != id
    ensures id !in IdsOf(b, paths)
    decreases |paths|
  {
    if paths != [] {
      IdsOfLacks(b, paths[1..], id);
    }
  }

  /** Popping the first path's id keeps the loop's agreement with the stored ids for the
      paths still to come. */
  lemma PopFirst(b: Builder, known: set<string>, current: set<string>, paths: seq<string>)
    requires paths != [] && DistinctIds(b, paths)
    requires forall p | p in paths :: (b.idOf(p) in current <==> b.idOf(p) in known)
    ensures DistinctIds(b, paths[1..])
    ensures b.idOf(paths[0]) in current <==> b.idOf(paths[0]) in known
    ensures forall q | q in paths[1..] ::
              (b.idOf(q) in current - {b.idOf(paths[0])} <==> b.idOf(q) in known)
    ensures (current - {b.idOf(paths[0])}) - IdsOf(b, paths[1..]) == current - IdsOf(b, paths)
  {
    var id, rest := b.idOf(paths[0]), paths[1..];
    assert paths[0] in paths;
    forall i, j | 0 <= i < j < |rest| ensures b.idOf(rest[i]) != b.idOf(rest[j]) {
      assert rest[i] == paths[i + 1] && rest[j] == paths[j + 1];
    }
    forall k | 0 <= k < |rest| ensures b.idOf(rest[k]) != id {
      assert rest[k] == paths[k + 1];
    }
    forall q | q in rest ensures (b.idOf(q) in current - {id} <==> b.idOf(q) in known) {
      var k :| 0 <= k < |rest| && rest[k] == q;
      assert q == paths[k + 1];
    }
    IdsOfLacks(b, rest, id);
  }

  /** How the first path enters the reference description. */
  lemma ConsideredStep(b: Builder, changedOnly: bool, known: set<string>, paths: seq<string>)
    requires paths != []
    ensures var tail := Considered(b, changedOnly, known, paths[1..]);
            && (forall q | q in tail :: q in Considered(b, changedOnly, known, paths))
            && (changedOnly && b.idOf(paths[0]) in known ==> Considered(b, changedOnly, known, paths) == tail)
            && (!(changedOnly && b.idOf(paths[0]) in known) ==>
                  && paths[0] in Considered(b, changedOnly, known, paths)
                  && Built(b, Considered(b, changedOnly, known, paths))
                     == (if b.build(paths[0]).Ok? then [b.build(paths[0]).value] else [])
                        + Built(b, tail))
  {
    var tail := Considered(b, changedOnly, known, paths[1..]);
    var considered := Considered(b, changedOnly, known, paths);
    if !(changedOnly && b.idOf(paths[0]) in known) {
      assert considered == [paths[0]] + tail;
      assert considered[1..] == tail;
    }
  }

  /** The loop agrees with the reference description, given stored ids `known'` that
      agree with `known` on every path still to come. */
  lemma {:induction false} SyncFromMatches(b: Builder, changedOnly: bool, known: set<string>,
                                           current: set<string>, songs: seq<Song>, paths: seq<string>)
    requires DistinctIds(b, paths)
    requires forall p | p in paths :: (b.idOf(p) in current <==> b.idOf(p) in known)
    ensures var considered := Considered(b, changedOnly, known, paths);
            (forall p | p in considered :: !Fatal(b, p)) ==>
              SyncFrom(b, changedOnly, current, songs, paths)
                == Ok(ScanResult(songs + Built(b, considered), current - IdsOf(b, paths)))
    ensures var considered := Considered(b, changedOnly, known, paths);
            (exists p | p in considered :: Fatal(b, p)) ==>
              SyncFrom(b, changedOnly, current, songs, paths).Err?
              && !Skips(SyncFrom(b, changedOnly, current, songs, paths).failure)
    decreases |paths|
  {
    if paths == [] {
      assert Built(b, []) == [] && IdsOf(b, []) == {};
      assert songs + [] == songs && current - {} == current;
    } else {
      var p, rest := paths[0], paths[1..];
      var id := b.idOf(p);
      var remaining := current - {id};
      PopFirst(b, known, current, paths);
      var tail := Considered(b, changedOnly, known, rest);
      var considered := Considered(b, changedOnly, known, paths);
      ConsideredStep(b, changedOnly, known, paths);
      if changedOnly && id in known {
        SyncFromMatches(b, changedOnly, known, remaining, songs, rest);
      } else {
        match b.build(p)
        case Ok(song) =>
          SyncFromMatches(b, changedOnly, known, remaining, songs + [song], rest);
          assert songs + [song] + Built(b, tail) == songs + ([song] + Built(b, tail));
        case Err(f) =>
          if Skips(f) {
            SyncFromMatches(b, changedOnly, known, remaining, songs, rest);
            assert [] + Built(b, tail) == Built(b, tail);
          } else {
            assert Fatal(b, p) && p in considered;
          }
      }
    }
  }

  /** The scan as a whole, described without the popped set: when no parsed path fails
      fatally, the songs are those the parsed paths build, in order, and the deleted ids
      are the stored ids no path has; otherwise the scan ends with a fatal failure. */
  lemma ReferenceSync(b: Builder, changedOnly: bool, known: set<string>, paths: seq<string>)
    requires DistinctIds(b, paths)
    ensures var considered := Considered(b, changedOnly, known, paths);
            (forall p | p in considered :: !Fatal(b, p)) ==>
              Sync(b, changedOnly, known, paths)
                == Ok(ScanResult(Built(b, considered), known - IdsOf(b, paths)))
    ensures (exists p | p in Considered(b, changedOnly, known, paths) :: Fatal(b, p)) ==>
              Sync(b, changedOnly, known, paths).Err?
              && !Skips(Sync(b, changedOnly, known, paths).failure)
  {
    SyncFromMatches(b, changedOnly, known, known, [], paths);
    assert [] + Built(b, Considered(b, changedOnly, known, paths))
        == Built(b, Considered(b, changedOnly, known, paths));
  }

  lemma {:induction false} ConsideredMembers(b: Builder, changedOnly: bool, known: set<string>,
                                             paths: seq<string>, p: string)
    ensures (p in Considered(b, changedOnly, known, paths))
              == (p in paths && !(changedOnly && b.idOf(p) in known))
    decreases |paths|
  {
    if paths != [] {
      ConsideredMembers(b, changedOnly, known, paths[1..], p);
      assert paths == [paths[0]] + paths[1..];
    }
  }

  /** Every built song comes from a path that builds it. */
  lemma {:induction false} BuiltFrom(b: Builder, paths: seq<string>, s: Song)
    requires s in Built(b, paths)
    ensures exists p | p in paths :: b.build(p) == Ok(s)
    decreases |paths|
  {
    if b.build(paths[0]).Ok? && s == b.build(paths[0]).value {
      assert paths[0] in paths;
    } else {
      BuiltFrom(b, paths[1..], s);
      var p :| p in paths[1..] && b.build(p) == Ok(s);
      assert p in paths;
    }
  }

  /** Every path that builds a song has it among the built songs. */
  lemma {:induction false} BuiltHas(b: Builder, paths: seq<string>, p: string)
    requires p in paths && b.build(p).Ok?
    ensures b.build(p).value in Built(b, paths)
    decreases |paths|
  {
    if paths[0] != p {
      BuiltHas(b, paths[1..], p);
    }
  }

  lemma {:induction false} NothingBuilt(b: Builder, paths: seq<string>)
    requires forall p | p in paths :: b.build(p).Err?
    ensures Built(b, paths) == []
    decreases |paths|
  {
    if paths != [] {
      assert paths[0] in paths;
      assert forall p | p in paths[1..] :: p in paths;
      NothingBuilt(b, paths[1..]);
    }
  }

  /** In changed-only mode a stored id is never parsed again, so no returned song has
      one. */
  lemma ChangedOnlySkipsKnown(b: Builder, known: set<string>, paths: seq<string>)
    requires DistinctIds(b, paths) && KeepsIds(b)
    ensures Sync(b, true, known, paths).Ok? ==>
              forall s | s in Sync(b, true, known, paths).value.songs :: s.id !in known
  {
    ReferenceSync(b, true, known, paths);
    var considered := Considered(b, true, known, paths);
    if Sync(b, true, known, paths).Ok? {
      forall s | s in Sync(b, true, known, paths).value.songs ensures s.id !in known {
        BuiltFrom(b, considered, s);
        var p :| p in considered && b.build(p) == Ok(s);
        ConsideredMembers(b, true, known, paths, p);
      }
    }
  }

  /** Running the changed-only scan again over the same files, after the first scan's
      songs were saved and its deletions applied, finds nothing to save and nothing to
      delete. Files that failed to build fail the same way again and are skipped. */
  lemma SecondScanFindsNothing(b: Builder, changedOnly: bool, known: set<string>, paths: seq<string>)
    requires DistinctIds(b, paths) && KeepsIds(b)
    requires Sync(b, changedOnly, known, paths).Ok?
    ensures Sync(b, true, Stored(known, Sync(b, changedOnly, known, paths).value), paths)
              == Ok(ScanResult([], {}))
  {
    var first := Sync(b, changedOnly, known, paths).value;
    var considered := Considered(b, changedOnly, known, paths);
    ReferenceSync(b, changedOnly, known, paths);
    assert forall p | p in considered :: !Fatal(b, p);
    assert first.songs == Built(b, considered);
    var stored := Stored(known, first);
    var again := Considered(b, true, stored, paths);
    forall p | p in again ensures b.build(p).Err? && Skips(b.build(p).failure) {
      ConsideredMembers(b, true, stored, paths, p);
      ConsideredMembers(b, changedOnly, known, paths, p);
      var k :| 0 <= k < |paths| && paths[k] == p;
      IdsOfHas(b, paths, k);
      assert p in considered;
      if b.build(p).Ok? {
        BuiltHas(b, considered, p);
      }
    }
    NothingBuilt(b, again);
    ReferenceSync(b, true, stored, paths);
    forall s | s in first.songs ensures s.id in IdsOf(b, paths) {
      BuiltFrom(b, considered, s);
      var p :| p in considered && b.build(p) == Ok(s);
      ConsideredMembers(b, changedOnly, known, paths, p);
      var k :| 0 <= k < |paths| && paths[k] == p;
      IdsOfHas(b, paths, k);
    }
    assert stored - IdsOf(b, paths) == {};
  }

  /** One step of the loop over a path that is parsed and builds a song. */
  lemma BuildStep(b: Builder, changedOnly: bool, known: set<string>, songs: seq<Song>, paths: seq<string>)
    requires paths != [] && !(changedOnly && b.idOf(paths[0]) in known)
    requires b.build(paths[0]).Ok?
    ensures SyncFrom(b, changedOnly, known, songs, paths)
              == SyncFrom(b, changedOnly, known - {b.idOf(paths[0])},
                          songs + [b.build(paths[0]).value], paths[1..])
  {
  }

  /** One step of the changed-only loop over a path whose id is stored. */
  lemma SkipStep(b: Builder, known: set<string>, songs: seq<Song>, paths: seq<string>)
    requires paths != [] && b.idOf(paths[0]) in known
    ensures SyncFrom(b, true, known, songs, paths)
              == SyncFrom(b, true, known - {b.idOf(paths[0])}, songs, paths[1..])
  {
  }

  /** The last path builds a song: the songs gain it, and the stored ids it does not
      have stay deleted. */
  lemma LastPathBuilds(b: Builder, known: set<string>, path: string, song: Song)
    requires b.idOf(path) !in known
    requires b.build(path) == Ok(song)
    ensures SyncFrom(b, true, known, [], [path]) == Ok(ScanResult([song], known))
  {
    var paths := [path];
    BuildStep(b, true, known, [], paths);
    assert known - {b.idOf(path)} == known;
    assert [] + [song] == [song];
    assert paths[1..] == [];
  }

  /** Removing one of three distinct ids. */
  lemma DropFirst(a: string, b: string, c: string)
    requires a != b && a != c
    ensures {a, b, c} - {a} == {b, c}
  {
  }

  /** Stored ids `{a, b, c}`; the scan finds the files of `a` (unchanged) and `d` (new).
      Only `d` is built, and `b` and `c` are deleted. */
  lemma ReconcileExample(builder: Builder, pathA: string, pathD: string, a: string, b: string, c: string,
                         d: string, songD: Song)
    requires builder.idOf(pathA) == a && builder.idOf(pathD) == d
    requires d != a && d != b && d != c && a != b && a != c
    requires builder.build(pathD) == Ok(songD)
    ensures Sync(builder, true, {a, b, c}, [pathA, pathD]) == Ok(ScanResult([songD], {b, c}))
  {
    var paths := [pathA, pathD];
    SkipStep(builder, {a, b, c}, [], paths);
    DropFirst(a, b, c);
    assert paths[1..] == [pathD];
    LastPathBuilds(builder, {b, c}, pathD, songD);
  }

  /** The importer's own scan: in changed-only mode no saved song was stored before, and
      a second changed-only scan after saving finds nothing to do. */
  lemma ImporterScan(env: Env, changedOnly: bool, known: set<string>, paths: seq<string>)
    requires DistinctIds(SongBuilder(env), paths)
    ensures var r := Sync(SongBuilder(env), true, known, paths);
            r.Ok? ==> forall s | s in r.value.songs :: s.id !in known
    ensures var r := Sync(SongBuilder(env), changedOnly, known, paths);
            r.Ok? ==> Sync(SongBuilder(env), true, Stored(known, r.value), paths) == Ok(ScanResult([], {}))
  {
    var b := SongBuilder(env);
    SongBuilderKeepsIds(env);
    ChangedOnlySkipsKnown(b, known, paths);
    if Sync(b, changedOnly, known, paths).Ok? {
      SecondScanFindsNothing(b, changedOnly, known, paths);
    }
  }
}
