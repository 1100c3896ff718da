/** Snapshots of a workspace, and the digest of an observation. */
module Observer {
  import opened Wrappers
  import opened Evidence
  import opened Ordering
  import opened Text

  // ---- Paths ----

  const TEMP := "<temp>"

  function NormalizePart(part: string): string {
    if "depguard-" <= part || "tmp-" <= part then TEMP else part
  }

  function NormalizeParts(parts: seq<string>): seq<string> {
    seq(|parts|, i requires 0 <= i < |parts| => NormalizePart(parts[i]))
  }

  function NormalizePath(path: string): string {
    Join(NormalizeParts(Split(path, '/')), '/')
  }

  lemma NormalizedParts(path: string)
    ensures Split(NormalizePath(path), '/') == NormalizeParts(Split(path, '/'))
  {
    var parts := NormalizeParts(Split(path, '/'));
    JoinOfSplit(path, '/');
    forall i | 0 <= i < |parts|
      ensures '/' !in parts[i]
    {
      assert '/' !in Split(path, '/')[i];
    }
    SplitOfJoin(parts, '/');
  }

  /** Normalising again changes nothing, and the segments stay as many. */
  lemma NormalizePathIdempotent(path: string)
    ensures NormalizePath(NormalizePath(path)) == NormalizePath(path)
    ensures |Split(NormalizePath(path), '/')| == |Split(path, '/')|
  {
    NormalizedParts(path);
    var parts := NormalizeParts(Split(path, '/'));
    assert NormalizeParts(parts) == parts;
  }

  /** Two paths are confused exactly when they agree segment by segment up to
      temporary names. */
  lemma NormalizePathKernel(a: string, b: string)
    ensures NormalizePath(a) == NormalizePath(b) <==>
      |Split(a, '/')| == |Split(b, '/')| &&
      forall i | 0 <= i < |Split(a, '/')| :: NormalizePart(Split(a, '/')[i]) == NormalizePart(Split(b, '/')[i])
  {
    NormalizedParts(a);
    NormalizedParts(b);
    PartsKernel(Split(a, '/'), Split(b, '/'));
  }

  lemma PartsKernel(a: seq<string>, b: seq<string>)
    ensures NormalizeParts(a) == NormalizeParts(b) <==>
      |a| == |b| && forall i | 0 <= i < |a| :: NormalizePart(a[i]) == NormalizePart(b[i])
  {
    var p, q := NormalizeParts(a), NormalizeParts(b);
    if p == q {
      assert |a| == |p| == |q| == |b|;
      forall i | 0 <= i < |a|
        ensures NormalizePart(a[i]) == NormalizePart(b[i])
      {
        assert p[i] == q[i];
      }
    } else if |a| == |b| {
      var i :| 0 <= i < |a| && p[i] != q[i];
      assert NormalizePart(a[i]) != NormalizePart(b[i]);
    }
  }

  // ---- The order of files ----

  function FlagRank(b: bool): nat {
    if b then 1 else 0
  }

  /** Field by field: path, kind, size, digest, executable. */
  predicate FileLe(a: FileObservation, b: FileObservation) {
    if a.path != b.path then TextLe(a.path, b.path)
    else if a.kind != b.kind then TextLe(a.kind, b.kind)
    else if a.size != b.size then a.size < b.size
    else if a.sha256 != b.sha256 then OptionalTextLe(a.sha256, b.sha256)
    else FlagRank(a.executable) <= FlagRank(b.executable)
  }

  lemma FileLeTotal()
    ensures TotalOrder(FileLe)
  {
    forall a, b, c
      ensures FileLe(a, a) && (FileLe(a, b) || FileLe(b, a))
      ensures FileLe(a, b) && FileLe(b, a) ==> a == b
      ensures FileLe(a, b) && FileLe(b, c) ==> FileLe(a, c)
    {
      TextLeFacts(a.path, b.path, c.path);
      TextLeFacts(a.kind, b.kind, c.kind);
      OptionalTextLeFacts(a.sha256, b.sha256, c.sha256);
    }
  }

  // ---- Sorting ----

  function Insert(f: FileObservation, files: seq<FileObservation>): seq<FileObservation> {
    if files == [] then [f]
    else if FileLe(f, files[0]) then [f] + files
    else [files[0]] + Insert(f, files[1..])
  }

  function Sort(files: seq<FileObservation>): seq<FileObservation> {
    if files == [] then [] else Insert(files[0], Sort(files[1..]))
  }

  lemma {:induction false} InsertKeeps(f: FileObservation, files: seq<FileObservation>)
    ensures multiset(Insert(f, files)) == multiset(files) + multiset{f}
  {
    if files != [] {
      assert files == [files[0]] + files[1..];
      InsertKeeps(f, files[1..]);
    }
  }

  lemma {:induction false} InsertSorts(f: FileObservation, files: seq<FileObservation>)
    requires Sorted(FileLe, files)
    ensures Sorted(FileLe, Insert(f, files))
  {
    FileLeTotal();
    if files != [] && !FileLe(f, files[0]) {
      InsertSorts(f, files[1..]);
      InsertKeeps(f, files[1..]);
      var rest := Insert(f, files[1..]);
      forall i | 0 <= i < |rest|
        ensures FileLe(files[0], rest[i])
      {
        assert rest[i] in multiset(rest);
        assert rest[i] == f || rest[i] in files[1..];
      }
    }
  }

  lemma {:induction false} SortSorts(files: seq<FileObservation>)
    ensures Sorted(FileLe, Sort(files)) && multiset(Sort(files)) == multiset(files)
  {
    if files != [] {
      SortSorts(files[1..]);
      InsertSorts(files[0], Sort(files[1..]));
      InsertKeeps(files[0], Sort(files[1..]));
      assert files == [files[0]] + files[1..];
    }
  }

  lemma Rest(files: seq<FileObservation>)
    requires files != []
    ensures multiset(files[1..]) == multiset(files) - multiset{files[0]}
  {
    assert files == [files[0]] + files[1..];
  }

  lemma SameFirst(a: seq<FileObservation>, b: seq<FileObservation>)
    requires Sorted(FileLe, a) && Sorted(FileLe, b) && multiset(a) == multiset(b) && a != [] && b != []
    ensures a[0] == b[0]
  {
    FileLeTotal();
    assert a[0] in multiset(b) && b[0] in multiset(a);
    var i :| 0 <= i < |b| && b[i] == a[0];
    var j :| 0 <= j < |a| && a[j] == b[0];
    assert FileLe(a[0], a[j]) && FileLe(b[0], b[i]);
  }

  /** There is one sorted arrangement, so which sorting algorithm runs does not matter. */
  lemma {:induction false} SortedIsUnique(a: seq<FileObservation>, b: seq<FileObservation>)
    requires Sorted(FileLe, a) && Sorted(FileLe, b) && multiset(a) == multiset(b)
    ensures a == b
  {
    assert |a| == |multiset(a)| == |multiset(b)| == |b|;
    if a != [] {
      SameFirst(a, b);
      Rest(a);
      Rest(b);
      SortedIsUnique(a[1..], b[1..]);
      assert a == [a[0]] + a[1..] && b == [b[0]] + b[1..];
    }
  }

  // ---- Snapshots ----

  datatype FileType = Symlink | Directory | Regular | Other

  datatype Meta = Meta(fileType: FileType, size: nat, sha256: string, executable: bool)

  /** One entry of the walk: the path below the root, and what could be read of it. */
  datatype WalkEntry = WalkEntry(parts: seq<string>, meta: Option<Meta>)

  predicate IsIgnored(part: string) {
    part == "node_modules" || part == ".depguard"
  }

  /** The root itself, and every path with an ignored component in it, above the root or below. */
  predicate Skipped(root: seq<string>, e: WalkEntry) {
    e.parts == [] || exists i :: 0 <= i < |root + e.parts| && IsIgnored((root + e.parts)[i])
  }

  function Slashes(path: string): string {
    seq(|path|, i requires 0 <= i < |path| => if path[i] == '\\' then '/' else path[i])
  }

  function Observe(e: WalkEntry): FileObservation
    requires e.meta.Some?
  {
    var m := e.meta.value;
    FileObservation(
      NormalizePath(Slashes(Join(e.parts, '/'))),
      match m.fileType { case Symlink => "symlink" case Directory => "directory" case _ => "file" },
      m.size,
      if m.fileType == Regular then Some(m.sha256) else None,
      m.executable)
  }

  predicate Readable(root: seq<string>, entries: seq<WalkEntry>) {
    forall e | e in entries && !Skipped(root, e) :: e.meta.Some?
  }

  function Kept(root: seq<string>, entries: seq<WalkEntry>): seq<FileObservation>
    requires Readable(root, entries)
  {
    if entries == [] then []
    else
      var n := |entries| - 1;
      assert forall e | e in entries[..n] :: e in entries;
      Kept(root, entries[..n]) + if Skipped(root, entries[n]) then [] else [Observe(entries[n])]
  }

  /** None when something that is kept could not be read. */
  function Snapshot(root: seq<string>, entries: seq<WalkEntry>): Option<seq<FileObservation>> {
    if Readable(root, entries) then Some(Sort(Kept(root, entries))) else None
  }

  /** One more entry of the walk. */
  lemma KeptNext(root: seq<string>, entries: seq<WalkEntry>, i: nat)
    requires i < |entries| && Readable(root, entries[..i])
    ensures Readable(root, entries[..i + 1]) <==> Skipped(root, entries[i]) || entries[i].meta.Some?
    ensures Readable(root, entries[..i + 1]) ==>
      Kept(root, entries[..i + 1]) ==
      Kept(root, entries[..i]) + if Skipped(root, entries[i]) then [] else [Observe(entries[i])]
    ensures Readable(root, entries) ==> Readable(root, entries[..i + 1])
  {
    assert entries[..i + 1] == entries[..i] + [entries[i]];
    assert entries[..i + 1][..i] == entries[..i];
  }

  method FilesystemSnapshot(root: seq<string>, entries: seq<WalkEntry>) returns (r: Option<seq<FileObservation>>)
    ensures r == Snapshot(root, entries)
  {
    var files := [];
    for i := 0 to |entries|
      invariant Readable(root, entries[..i]) && files == Kept(root, entries[..i])
    {
      KeptNext(root, entries, i);
      var e := entries[i];
      if Skipped(root, e) {
        continue;
      }
      if e.meta.None? {
        return None;
      }
      files := files + [Observe(e)];
    }
    assert entries[..|entries|] == entries;
    files := Sort(files);
    r := Some(files);
  }

  lemma ReadableParts(root: seq<string>, a: seq<WalkEntry>, b: seq<WalkEntry>)
    ensures Readable(root, a + b) <==> Readable(root, a) && Readable(root, b)
  {
    assert forall e :: e in a + b <==> e in a || e in b;
  }

  lemma {:induction false} KeptConcat(root: seq<string>, a: seq<WalkEntry>, b: seq<WalkEntry>)
    requires Readable(root, a + b)
    ensures Readable(root, a) && Readable(root, b) && Kept(root, a + b) == Kept(root, a) + Kept(root, b)
  {
    ReadableParts(root, a, b);
    if b == [] {
      assert a + b == a;
    } else {
      var n := |b| - 1;
      assert (a + b)[..|a + b| - 1] == a + b[..n];
      ReadableParts(root, b[..n], [b[n]]);
      assert b == b[..n] + [b[n]];
      ReadableParts(root, a, b[..n]);
      KeptConcat(root, a, b[..n]);
    }
  }

  function Without(entries: seq<WalkEntry>, i: nat): (rest: seq<WalkEntry>)
    requires i < |entries|
    ensures |rest| == |entries| - 1
  {
    entries[..i] + entries[i + 1..]
  }

  lemma WithoutOne(entries: seq<WalkEntry>, i: nat)
    requires i < |entries|
    ensures multiset(entries) == multiset(Without(entries, i)) + multiset{entries[i]}
  {
    assert entries == entries[..i] + ([entries[i]] + entries[i + 1..]);
  }

  /** One entry taken out of the walk. */
  lemma KeptWithout(root: seq<string>, entries: seq<WalkEntry>, i: nat)
    requires i < |entries| && Readable(root, entries)
    ensures Readable(root, Without(entries, i)) && Readable(root, [entries[i]])
    ensures multiset(Kept(root, entries)) == multiset(Kept(root, Without(entries, i))) +
        multiset(Kept(root, [entries[i]]))
  {
    var before, after := entries[..i], entries[i + 1..];
    assert entries == before + ([entries[i]] + after);
    KeptConcat(root, before, [entries[i]] + after);
    KeptConcat(root, [entries[i]], after);
    assert forall e | e in before + after :: e in entries;
    KeptConcat(root, before, after);
  }

  lemma WithoutBoth(a: seq<WalkEntry>, b: seq<WalkEntry>) returns (i: nat)
    requires multiset(a) == multiset(b) && a != []
    ensures i < |b| && b[i] == a[0] && multiset(Without(a, 0)) == multiset(Without(b, i))
  {
    assert a[0] in multiset(b);
    i :| 0 <= i < |b| && b[i] == a[0];
    WithoutOne(a, 0);
    WithoutOne(b, i);
    assert multiset(Without(a, 0)) == multiset(a) - multiset{a[0]};
    assert multiset(Without(b, i)) == multiset(b) - multiset{a[0]};
  }

  lemma {:induction false} KeptPermutes(root: seq<string>, a: seq<WalkEntry>, b: seq<WalkEntry>)
    requires multiset(a) == multiset(b) && Readable(root, a) && Readable(root, b)
    ensures multiset(Kept(root, a)) == multiset(Kept(root, b))
    decreases |a|
  {
    if a == [] {
      assert b == [] by {
        assert |b| == |multiset(b)|;
      }
    } else {
      var i := WithoutBoth(a, b);
      KeptWithout(root, a, 0);
      KeptWithout(root, b, i);
      KeptPermutes(root, Without(a, 0), Without(b, i));
    }
  }

  /** The order in which the directory is walked does not show in the snapshot. */
  lemma WalkOrderIrrelevant(root: seq<string>, a: seq<WalkEntry>, b: seq<WalkEntry>)
    requires multiset(a) == multiset(b)
    ensures Snapshot(root, a) == Snapshot(root, b)
  {
    assert forall e :: e in a <==> e in multiset(a);
    assert forall e :: e in b <==> e in multiset(b);
    if Readable(root, a) {
      KeptPermutes(root, a, b);
      SortSorts(Kept(root, a));
      SortSorts(Kept(root, b));
      SortedIsUnique(Sort(Kept(root, a)), Sort(Kept(root, b)));
    }
  }

  lemma SkippedBelow(root: seq<string>, e: WalkEntry)
    requires forall i | 0 <= i < |root| :: !IsIgnored(root[i])
    ensures Skipped(root, e) <==> Skipped([], e)
  {
    var path := root + e.parts;
    assert [] + e.parts == e.parts;
    forall i | 0 <= i < |e.parts|
      ensures path[|root| + i] == e.parts[i]
    {
    }
    if i :| 0 <= i < |path| && IsIgnored(path[i]) {
      assert IsIgnored(e.parts[i - |root|]);
    }
  }

  lemma {:induction false} KeptBelow(root: seq<string>, entries: seq<WalkEntry>)
    requires forall e :: Skipped(root, e) <==> Skipped([], e)
    ensures Readable(root, entries) <==> Readable([], entries)
    ensures Readable(root, entries) ==> Kept(root, entries) == Kept([], entries)
  {
    if entries != [] {
      var init := entries[..|entries| - 1];
      KeptBelow(root, init);
      assert forall e | e in init :: e in entries;
    }
  }

  /** A workspace that itself lies under an ignored directory has an empty snapshot. */
  lemma {:induction false} IgnoredRoot(root: seq<string>, entries: seq<WalkEntry>, i: nat)
    requires i < |root| && IsIgnored(root[i])
    ensures Snapshot(root, entries) == Some([])
  {
    forall e: WalkEntry
      ensures Skipped(root, e)
    {
      assert (root + e.parts)[i] == root[i];
    }
    if entries != [] {
      IgnoredRoot(root, entries[..|entries| - 1], i);
      assert Kept(root, entries[..|entries| - 1]) == [] by {
        SortSorts(Kept(root, entries[..|entries| - 1]));
      }
    }
  }

  lemma {:induction false} KeptContains(root: seq<string>, entries: seq<WalkEntry>, f: FileObservation)
    requires Readable(root, entries)
    ensures f in Kept(root, entries) <==> exists e :: e in entries && !Skipped(root, e) && Observe(e) == f
  {
    if entries != [] {
      var init, last := entries[..|entries| - 1], entries[|entries| - 1];
      assert forall e :: e in entries <==> e in init || e == last;
      KeptContains(root, init, f);
    }
  }

  /** A snapshot records exactly the entries that are not skipped. */
  lemma SnapshotRecords(root: seq<string>, entries: seq<WalkEntry>, f: FileObservation)
    requires Readable(root, entries)
    ensures f in Snapshot(root, entries).value <==> exists e :: e in entries && !Skipped(root, e) && Observe(e) == f
  {
    KeptContains(root, entries, f);
    SortSorts(Kept(root, entries));
    assert f in Kept(root, entries) <==> f in multiset(Kept(root, entries));
    assert f in Sort(Kept(root, entries)) <==> f in multiset(Sort(Kept(root, entries)));
  }

  /** A workspace of one file named "a". */
  const ONE_FILE := WalkEntry(["a"], Some(Meta(Regular, 1, "x", false)))

  lemma OneFileIsRecorded()
    ensures Snapshot([], [ONE_FILE]).Some? && Observe(ONE_FILE) in Snapshot([], [ONE_FILE]).value
  {
    assert [] + ONE_FILE.parts == ["a"];
    assert ONE_FILE in [ONE_FILE] && !Skipped([], ONE_FILE);
    SnapshotRecords([], [ONE_FILE], Observe(ONE_FILE));
  }

  /** Where the workspace lies does not show in any snapshot of it exactly when no
      component of its own path is ignored. */
  lemma RootDoesNotShow(root: seq<string>)
    ensures (forall entries :: Snapshot(root, entries) == Snapshot([], entries)) <==> forall i | 0 <= i < |root| ::
        !IsIgnored(root[i])
  {
    if i :| 0 <= i < |root| && IsIgnored(root[i]) {
      OneFileIsRecorded();
      IgnoredRoot(root, [ONE_FILE], i);
    } else {
      forall e
        ensures Skipped(root, e) <==> Skipped([], e)
      {
        SkippedBelow(root, e);
      }
      forall entries
        ensures Snapshot(root, entries) == Snapshot([], entries)
      {
        KeptBelow(root, entries);
      }
    }
  }

  // ---- The digest of an observation ----

  function NormalizeBehavior(o: BehaviorObservation): BehaviorObservation {
    o.(wallDurationMs := 0, cpuMs := None, peakMemoryBytes := None)
  }

  /** `digest` stands for SHA-256 of the serialised observation. */
  function BehaviorDigest(digest: BehaviorObservation -> string, o: BehaviorObservation): string {
    digest(NormalizeBehavior(o))
  }

  ghost predicate Injective<T(!new), U(!new)>(f: T -> U) {
    forall x, y | f(x) == f(y) :: x == y
  }

  /** The digest tells observations apart exactly by what was observed, never by
      how long it took or what it used. */
  lemma BehaviorDigestKernel(digest: BehaviorObservation -> string, a: BehaviorObservation, b: BehaviorObservation)
    requires Injective(digest)
    ensures BehaviorDigest(digest, a) == BehaviorDigest(digest, b) <==>
      a.measurementMethod == b.measurementMethod && a.processes == b.processes && a.filesystem == b.filesystem &&
          a.network == b.network
  {
    if BehaviorDigest(digest, a) == BehaviorDigest(digest, b) {
      assert NormalizeBehavior(a) == NormalizeBehavior(b);
    }
  }

  /** Two walks of the same files give the same digest, whatever they measured. */
  lemma DigestOfWalks(digest: BehaviorObservation -> string, root: seq<string>, a: seq<WalkEntry>, b: seq<WalkEntry>,
                      o: BehaviorObservation, p: BehaviorObservation)
    requires multiset(a) == multiset(b) && Readable(root, a) && Readable(root, b)
    requires o.measurementMethod == p.measurementMethod && o.processes == p.processes && o.network == p.network
    requires o.filesystem == Snapshot(root, a).value && p.filesystem == Snapshot(root, b).value
    ensures BehaviorDigest(digest, o) == BehaviorDigest(digest, p)
  {
    WalkOrderIrrelevant(root, a, b);
  }

  // ---- What a snapshot records ----

  /** A component is replaced exactly when it starts like a temporary name. */
  lemma NormalizePartExact(part: string)
    ensures (exists rest :: part == "depguard-" + rest || part == "tmp-" + rest) ==> NormalizePart(part) == "<temp>"
    ensures (forall rest :: part != "depguard-" + rest && part != "tmp-" + rest) ==> NormalizePart(part) == part
  {
    if "depguard-" <= part {
      assert part == "depguard-" + part[9..];
    } else if "tmp-" <= part {
      assert part == "tmp-" + part[4..];
    }
  }

  /** What is skipped: the root, and what lies below one of two names. */
  lemma SkippedExact(root: seq<string>, e: WalkEntry)
    ensures Skipped(root, e) <==>
      e.parts == [] || "node_modules" in root + e.parts || ".depguard" in root + e.parts
  {
  }

  /** What is recorded of an entry: its kind, size and executable flag, and a digest
      of the contents of regular files only. */
  lemma ObserveExact(e: WalkEntry)
    requires e.meta.Some?
    ensures var o, m := Observe(e), e.meta.value;
      && (o.kind == "symlink" <==> m.fileType == Symlink) && (o.kind == "directory" <==> m.fileType == Directory)
      && (o.kind == "file" <==> m.fileType in {Regular, Other})
      && o.size == m.size && o.executable == m.executable
      && (o.sha256.Some? <==> m.fileType == Regular) && (o.sha256.Some? ==> o.sha256.value == m.sha256)
  {
    assert "symlink"[0] == 's' && "directory"[0] == 'd' && "file"[0] == 'f';
  }

  /** The recorded path has the components of the entry, each normalised, when none of
      them has a separator in it. */
  lemma RecordedPath(e: WalkEntry)
    requires e.meta.Some? && e.parts != []
    requires forall i | 0 <= i < |e.parts| :: '/' !in e.parts[i] && '\\' !in e.parts[i]
    ensures Split(Observe(e).path, '/') == NormalizeParts(e.parts)
  {
    var path := Join(e.parts, '/');
    SplitOfJoin(e.parts, '/');
    NoBackslash(e.parts);
    assert Slashes(path) == path;
    NormalizedParts(path);
  }

  lemma {:induction false} NoBackslash(parts: seq<string>)
    requires forall i | 0 <= i < |parts| :: '\\' !in parts[i]
    ensures '\\' !in Join(parts, '/')
  {
    if |parts| > 1 {
      NoBackslash(parts[1..]);
    }
  }

  /** Files are in the order of their paths, then kinds, sizes, digests and flags. */
  lemma FileLeMeans(a: FileObservation, b: FileObservation)
    ensures FileLe(a, b) <==>
      || a == b
      || TextLt(a.path, b.path)
      || (a.path == b.path && TextLt(a.kind, b.kind))
      || (a.path == b.path && a.kind == b.kind && a.size < b.size)
      || (a.path == b.path && a.kind == b.kind && a.size == b.size && OptionalTextLt(a.sha256, b.sha256))
      || (a.path == b.path && a.kind == b.kind && a.size == b.size && a.sha256 == b.sha256 &&
          !a.executable && b.executable)
  {
    if a.sha256.Some? && a.sha256 == b.sha256 {
      TextLeOrder(a.sha256.value, a.sha256.value, "");
    }
  }

  /** The files of a snapshot are the observations of the entries that are kept, each as
      often as it is observed, in order, and so with paths that never fall. */
  lemma SnapshotAscends(root: seq<string>, entries: seq<WalkEntry>)
    requires Readable(root, entries)
    ensures var files := Snapshot(root, entries).value;
      && multiset(files) == multiset(Kept(root, entries)) && Sorted(FileLe, files)
      && forall i, j | 0 <= i < j < |files| :: TextLe(files[i].path, files[j].path)
  {
    SortSorts(Kept(root, entries));
    var files := Snapshot(root, entries).value;
    forall i, j | 0 <= i < j < |files|
      ensures TextLe(files[i].path, files[j].path)
    {
      assert FileLe(files[i], files[j]);
      TextLeOrder(files[i].path, files[i].path, "");
    }
  }
}
