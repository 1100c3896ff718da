/** What changed between two observations. */
module Diff {
  import opened Wrappers
  import opened Evidence
  import opened Ordering
  import opened Text
  import opened Codecs
  import opened Observer

  datatype BehaviorDiff = BehaviorDiff(
    newProcesses: seq<ProcessObservation>,
    removedProcesses: seq<ProcessObservation>,
    createdFiles: seq<FileObservation>,
    removedFiles: seq<FileObservation>,
    modifiedFiles: seq<string>,
    newNetworkDestinations: seq<string>)

  // ---- The orders in which differences are listed ----

  predicate ExitLe(a: Option<int>, b: Option<int>) {
    a.None? || (b.Some? && a.value <= b.value)
  }

  /** Field by field: executable, arguments, parent, exit code. */
  predicate ProcessLe(a: ProcessObservation, b: ProcessObservation) {
    if a.executable != b.executable then TextLe(a.executable, b.executable)
    else if a.arguments != b.arguments then TextsLe(a.arguments, b.arguments)
    else if a.parentExecutable != b.parentExecutable then OptionalTextLe(a.parentExecutable, b.parentExecutable)
    else ExitLe(a.exitCode, b.exitCode)
  }

  /** Field by field: destination, port, protocol, source. */
  predicate NetworkLe(a: NetworkObservation, b: NetworkObservation) {
    if a.destination != b.destination then TextLe(a.destination, b.destination)
    else if a.port != b.port then a.port < b.port
    else if a.protocol != b.protocol then TextLe(a.protocol, b.protocol)
    else TextLe(a.source, b.source)
  }

  lemma ProcessLeTotal()
    ensures TotalOrder(ProcessLe)
  {
    forall a, b, c
      ensures ProcessLe(a, a) && (ProcessLe(a, b) || ProcessLe(b, a))
      ensures ProcessLe(a, b) && ProcessLe(b, a) ==> a == b
      ensures ProcessLe(a, b) && ProcessLe(b, c) ==> ProcessLe(a, c)
    {
      TextLeFacts(a.executable, b.executable, c.executable);
      TextsLeFacts(a.arguments, b.arguments, c.arguments);
      OptionalTextLeFacts(a.parentExecutable, b.parentExecutable, c.parentExecutable);
    }
  }

  lemma NetworkLeTotal()
    ensures TotalOrder(NetworkLe)
  {
    forall a, b, c
      ensures NetworkLe(a, a) && (NetworkLe(a, b) || NetworkLe(b, a))
      ensures NetworkLe(a, b) && NetworkLe(b, a) ==> a == b
      ensures NetworkLe(a, b) && NetworkLe(b, c) ==> NetworkLe(a, c)
    {
      TextLeFacts(a.destination, b.destination, c.destination);
      TextLeFacts(a.protocol, b.protocol, c.protocol);
      TextLeFacts(a.source, b.source, c.source);
      TextLeOrder(a.source, a.source, a.source);
    }
  }

  /** What is in `a` and not in `b`, in order. */
  ghost function Difference<T(!new)>(le: (T, T) -> bool, a: seq<T>, b: seq<T>): (d: seq<T>)
    requires TotalOrder(le)
    ensures forall x :: x in d <==> x in a && x !in b
  {
    Ordered(le, Elements(a) - Elements(b))
  }

  // ---- The diff ----

  /** Some file of the base has this path and another digest. */
  predicate Differs(base: seq<FileObservation>, f: FileObservation) {
    exists b :: b in base && b.path == f.path && b.sha256 != f.sha256
  }

  function Modified(base: seq<FileObservation>, candidate: seq<FileObservation>): seq<string> {
    if candidate == [] then []
    else (if Differs(base, candidate[0]) then [candidate[0].path] else []) + Modified(base, candidate[1..])
  }

  function Destination(n: NetworkObservation): string {
    n.destination + ":" + TextOf(Decimal(n.port))
  }

  ghost function Compare(base: BehaviorObservation, candidate: BehaviorObservation): BehaviorDiff {
    ProcessLeTotal();
    FileLeTotal();
    NetworkLeTotal();
    var network := Difference(NetworkLe, candidate.network, base.network);
    BehaviorDiff(
      Difference(ProcessLe, candidate.processes, base.processes),
      Difference(ProcessLe, base.processes, candidate.processes),
      Difference(FileLe, candidate.filesystem, base.filesystem),
      Difference(FileLe, base.filesystem, candidate.filesystem),
      Modified(base.filesystem, candidate.filesystem),
      seq(|network|, i requires 0 <= i < |network| => Destination(network[i])))
  }

  /** Every difference is listed once, in order. */
  lemma DifferencesIncrease(base: BehaviorObservation, candidate: BehaviorObservation)
    ensures var d := Compare(base, candidate);
      && Increasing(FileLe, d.createdFiles) && Increasing(FileLe, d.removedFiles)
      && Increasing(ProcessLe, d.newProcesses) && Increasing(ProcessLe, d.removedProcesses)
  {
    ProcessLeTotal();
    FileLeTotal();
    OrderedIncreases(FileLe, Elements(candidate.filesystem) - Elements(base.filesystem));
    OrderedIncreases(FileLe, Elements(base.filesystem) - Elements(candidate.filesystem));
    OrderedIncreases(ProcessLe, Elements(candidate.processes) - Elements(base.processes));
    OrderedIncreases(ProcessLe, Elements(base.processes) - Elements(candidate.processes));
  }

  /** Removing and then creating leads from the base to the candidate, removing only
      what is there and creating only what is not. */
  predicate IsPatch<T(==)>(base: set<T>, candidate: set<T>, removed: set<T>, created: set<T>) {
    removed <= base && created !! base && (base - removed) + created == candidate
  }

  lemma DifferencesArePatch<T(!new)>(le: (T, T) -> bool, base: seq<T>, candidate: seq<T>)
    requires TotalOrder(le)
    ensures forall removed, created ::
      IsPatch(Elements(base), Elements(candidate), removed, created) <==>
      removed == Elements(Difference(le, base, candidate)) && created == Elements(Difference(le, candidate, base))
  {
    var b, c := Elements(base), Elements(candidate);
    assert Elements(Difference(le, base, candidate)) == b - c;
    assert Elements(Difference(le, candidate, base)) == c - b;
    forall removed, created
      ensures IsPatch(b, c, removed, created) <==> removed == b - c && created == c - b
    {
      OnePatch(b, c, removed, created);
    }
  }

  lemma OnePatch<T>(base: set<T>, candidate: set<T>, removed: set<T>, created: set<T>)
    ensures IsPatch(base, candidate, removed, created) <==> removed == base - candidate && created == candidate - base
  {
    if IsPatch(base, candidate, removed, created) {
      assert removed == base - candidate && created == candidate - base;
    }
    assert (base - (base - candidate)) + (candidate - base) == candidate;
  }

  /** The diff is a patch for files and for processes, and the only one. */
  lemma CompareIsPatch(base: BehaviorObservation, candidate: BehaviorObservation)
    ensures var d := Compare(base, candidate);
      && (forall removed, created ::
            IsPatch(Elements(base.filesystem), Elements(candidate.filesystem), removed, created) <==>
            removed == Elements(d.removedFiles) && created == Elements(d.createdFiles))
      && (forall removed, created ::
            IsPatch(Elements(base.processes), Elements(candidate.processes), removed, created) <==>
            removed == Elements(d.removedProcesses) && created == Elements(d.newProcesses))
  {
    FileLeTotal();
    ProcessLeTotal();
    DifferencesArePatch(FileLe, base.filesystem, candidate.filesystem);
    DifferencesArePatch(ProcessLe, base.processes, candidate.processes);
  }

  /** The new destinations are the texts of the new observations, one for each, in
      the order of the observations. */
  lemma NewDestinations(base: BehaviorObservation, candidate: BehaviorObservation)
      returns (network: seq<NetworkObservation>)
    ensures Increasing(NetworkLe, network)
    ensures Elements(network) == Elements(candidate.network) - Elements(base.network)
    ensures var listed := Compare(base, candidate).newNetworkDestinations;
      && |listed| == |network| && (forall i | 0 <= i < |listed| :: listed[i] == Destination(network[i]))
      && (listed == [] <==> Elements(candidate.network) <= Elements(base.network))
  {
    NetworkLeTotal();
    network := Difference(NetworkLe, candidate.network, base.network);
    OrderedIncreases(NetworkLe, Elements(candidate.network) - Elements(base.network));
    if Elements(candidate.network) <= Elements(base.network) {
      assert Elements(candidate.network) - Elements(base.network) == {};
    }
  }

  /** Swapping the observations swaps what appeared and what disappeared. */
  lemma CompareSwaps(base: BehaviorObservation, candidate: BehaviorObservation)
    ensures var d, e := Compare(base, candidate), Compare(candidate, base);
      && d.createdFiles == e.removedFiles && d.removedFiles == e.createdFiles
      && d.newProcesses == e.removedProcesses && d.removedProcesses == e.newProcesses
    ensures forall path :: path in Compare(base, candidate).modifiedFiles <==>
        path in Compare(candidate, base).modifiedFiles
  {
    forall path
      ensures path in Modified(base.filesystem, candidate.filesystem) <==>
          path in Modified(candidate.filesystem, base.filesystem)
    {
      ModifiedExact(base.filesystem, candidate.filesystem, path);
      ModifiedExact(candidate.filesystem, base.filesystem, path);
    }
  }

  ghost predicate Changed(base: seq<FileObservation>, candidate: seq<FileObservation>, path: string) {
    exists b, f :: b in base && f in candidate && b.path == path && f.path == path && b.sha256 != f.sha256
  }

  lemma {:induction false} ModifiedExact(base: seq<FileObservation>, candidate: seq<FileObservation>, path: string)
    ensures path in Modified(base, candidate) <==> Changed(base, candidate, path)
  {
    if candidate != [] {
      ModifiedExact(base, candidate[1..], path);
      var head := if Differs(base, candidate[0]) then [candidate[0].path] else [];
      assert path in Modified(base, candidate) <==> path in head || path in Modified(base, candidate[1..]);
      assert candidate == [candidate[0]] + candidate[1..];
    }
  }

  predicate PathsDistinct(files: seq<FileObservation>) {
    forall f, g | f in files && g in files && f.path == g.path :: f == g
  }

  /** With distinct paths, a path is modified exactly when it is both removed and
      created with different digests. */
  lemma ModifiedIsReplaced(base: BehaviorObservation, candidate: BehaviorObservation, path: string)
    requires PathsDistinct(base.filesystem) && PathsDistinct(candidate.filesystem)
    ensures var d := Compare(base, candidate);
      path in d.modifiedFiles <==>
      exists b, f :: b in d.removedFiles && f in d.createdFiles && b.path == path && f.path == path &&
          b.sha256 != f.sha256
  {
    ModifiedExact(base.filesystem, candidate.filesystem, path);
    if Changed(base.filesystem, candidate.filesystem, path) {
      var b, f :| b in base.filesystem && f in candidate.filesystem && b.path == path && f.path == path &&
          b.sha256 != f.sha256;
      assert b in Compare(base, candidate).removedFiles && f in Compare(base, candidate).createdFiles;
    }
  }

  /** Comparing an observation with itself finds nothing new or removed; it finds
      modified files exactly when two of its files share a path and differ in digest. */
  lemma SelfCompare(o: BehaviorObservation)
    ensures var d := Compare(o, o);
      d.createdFiles == [] && d.removedFiles == [] && d.newProcesses == [] && d.removedProcesses == [] &&
          d.newNetworkDestinations == []
    ensures Compare(o, o).modifiedFiles == [] <==>
      forall f, g | f in o.filesystem && g in o.filesystem && f.path == g.path :: f.sha256 == g.sha256
    ensures PathsDistinct(o.filesystem) ==> Compare(o, o).modifiedFiles == []
  {
    NothingDiffers(o);
    SelfModified(o.filesystem);
  }

  lemma NothingDiffers(o: BehaviorObservation)
    ensures var d := Compare(o, o);
      d.createdFiles == [] && d.removedFiles == [] && d.newProcesses == [] && d.removedProcesses == [] &&
          d.newNetworkDestinations == []
  {
    assert Elements(o.filesystem) - Elements(o.filesystem) == {};
    assert Elements(o.processes) - Elements(o.processes) == {};
    assert Elements(o.network) - Elements(o.network) == {};
  }

  lemma SelfModified(files: seq<FileObservation>)
    ensures Modified(files, files) == [] <==> forall f, g | f in files && g in files && f.path == g.path ::
        f.sha256 == g.sha256
  {
    var m := Modified(files, files);
    if m == [] {
      forall f, g | f in files && g in files && f.path == g.path
        ensures f.sha256 == g.sha256
      {
        ModifiedExact(files, files, f.path);
      }
    } else {
      ModifiedExact(files, files, m[0]);
    }
  }

  /** A snapshot agrees with itself exactly when no two recorded entries of the walk
      become one path with different digests. */
  lemma SnapshotSelfCompare(root: seq<string>, entries: seq<WalkEntry>, o: BehaviorObservation)
    requires Readable(root, entries) && o.filesystem == Snapshot(root, entries).value
    ensures Compare(o, o).modifiedFiles == [] <==>
      forall e, f | e in entries && f in entries && !Skipped(root, e) && !Skipped(root, f) &&
          Observe(e).path == Observe(f).path ::
        Observe(e).sha256 == Observe(f).sha256
  {
    SelfModified(o.filesystem);
    forall f
      ensures f in o.filesystem <==> exists e :: e in entries && !Skipped(root, e) && Observe(e) == f
    {
      SnapshotRecords(root, entries, f);
    }
  }

  lemma TemporaryPath(path: string, first: string)
    requires path == first + "/a" && '/' !in first && "tmp-" <= first
    ensures NormalizePath(path) == "<temp>/a"
  {
    assert path == first + ['/'] + "a";
    SplitFirst(first, "a", '/');
    SplitOne("a", '/');
    var parts := NormalizeParts([first, "a"]);
    assert parts == [TEMP, "a"] && parts[1..] == ["a"];
    assert [first] + ["a"] == [first, "a"];
    assert Join(parts, '/') == TEMP + ['/'] + "a" == "<temp>/a";
  }

  function TemporaryEntry(first: string, sha256: string): WalkEntry {
    WalkEntry([first, "a"], Some(Meta(Regular, 1, sha256, false)))
  }

  function CollidingFile(sha256: string): FileObservation {
    FileObservation("<temp>/a", "file", 1, Some(sha256), false)
  }

  lemma TemporaryFile(first: string, sha256: string)
    requires first in {"tmp-1", "tmp-2"}
    ensures var e := TemporaryEntry(first, sha256);
      !Skipped([], e) && Observe(e) == CollidingFile(sha256)
  {
    var e := TemporaryEntry(first, sha256);
    assert [] + e.parts == e.parts;
    assert e.parts[1..] == ["a"];
    assert Join(e.parts, '/') == first + ['/'] + "a" == first + "/a";
    assert Slashes(first + "/a") == first + "/a";
    TemporaryPath(first + "/a", first);
  }

  /** Two temporary directories, each with a file of the same name, become one path;
      if the files differ, the snapshot differs from itself. */
  lemma TemporaryFilesCollide(o: BehaviorObservation, x: string, y: string)
    requires x != y
    requires Snapshot([], [TemporaryEntry("tmp-1", x), TemporaryEntry("tmp-2", y)]) == Some(o.filesystem)
    ensures Compare(o, o).modifiedFiles != []
  {
    TemporaryFile("tmp-1", x);
    TemporaryFile("tmp-2", y);
    var a, b := TemporaryEntry("tmp-1", x), TemporaryEntry("tmp-2", y);
    SnapshotSelfCompare([], [a, b], o);
    assert a in [a, b] && b in [a, b];
  }

  // ---- What the orders and the texts mean ----

  predicate ExitLt(a: Option<int>, b: Option<int>) {
    b.Some? && (a.None? || a.value < b.value)
  }

  /** Processes are in the order of their executables, then arguments, parents, exit codes. */
  lemma ProcessLeMeans(a: ProcessObservation, b: ProcessObservation)
    ensures ProcessLe(a, b) <==>
      || a == b
      || TextLt(a.executable, b.executable)
      || (a.executable == b.executable && a.arguments != b.arguments && TextsLe(a.arguments, b.arguments))
      || (a.executable == b.executable && a.arguments == b.arguments &&
          OptionalTextLt(a.parentExecutable, b.parentExecutable))
      || (a.executable == b.executable && a.arguments == b.arguments && a.parentExecutable == b.parentExecutable &&
          ExitLt(a.exitCode, b.exitCode))
  {
  }

  /** Observations of the network are in the order of their destinations, then ports,
      protocols, sources. */
  lemma NetworkLeMeans(a: NetworkObservation, b: NetworkObservation)
    ensures NetworkLe(a, b) <==>
      || a == b
      || TextLt(a.destination, b.destination)
      || (a.destination == b.destination && a.port < b.port)
      || (a.destination == b.destination && a.port == b.port && TextLt(a.protocol, b.protocol))
      || (a.destination == b.destination && a.port == b.port && a.protocol == b.protocol && TextLt(a.source, b.source))
  {
    TextLeOrder(a.source, a.source, "");
  }

  /** A destination is spelled with its port in decimal digits, none of them a leading zero. */
  lemma DestinationMeans(n: NetworkObservation)
    ensures exists digits: Bytes ::
      && Destination(n) == n.destination + ":" + TextOf(digits)
      && (forall i | 0 <= i < |digits| :: IsDigit(digits[i])) && DecimalValue(digits) == n.port
      && (|digits| > 1 ==> digits[0] != ZERO)
  {
    DecimalText(n.port);
    NoLeadingZero(n.port);
    assert Destination(n) == n.destination + ":" + TextOf(Decimal(n.port));
  }
}
