/** The decision rules of pyflow's `util.rs`: the table of interpreter versions,
    the virtual-environment existence check, the choice of executable
    directories, and the bounded wait for directories made by another process. */
module Util {

  import opened FileSystem

  datatype Option<T> = None | Some(value: T)

  // ---------------------------------------------------------------------------
  // Interpreter version table (`possible_py_versions`)
  // ---------------------------------------------------------------------------

  /** An interpreter version, reduced to the major and minor numbers that the
      table's literals spell out. */
  datatype Version = Version(major: nat, minor: nat)

  /** Version order: by major number, then by minor number. */
  predicate Less(a: Version, b: Version) {
    a.major < b.major || (a.major == b.major && a.minor < b.minor)
  }

  /** The versions the table is meant to cover: 2.0 to 2.7 and 3.3 to 3.12. */
  predicate Supported(v: Version) {
    (v.major == 2 && v.minor <= 7) || (v.major == 3 && 3 <= v.minor <= 12)
  }

  /** The fixed table, in the order it is written. */
  function PossiblePyVersions(): (r: seq<Version>)
    ensures |r| == 18
    ensures forall i :: 0 < i < |r| ==> Less(r[i - 1], r[i])
    ensures forall v :: v in r <==> Supported(v)
  {
    [ Version(2, 0), Version(2, 1), Version(2, 2), Version(2, 3), Version(2, 4),
      Version(2, 5), Version(2, 6), Version(2, 7), Version(3, 3), Version(3, 4),
      Version(3, 5), Version(3, 6), Version(3, 7), Version(3, 8), Version(3, 9),
      Version(3, 10), Version(3, 11), Version(3, 12) ]
  }

  /** The table is strictly increasing, hence free of duplicates: 3.10 comes
      after 3.9 and before 3.11. */
  lemma PossiblePyVersionsStrictlyIncreasing()
    ensures forall i, j :: 0 <= i < j < 18 ==> Less(PossiblePyVersions()[i], PossiblePyVersions()[j])
  {
  }

  // ---------------------------------------------------------------------------
  // Virtual-environment layouts
  // ---------------------------------------------------------------------------

  /** The two conventions for where a virtual environment keeps executables. */
  datatype Layout = Posix | Windows

  /** Layouts in the order `find_bin_path` tries them. */
  const LAYOUT_PRIORITY: seq<Layout> := [Posix, Windows]

  function BinDirName(l: Layout): string {
    match l
    case Posix => "bin"
    case Windows => "Scripts"
  }

  /** Both the interpreter and the package installer sit in layout `l` under `venv`. */
  predicate HasExecutables(fs: FileSet, venv: Path, l: Layout) {
    Exists(fs, Join(venv, [BinDirName(l), "python"])) && Exists(fs, Join(venv, [BinDirName(l), "pip"]))
  }

  /** `venv_exists`: a virtual environment is present when one layout holds
      both executables; the layouts are not mixed. */
  function VenvExists(fs: FileSet, venvPath: Path): (b: bool)
    ensures b <==> exists l :: HasExecutables(fs, venvPath, l)
  {
    HasExecutables(fs, venvPath, Posix) || HasExecutables(fs, venvPath, Windows)
  }

  /** Over any filesystem: when neither `bin/pip` nor `Scripts/python` exists,
      `bin/python` and `Scripts/pip` together are no virtual environment. */
  lemma SplitLayoutsAreNoVenv(fs: FileSet, venvPath: Path)
    requires Join(venvPath, ["bin", "pip"]) !in fs
    requires Join(venvPath, ["Scripts", "python"]) !in fs
    ensures !VenvExists(fs, venvPath)
  {
  }

  /** An interpreter without an installer beside it, or an interpreter and an
      installer in different layouts, do not make a virtual environment. */
  lemma IncompleteLayoutsAreNoVenv(venvPath: Path)
    ensures !VenvExists({Join(venvPath, ["bin", "python"])}, venvPath)
    ensures !VenvExists({Join(venvPath, ["bin", "python"]), Join(venvPath, ["Scripts", "pip"])}, venvPath)
    ensures !VenvExists({Join(venvPath, ["Scripts", "python"]), Join(venvPath, ["bin", "pip"])}, venvPath)
  {
    var bp, bi := Join(venvPath, ["bin", "python"]), Join(venvPath, ["bin", "pip"]);
    var sp, si := Join(venvPath, ["Scripts", "python"]), Join(venvPath, ["Scripts", "pip"]);
    assert bp[|venvPath| + 1] == "python" && bi[|venvPath| + 1] == "pip";
    assert sp[|venvPath| + 1] == "python" && si[|venvPath| + 1] == "pip";
    assert bp[|venvPath|] == "bin" && si[|venvPath|] == "Scripts";
    assert sp[|venvPath|] == "Scripts" && bi[|venvPath|] == "bin";
  }

  // ---------------------------------------------------------------------------
  // Executable directories (`find_bin_path`)
  // ---------------------------------------------------------------------------

  const LAYOUT_NOT_FOUND_MESSAGE: string :=
    "Can't find the new binary directory. (ie `bin` or `Scripts` in the virtual environment's folder)"

  /** The outcome of `find_bin_path`: the primary directory inside `.venv` and the
      secondary one under `lib`, or `Abort`, which stands for printing the
      message and exiting the process with status 1. */
  datatype BinPathResult = Found(primary: Path, secondary: Path) | Abort(message: string)

  /** `<vers>/.venv/<bin or Scripts>` */
  function VenvBinDir(versPath: Path, l: Layout): Path {
    Join(versPath, [".venv", BinDirName(l)])
  }

  /** `<vers>/lib/<bin or Scripts>` */
  function LibBinDir(versPath: Path, l: Layout): Path {
    Join(versPath, ["lib", BinDirName(l)])
  }

  predicate LayoutPresent(fs: FileSet, versPath: Path, l: Layout) {
    Exists(fs, VenvBinDir(versPath, l))
  }

  /** The pair of directories that belong to layout `l`. */
  function PairFor(versPath: Path, l: Layout): BinPathResult {
    Found(VenvBinDir(versPath, l), LibBinDir(versPath, l))
  }

  function FindBinPath(fs: FileSet, versPath: Path): (r: BinPathResult)
    ensures r.Found? <==> LayoutPresent(fs, versPath, Posix) || LayoutPresent(fs, versPath, Windows)
    ensures LayoutPresent(fs, versPath, Posix) ==> r == PairFor(versPath, Posix)
    ensures !LayoutPresent(fs, versPath, Posix) && LayoutPresent(fs, versPath, Windows) ==>
              r == PairFor(versPath, Windows)
    ensures r.Abort? ==> r.message == LAYOUT_NOT_FOUND_MESSAGE
  {
    if LayoutPresent(fs, versPath, Posix) then PairFor(versPath, Posix)
    else if LayoutPresent(fs, versPath, Windows) then PairFor(versPath, Windows)
    else
      Abort(LAYOUT_NOT_FOUND_MESSAGE)
  }

  /** Every pair `find_bin_path` returns lies under the version directory, its
      primary directory exists, and both directories end in the same layout
      name, so the `lib` directory always matches the layout found. */
  lemma FoundPairMatchesLayout(fs: FileSet, versPath: Path)
    ensures var r := FindBinPath(fs, versPath);
            r.Found? ==>
              && Exists(fs, r.primary)
              && |r.primary| == |r.secondary| == |versPath| + 2
              && r.primary[..|versPath|] == versPath == r.secondary[..|versPath|]
              && r.primary[|versPath|] == ".venv" && r.secondary[|versPath|] == "lib"
              && r.primary[|versPath| + 1] == r.secondary[|versPath| + 1]
              && r.primary != versPath
  {
  }

  /** The first layout of `ls`, from index `i` on, whose directory exists. */
  function FirstPresentLayout(fs: FileSet, versPath: Path, ls: seq<Layout>, i: nat): (r: Option<nat>)
    decreases |ls| - i
    ensures r.Some? ==> i <= r.value < |ls| && LayoutPresent(fs, versPath, ls[r.value])
    ensures r.Some? ==> forall k :: i <= k < r.value ==> !LayoutPresent(fs, versPath, ls[k])
    ensures r.None? ==> forall k :: i <= k < |ls| ==> !LayoutPresent(fs, versPath, ls[k])
  {
    if i >= |ls| then None
    else if LayoutPresent(fs, versPath, ls[i]) then Some(i)
    else FirstPresentLayout(fs, versPath, ls, i + 1)
  }

  /** `find_bin_path` is a priority search: it returns the pair of the first
      layout in `LAYOUT_PRIORITY` whose directory exists, and aborts exactly
      when none does. */
  lemma FindBinPathFollowsPriority(fs: FileSet, versPath: Path)
    ensures var first := FirstPresentLayout(fs, versPath, LAYOUT_PRIORITY, 0);
            && (first.Some? ==> FindBinPath(fs, versPath) == PairFor(versPath, LAYOUT_PRIORITY[first.value]))
            && (first.None? ==> FindBinPath(fs, versPath) == Abort(LAYOUT_NOT_FOUND_MESSAGE))
  {
  }

  /** Once a virtual environment exists at `<vers>/.venv` in a real directory
      tree, `find_bin_path` on `<vers>` finds a layout and does not abort. */
  lemma VenvExistsImpliesBinPathFound(fs: FileSet, versPath: Path)
    requires PrefixClosed(fs)
    requires VenvExists(fs, Join(versPath, [".venv"]))
    ensures FindBinPath(fs, versPath).Found?
  {
    var venv := Join(versPath, [".venv"]);
    var l := if HasExecutables(fs, venv, Posix) then Posix else Windows;
    var python := Join(venv, [BinDirName(l), "python"]);
    assert python in fs;
    assert python[..|versPath| + 2] == VenvBinDir(versPath, l);
    assert LayoutPresent(fs, versPath, l);
  }

  /** The two rules look at different things: `venv_exists` at the executables,
      `find_bin_path` at the directory alone. With an empty `.venv/bin` beside
      a complete `.venv/Scripts`, the environment exists through `Scripts`, yet
      `find_bin_path` picks `bin`, which holds neither executable. */
  lemma EmptyBinDirShadowsScripts(versPath: Path)
    ensures var venv := Join(versPath, [".venv"]);
            var fs := {VenvBinDir(versPath, Posix), Join(venv, ["Scripts", "python"]), Join(venv, ["Scripts", "pip"])};
            && VenvExists(fs, venv)
            && !HasExecutables(fs, venv, Posix)
            && FindBinPath(fs, versPath) == PairFor(versPath, Posix)
  {
    var venv := Join(versPath, [".venv"]);
    var bin := VenvBinDir(versPath, Posix);
    assert |bin| == |Join(venv, ["bin", "python"])| - 1;
    assert Join(venv, ["bin", "python"])[|versPath| + 1] == "bin";
    assert Join(venv, ["Scripts", "python"])[|versPath| + 1] == "Scripts";
    assert Join(venv, ["Scripts", "pip"])[|versPath| + 1] == "Scripts";
    assert HasExecutables({bin, Join(venv, ["Scripts", "python"]), Join(venv, ["Scripts", "pip"])}, venv, Windows);
  }

  // ---------------------------------------------------------------------------
  // Waiting for directories (`wait_for_dirs`)
  // ---------------------------------------------------------------------------

  /** Number of existence checks before giving up; one 10 ms sleep follows each
      failed check. */
  const TIMEOUT: nat := 1000

  const TIMEOUT_DETAILS: string := "Timed out attempting to create a directory"

  datatype AliasError = AliasError(details: string)

  datatype WaitResult = Ok | Err(error: AliasError)

  /** Every path of `dirs` is in the snapshot `s`. */
  predicate AllCreated(dirs: seq<Path>, s: FileSet) {
    forall k :: 0 <= k < |dirs| ==> dirs[k] in s
  }

  /** The first check, from `i` on and within the budget, whose snapshot
      holds every path of `dirs`. */
  function FirstReadyFrom(dirs: seq<Path>, snap: nat -> FileSet, i: nat): (r: Option<nat>)
    decreases TIMEOUT - i
    ensures r.Some? ==> i <= r.value < TIMEOUT && AllCreated(dirs, snap(r.value))
    ensures r.Some? ==> forall k :: i <= k < r.value ==> !AllCreated(dirs, snap(k))
    ensures r.None? ==> forall k :: i <= k < TIMEOUT ==> !AllCreated(dirs, snap(k))
  {
    if i >= TIMEOUT then None
    else if AllCreated(dirs, snap(i)) then Some(i)
    else FirstReadyFrom(dirs, snap, i + 1)
  }

  function FirstReady(dirs: seq<Path>, snap: nat -> FileSet): Option<nat> {
    FirstReadyFrom(dirs, snap, 0)
  }

  /** `wait_for_dirs`. The directories are made by another process, so the
      filesystem seen at check `i` is the snapshot `snap(i)`. Besides the
      result, the method reports how many 10 ms sleeps it took (`sleeps`) and
      how many existence probes it made (`probes`). */
  method WaitForDirs(dirs: seq<Path>, snap: nat -> FileSet) returns (r: WaitResult, sleeps: nat, probes: nat)
    ensures r.Ok? <==> FirstReady(dirs, snap).Some?
    ensures r.Ok? ==> sleeps < TIMEOUT && AllCreated(dirs, snap(sleeps))
    ensures r.Ok? ==> forall k :: 0 <= k < sleeps ==> !AllCreated(dirs, snap(k))
    ensures r.Ok? ==> probes == (sleeps + 1) * |dirs|
    ensures r.Err? ==> forall k :: 0 <= k < TIMEOUT ==> !AllCreated(dirs, snap(k))
    ensures r.Err? ==> r.error.details == TIMEOUT_DETAILS && sleeps == TIMEOUT && probes == TIMEOUT * |dirs|
  {
    sleeps, probes := 0, 0;
    for i := 0 to TIMEOUT
      invariant sleeps == i && probes == i * |dirs|
      invariant forall k :: 0 <= k < i ==> !AllCreated(dirs, snap(k))
      invariant FirstReady(dirs, snap) == FirstReadyFrom(dirs, snap, i)
    {
      var allCreated := true;
      for j := 0 to |dirs|
        invariant allCreated <==> forall k :: 0 <= k < j ==> dirs[k] in snap(i)
        invariant probes == i * |dirs| + j
      {
        if dirs[j] !in snap(i) {
          allCreated := false;
        }
        probes := probes + 1;
      }
      assert probes == (i + 1) * |dirs|;
      if allCreated {
        r := Ok;
        return;
      }
      sleeps := sleeps + 1;
    }
    r := Err(AliasError(TIMEOUT_DETAILS));
  }

  /** Paths that all exist at the first check make the wait succeed at once,
      without sleeping. */
  lemma ReadyAtFirstCheck(dirs: seq<Path>, snap: nat -> FileSet)
    requires AllCreated(dirs, snap(0))
    ensures FirstReady(dirs, snap) == Some(0)
  {
  }

  /** An empty list of paths is ready at the first check, whatever the filesystem. */
  lemma EmptyDirsReadyAtFirstCheck(snap: nat -> FileSet)
    ensures FirstReady([], snap) == Some(0)
  {
  }

  /** A path that never appears during the budget makes the wait time out. */
  lemma NeverCreatedTimesOut(dirs: seq<Path>, snap: nat -> FileSet, missing: nat)
    requires missing < |dirs|
    requires forall i :: 0 <= i < TIMEOUT ==> dirs[missing] !in snap(i)
    ensures FirstReady(dirs, snap) == None
  {
  }

  /** Directories that, once created, stay: each snapshot contains the one before. */
  ghost predicate Growing(snap: nat -> FileSet) {
    forall i: nat :: snap(i) <= snap(i + 1)
  }

  lemma {:induction false} GrowingReaches(snap: nat -> FileSet, a: nat, b: nat)
    requires Growing(snap)
    requires a <= b
    ensures snap(a) <= snap(b)
    decreases b - a
  {
    if a < b {
      GrowingReaches(snap, a + 1, b);
      assert snap(a) <= snap(a + 1);
    }
  }

  /** When created directories stay, the wait succeeds exactly when all paths
      exist at the last check, the 1000th: polling earlier only saves time. */
  lemma GrowingWaitSucceedsIffReadyAtLastCheck(dirs: seq<Path>, snap: nat -> FileSet)
    requires Growing(snap)
    ensures FirstReady(dirs, snap).Some? <==> AllCreated(dirs, snap(TIMEOUT - 1))
  {
    var r := FirstReady(dirs, snap);
    if r.Some? {
      GrowingReaches(snap, r.value, TIMEOUT - 1);
      assert AllCreated(dirs, snap(r.value));
    }
  }
}
