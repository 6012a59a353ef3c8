# pyflow environment-path rules, modelled in Dafny

This project models the decision rules of pyflow's `src/util.rs`. pyflow is a Python
package and environment manager. The rules are:

- the fixed table of interpreter versions pyflow will consider (`possible_py_versions`);
- the check that a virtual environment exists: a `python` and a `pip` executable in the
  same `bin/` (POSIX) or `Scripts/` (Windows) directory (`venv_exists`);
- the choice of the executable directories of a version directory: `.venv/bin` before
  `.venv/Scripts`, each paired with the matching `lib/bin` or `lib/Scripts`, with process
  exit when neither exists (`find_bin_path`);
- the bounded poll that waits for directories made by another process (`wait_for_dirs`).

The filesystem is abstract (`filesystem.dfy`, module `FileSystem`). A path is the sequence of
its segments. `PathBuf::join` with a relative path is concatenation. The filesystem is the set
of paths that exist. Everything else is in `util.dfy`, module `Util`.

- `abort`, which prints a message and exits the process, is the `BinPathResult.Abort(message)`
  outcome of `FindBinPath`. It never stands for a value handed back to a caller.
- `wait_for_dirs` is a method with the source's two loops, its `all_created` flag and its
  early return. The other process that creates directories is an oracle `snap: nat -> FileSet`:
  `snap(i)` is the filesystem seen at check `i`. `thread::sleep` is a step that bumps a counter.
  The method returns two counters next to the `Ok`/`Err` result. `sleeps` counts the 10 ms
  sleeps. Time is counted only in sleeps: a sleep may last longer than asked and the probes
  take time too, so the wait lasts at least `10 * sleeps` ms. `probes` counts the `exists()`
  calls. Together they show that success comes at the first ready check and that a timeout comes only after
  all 1000 sleeps. They also show that the inner scan reads every path and never stops early.
- Interpreter versions are `(major, minor)` pairs. The table's strings (`"2.0"` … `"3.12"`)
  are written as the pairs they spell. `Version::from_str2` is not part of this model.

Two details of `wait_for_dirs` that the model keeps:

- The code probes the paths one after another within one check. The model takes one snapshot
  per check.
- The code sleeps after the last failed check too, and never checks again after that sleep.
  So a timeout costs 1000 sleeps, and `WaitForDirs` ensures `sleeps == TIMEOUT` on `Err`.

## Model

| member | source | states |
|---|---|---|
| `Util.PossiblePyVersions` | src/util.rs:14-22 | exactly 18 versions; each is strictly greater than the one before; a version is in the table iff it is 2.0–2.7 or 3.3–3.12 (so none of 3.0–3.2) |
| `Util.PossiblePyVersionsStrictlyIncreasing` | src/util.rs:15-18 | any earlier table entry is strictly less than any later one, so the table has no duplicates and 3.9 < 3.10 < 3.11 |
| `Util.VenvExists` | src/util.rs:24-27 | true iff some layout directory (`bin` or `Scripts`) holds both `python` and `pip` |
| `Util.IncompleteLayoutsAreNoVenv` | src/util.rs:24-27 | a lone `bin/python`, or `python` and `pip` split across `bin/` and `Scripts/` (either way round), is not a virtual environment |
| `Util.SplitLayoutsAreNoVenv` | src/util.rs:24-27 | in any filesystem without `bin/pip` and `Scripts/python`, there is no virtual environment, whatever else exists |
| `Util.FindBinPath` | src/util.rs:31-51 | returns a pair iff `.venv/bin` or `.venv/Scripts` exists; `.venv/bin` gives (`.venv/bin`, `lib/bin`) whether or not `.venv/Scripts` exists; without `.venv/bin`, `.venv/Scripts` gives (`.venv/Scripts`, `lib/Scripts`); otherwise it aborts with the source's message |
| `Util.FoundPairMatchesLayout` | src/util.rs:37-44 | every returned pair lies under the version directory; its primary directory exists and sits under `.venv`; its secondary sits under `lib`; both end in the same `bin`/`Scripts` segment; the `vers_path` fallback is never returned |
| `Util.FirstPresentLayout` | src/util.rs:37-39 | finds the first layout from index `i` on whose `.venv` directory exists, with every earlier one absent; `None` only when no layout from `i` on exists |
| `Util.FindBinPathFollowsPriority` | src/util.rs:37-50 | `find_bin_path` returns the pair of the first layout in the priority list `[bin, Scripts]` that exists, and aborts exactly when none does |
| `Util.VenvExistsImpliesBinPathFound` | src/util.rs:33-39 | in a directory tree where every ancestor of an existing path exists, a virtual environment at `<vers>/.venv` means `find_bin_path(<vers>)` does not abort |
| `Util.EmptyBinDirShadowsScripts` | src/util.rs:24-38 | with an empty `.venv/bin` beside a complete `.venv/Scripts`, `venv_exists` holds through `Scripts`, but `find_bin_path` returns the `bin` pair, whose directory holds neither executable |
| `Util.FirstReadyFrom` | src/util.rs:58-67 | finds the first check at or after `i`, before 1000, whose snapshot holds every path, with no earlier check from `i` on holding them all; `None` only when no check in that range holds them all |
| `Util.WaitForDirs` | src/util.rs:55-73 | `Ok` iff some check 0..999 sees every path; on `Ok` that check is the first such, after exactly that many sleeps and `|dirs|` probes per check made; on `Err` no check saw them all, the error carries the source's timeout text, and the method slept 1000 times and probed `1000 * |dirs|` times |
| `Util.ReadyAtFirstCheck` | src/util.rs:58-67 | paths that already all exist are ready at check 0, with no sleep |
| `Util.EmptyDirsReadyAtFirstCheck` | src/util.rs:58-67 | an empty path list is ready at check 0, whatever the snapshots |
| `Util.NeverCreatedTimesOut` | src/util.rs:57-72 | if one of the paths is missing from every snapshot of checks 0..999, the wait times out |
| `Util.GrowingWaitSucceedsIffReadyAtLastCheck` | src/util.rs:57-72 | when created directories stay, the wait succeeds iff every path exists at the 1000th check |

## Left out

- `abort`'s printing and `process::exit`, and the `println!` of the version path in
  `find_bin_path`: these are output and process termination. They appear only as the `Abort`
  outcome.
- `thread::sleep` and wall-clock time: a sleep is a counted step, not real 10 ms timing.
- `WaitForDirs`: within one check all paths are probed against one snapshot. A directory that
  appears or disappears between two probes of the same check is not modelled.
- `set_pythonpath`: it writes the process-wide `PYTHONPATH` variable. Its failure depends on the
  operating system's string encoding. Neither can be stated over this model.
- `get_warehouse_data` and the `WarehouseInfo`, `WarehouseRelease` and `WarehouseData` records:
  an HTTP request and derived JSON decoding, with no hand-written logic to verify.
- `Version::from_str2` and the rest of `package_types.rs`: that file is not part of this model.
  Versions are `(major, minor)` pairs, and there is no patch component.
- Real filesystem behaviour (symlinks, permissions, races between probes): the filesystem is a
  set of existing paths. `PrefixClosed` is assumed only where a lemma says so.
