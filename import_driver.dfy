/**
 * The sequential import-queue driver of the batch package importer window,
 * as a state value and its transitions.
 *
 * The host's callbacks are explicit: `stepPending` says that ImportNextPackage
 * is queued on EditorApplication.delayCall, `waitingForDialog` that
 * WaitForImportComplete is subscribed to EditorApplication.update. Everything
 * the host answers (File.Exists, whether ImportPackage threw, whether a
 * PackageImport window is open, the user's confirmation) is a parameter.
 */
module ImportDriver {
  import opened HostEffects

  /** The host's answers consulted by one ImportNextPackage call. */
  datatype ItemProbe = ItemProbe(fileExists: bool, importThrows: bool)

  datatype Driver = Driver(
    paths: seq<string>,        // packagePaths
    interactive: bool,         // importInteractive
    importing: bool,           // isImporting
    index: nat,                // currentImportIndex
    success: nat,              // successCount
    fail: nat,                 // failCount
    lastDialogOpen: bool,      // lastImportDialogState
    stepPending: bool,         // ImportNextPackage queued on delayCall
    waitingForDialog: bool,    // WaitForImportComplete subscribed to update
    effects: seq<Effect>)      // host calls made so far, in order

  /** The state of a freshly opened window. */
  const Initial: Driver := Driver([], false, false, 0, 0, 0, false, false, false, [])

  predicate NoDuplicates(s: seq<string>) {
    forall i, j :: 0 <= i < j < |s| ==> s[i] != s[j]
  }

  /** a and b agree on everything except the log of host calls */
  predicate SameState(a: Driver, b: Driver) {
    a.(effects := []) == b.(effects := [])
  }

  /**
   * The invariant of every reachable state: the queue has no duplicates, every
   * item passed counts once as a success or a failure, a run never looks past
   * the end of the queue, a run is active exactly while one host callback is
   * registered, and the dialog latch is only set while the dialog is polled.
   */
  predicate Inv(d: Driver) {
    && NoDuplicates(d.paths)
    && d.success + d.fail == d.index
    && (d.importing ==> d.index <= |d.paths|)
    && (d.importing <==> d.stepPending || d.waitingForDialog)
    && !(d.stepPending && d.waitingForDialog)
    && (d.waitingForDialog ==> d.interactive && d.index < |d.paths|)
    && (d.lastDialogOpen ==> d.waitingForDialog)
  }

  /** The state in which ImportNextPackage runs: a run is active and no callback is registered. */
  predicate Ready(d: Driver) {
    && NoDuplicates(d.paths)
    && d.success + d.fail == d.index
    && d.importing && d.index <= |d.paths|
    && !d.stepPending && !d.waitingForDialog && !d.lastDialogOpen
  }

  /** r has passed exactly one more item than d, as a success or as a failure, and queued the next step. */
  predicate Advanced(d: Driver, r: Driver) {
    && r.index == d.index + 1
    && ((r.success == d.success + 1 && r.fail == d.fail) || (r.success == d.success && r.fail == d.fail + 1))
    && r.stepPending && !r.waitingForDialog
  }

  // ---------------------------------------------------------------- queue editing

  /** "Add Package": a picked path is appended unless the picker was cancelled or it is queued already. */
  function AddPackage(d: Driver, path: string): (r: Driver)
    requires Inv(d) && !d.importing
    ensures Inv(r)
    ensures r == d.(paths := r.paths)
    ensures forall p :: p in r.paths <==> p in d.paths || (p == path && path != "")
    ensures |d.paths| <= |r.paths| <= |d.paths| + 1 && r.paths[..|d.paths|] == d.paths
  {
    if path != "" && path !in d.paths then d.(paths := d.paths + [path]) else d
  }

  /**
   * x is scanned first at some position of `files`, and y is scanned before
   * that position: appended in scan order, y comes before x.
   */
  predicate ScannedBefore(files: seq<string>, y: string, x: string) {
    exists b :: 0 <= b < |files| && files[b] == x && x !in files[..b] && y in files[..b]
  }

  lemma ScannedBeforeTail(files: seq<string>, y: string, x: string)
    requires files != [] && x != files[0] && ScannedBefore(files[1..], y, x)
    ensures ScannedBefore(files, y, x)
  {
  }

  lemma {:induction false} HeadScannedBefore(files: seq<string>, x: string)
    requires files != [] && x in files && x != files[0]
    ensures ScannedBefore(files, files[0], x)
    decreases |files|
  {
    if files[1] == x {
      assert files[..1] == [files[0]];
      assert files[1] == x && x !in files[..1] && files[0] in files[..1];
    } else {
      var t := files[1..];
      assert x in t[1..] by {
        var k :| 0 <= k < |files| && files[k] == x;
        assert t[1..][k - 2] == x;
      }
      var u := [files[0]] + t[1..];
      assert u[1..] == t[1..];
      HeadScannedBefore(u, x);
      var b :| 0 <= b < |u| && u[b] == x && x !in u[..b] && files[0] in u[..b];
      assert b >= 1;
      assert files[b + 1] == x;
      assert files[..b + 1] == [files[0], files[1]] + t[1..][..b - 1];
      assert u[..b] == [files[0]] + t[1..][..b - 1];
    }
  }

  /** The order facts of one step of AppendNew, from those of the rest of the scan. */
  lemma AppendStepOrder(paths: seq<string>, files: seq<string>, next: seq<string>, rest: seq<string>)
    requires files != [] && next == (if files[0] in paths then paths else paths + [files[0]])
    requires |next| <= |rest| && rest[..|next|] == next
    requires forall i :: |next| <= i < |rest| ==> rest[i] in files[1..] && rest[i] !in next
    requires forall i, j :: |next| <= i < j < |rest| ==> ScannedBefore(files[1..], rest[i], rest[j])
    ensures forall i :: |paths| <= i < |rest| ==> rest[i] !in paths
    ensures forall i, j :: |paths| <= i < j < |rest| ==> ScannedBefore(files, rest[i], rest[j])
  {
    forall i | |paths| <= i < |rest| ensures rest[i] !in paths {
      if i >= |next| {
        assert forall p :: p in paths ==> p in next;
      } else {
        assert rest[i] == next[i] == files[0];
      }
    }
    forall i, j | |paths| <= i < j < |rest| ensures ScannedBefore(files, rest[i], rest[j]) {
      assert rest[j] != files[0] by {
        assert j >= |next|;
        assert files[0] in paths ==> forall p :: p in paths ==> p in next;
        assert files[0] !in paths ==> next[|paths|] == files[0];
      }
      if i >= |next| {
        ScannedBeforeTail(files, rest[i], rest[j]);
      } else {
        assert rest[i] == next[i] == files[0];
        assert rest[j] in files by {
          var k :| 0 <= k < |files[1..]| && files[1..][k] == rest[j];
          assert files[k + 1] == rest[j];
        }
        HeadScannedBefore(files, rest[j]);
      }
    }
  }

  /** The queue after appending, in scan order, each of `files` that is not queued yet. */
  function AppendNew(paths: seq<string>, files: seq<string>): (r: seq<string>)
    ensures NoDuplicates(paths) ==> NoDuplicates(r)
    ensures |paths| <= |r| && r[..|paths|] == paths
    ensures forall i :: |paths| <= i < |r| ==> r[i] in files && r[i] !in paths
    ensures forall p :: p in r <==> p in paths || p in files
    ensures forall i, j :: |paths| <= i < j < |r| ==> ScannedBefore(files, r[i], r[j])
    decreases |files|
  {
    if files == [] then paths
    else
      var next := if files[0] in paths then paths else paths + [files[0]];
      assert next[..|paths|] == paths;
      var rest := AppendNew(next, files[1..]);
      AppendStepOrder(paths, files, next, rest);
      rest
  }

  /** "Add Folder": unless the folder picker was cancelled, every scanned file not yet queued is appended, in scan order. */
  function AddFolder(d: Driver, folder: string, files: seq<string>): (r: Driver)
    requires Inv(d) && !d.importing
    ensures Inv(r)
    ensures r == d.(paths := r.paths)
    ensures folder == "" ==> r == d
    ensures folder != "" ==> forall p :: p in r.paths <==> p in d.paths || p in files
    ensures |d.paths| <= |r.paths| && r.paths[..|d.paths|] == d.paths
    ensures forall i :: |d.paths| <= i < |r.paths| ==> r.paths[i] in files && r.paths[i] !in d.paths
    ensures forall i, j :: |d.paths| <= i < j < |r.paths| ==> ScannedBefore(files, r.paths[i], r.paths[j])
  {
    if folder == "" then d else d.(paths := AppendNew(d.paths, files))
  }

  lemma RemovalKeepsDistinct(s: seq<string>, i: nat)
    requires NoDuplicates(s) && i < |s|
    ensures NoDuplicates(s[..i] + s[i + 1..])
    ensures forall p :: p in s[..i] + s[i + 1..] <==> p in s && p != s[i]
  {
  }

  /** The "X" button of row i: the entry is removed and the others keep their order. */
  function RemoveAt(d: Driver, i: nat): (r: Driver)
    requires Inv(d) && !d.importing && i < |d.paths|
    ensures Inv(r)
    ensures r == d.(paths := r.paths)
    ensures |r.paths| == |d.paths| - 1
    ensures forall k :: 0 <= k < i ==> r.paths[k] == d.paths[k]
    ensures forall k :: i <= k < |r.paths| ==> r.paths[k] == d.paths[k + 1]
    ensures forall p :: p in r.paths <==> p in d.paths && p != d.paths[i]
  {
    RemovalKeepsDistinct(d.paths, i);
    d.(paths := d.paths[..i] + d.paths[i + 1..])
  }

  /** "Clear List": the queue becomes empty; nothing else changes. */
  function Clear(d: Driver): (r: Driver)
    requires Inv(d) && !d.importing
    ensures Inv(r)
    ensures r.paths == [] && r == d.(paths := [])
  {
    d.(paths := [])
  }

  /** Clearing an idle queue twice is the same as clearing it once. */
  lemma ClearTwice(d: Driver)
    requires Inv(d) && !d.importing
    ensures Clear(Clear(d)) == Clear(d)
  {
  }

  /** The "Interactive Import" toggle. */
  function SetInteractive(d: Driver, on: bool): (r: Driver)
    requires Inv(d) && !d.importing
    ensures Inv(r)
    ensures r.interactive == on && r == d.(interactive := on)
  {
    d.(interactive := on)
  }

  // ---------------------------------------------------------------- the run

  /** FinishImport: the run ends, the counters are kept and the summary is shown. */
  function Finish(d: Driver): (r: Driver)
    requires Ready(d) && d.index >= |d.paths|
    ensures Inv(r) && !r.importing
    ensures r.index == |d.paths| && r.success == d.success && r.fail == d.fail
    ensures SameState(r, d.(importing := false))
    ensures r.effects == d.effects + [SummaryNotice(d.success, d.fail), RefreshAssets]
  {
    d.(importing := false, effects := d.effects + [SummaryNotice(d.success, d.fail), RefreshAssets])
  }

  /**
   * ImportNextPackage: past the end of the queue the run finishes; otherwise the
   * current item is a failure when its file is missing (no import call) or the
   * import throws, a success once an unattended import returns, and an
   * interactive import leaves the item open while the dialog is polled.
   */
  function ProcessNext(d: Driver, p: ItemProbe): (r: Driver)
    requires Ready(d)
    ensures Inv(r)
    ensures r.paths == d.paths && r.interactive == d.interactive
    ensures d.index >= |d.paths| ==>
      && !r.importing && r.index == d.index && r.success == d.success && r.fail == d.fail
      && r.effects == d.effects + [SummaryNotice(d.success, d.fail), RefreshAssets]
    ensures d.index < |d.paths| ==>
      && r.importing
      && r.effects == d.effects + (if p.fileExists then [ImportPackage(d.paths[d.index], d.interactive)] else [])
    ensures d.index < |d.paths| && p.fileExists && !p.importThrows && d.interactive ==>
      r.waitingForDialog && !r.lastDialogOpen && r.index == d.index && r.success == d.success && r.fail == d.fail
    ensures d.index < |d.paths| && !(p.fileExists && !p.importThrows && d.interactive) ==>
      Advanced(d, r) && (r.success == d.success + 1 <==> p.fileExists && !p.importThrows)
  {
    if d.index >= |d.paths| then Finish(d)
    else if !p.fileExists then
      d.(fail := d.fail + 1, index := d.index + 1, stepPending := true)
    else
      var called := d.(effects := d.effects + [ImportPackage(d.paths[d.index], d.interactive)]);
      if p.importThrows then
        called.(fail := d.fail + 1, index := d.index + 1, stepPending := true)
      else if d.interactive then
        called.(waitingForDialog := true)
      else
        called.(success := d.success + 1, index := d.index + 1, stepPending := true)
  }

  /** The session StartImportSequence sets up once the user confirms, before the first item. */
  function Begin(d: Driver): (r: Driver)
    requires Inv(d) && !d.importing && |d.paths| > 0
    ensures Ready(r) && r.index == 0 && r.success == 0 && r.fail == 0
    ensures r.paths == d.paths && r.interactive == d.interactive
  {
    d.(importing := true, index := 0, success := 0, fail := 0,
       effects := d.effects + [ConfirmPrompt(|d.paths|, d.interactive)])
  }

  /**
   * StartImportSequence: an empty queue only shows a notice; otherwise the user
   * is asked, a refusal changes nothing, and a confirmation starts a run from
   * zeroed counters and processes the first item.
   */
  function Start(d: Driver, confirm: bool, first: ItemProbe): (r: Driver)
    requires Inv(d) && !d.importing
    ensures Inv(r)
    ensures r.paths == d.paths && r.interactive == d.interactive
    ensures |d.paths| == 0 ==> SameState(r, d) && r.effects == d.effects + [EmptyQueueNotice]
    ensures |d.paths| > 0 && !confirm ==>
      SameState(r, d) && r.effects == d.effects + [ConfirmPrompt(|d.paths|, d.interactive)]
    ensures |d.paths| > 0 && confirm ==>
      && r.importing
      && ((r.index == 1 && r.stepPending) || (r.index == 0 && r.waitingForDialog))
      && r == ProcessNext(Begin(d), first)
  {
    if |d.paths| == 0 then d.(effects := d.effects + [EmptyQueueNotice])
    else if !confirm then d.(effects := d.effects + [ConfirmPrompt(|d.paths|, d.interactive)])
    else ProcessNext(Begin(d), first)
  }

  /** The delayCall firing: the queued ImportNextPackage runs. */
  function DelayedStep(d: Driver, p: ItemProbe): (r: Driver)
    requires Inv(d) && d.stepPending
    ensures Inv(r)
    ensures r.paths == d.paths && r.interactive == d.interactive
    ensures d.index >= |d.paths| ==>
      !r.importing && r.index == d.index && r.success == d.success && r.fail == d.fail
    ensures d.index < |d.paths| ==>
      r.importing && (Advanced(d, r) || (r.waitingForDialog && r.index == d.index && r.success == d.success))
  {
    ProcessNext(d.(stepPending := false), p)
  }

  /**
   * One update tick of WaitForImportComplete: the item completes, as a success,
   * exactly when the previous tick saw the dialog open and this one sees it
   * closed; any other tick only records whether the dialog is open.
   */
  function Tick(d: Driver, dialogOpen: bool): (r: Driver)
    requires Inv(d) && d.waitingForDialog
    ensures Inv(r)
    ensures r.paths == d.paths && r.effects == d.effects && r.importing
    ensures r.index == d.index + 1 <==> d.lastDialogOpen && !dialogOpen
    ensures d.lastDialogOpen && !dialogOpen ==>
      && r.success == d.success + 1 && r.fail == d.fail
      && r.stepPending && !r.waitingForDialog && !r.lastDialogOpen
    ensures !(d.lastDialogOpen && !dialogOpen) ==> r == d.(lastDialogOpen := dialogOpen)
  {
    if d.lastDialogOpen && !dialogOpen then
      d.(waitingForDialog := false, success := d.success + 1, index := d.index + 1,
         lastDialogOpen := false, stepPending := true)
    else
      d.(lastDialogOpen := dialogOpen)
  }
}
