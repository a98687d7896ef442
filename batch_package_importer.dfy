/**
 * The BatchPackageImporter editor window as an object whose methods update
 * its fields in place. Each method is the handler the window runs (a button
 * press, the delayCall, one update tick) and is proved to move the object
 * exactly as the corresponding transition of ImportDriver moves its state.
 * Buttons disabled with GUI.enabled while a run is active become the
 * precondition `!isImporting`.
 */
module BatchImporterWindow {
  import opened HostEffects
  import opened ImportDriver

  class BatchPackageImporter {
    var packagePaths: seq<string>
    var importInteractive: bool
    var isImporting: bool
    var currentImportIndex: nat
    var successCount: nat
    var failCount: nat
    var lastImportDialogState: bool
    /** ImportNextPackage is queued on EditorApplication.delayCall */
    var nextStepPending: bool
    /** WaitForImportComplete is subscribed to EditorApplication.update */
    var waitingForDialog: bool
    /** the host calls made so far, in order */
    var hostEffects: seq<Effect>

    /** The window's state as a value. */
    function Snapshot(): Driver
      reads this
    {
      Driver(packagePaths, importInteractive, isImporting, currentImportIndex, successCount,
             failCount, lastImportDialogState, nextStepPending, waitingForDialog, hostEffects)
    }

    predicate Valid()
      reads this
    {
      Inv(Snapshot())
    }

    constructor ()
      ensures Valid() && Snapshot() == Initial
    {
      packagePaths := [];
      importInteractive := false;
      isImporting := false;
      currentImportIndex := 0;
      successCount := 0;
      failCount := 0;
      lastImportDialogState := false;
      nextStepPending := false;
      waitingForDialog := false;
      hostEffects := [];
    }

    /** "Add Package" with the path the file picker returned ("" when cancelled). */
    method AddPackage(path: string)
      requires Valid() && !isImporting
      modifies this
      ensures Valid() && Snapshot() == ImportDriver.AddPackage(old(Snapshot()), path)
    {
      if path != "" && path !in packagePaths {
        packagePaths := packagePaths + [path];
      }
    }

    /** "Add Folder" with the folder the picker returned and the files the recursive scan found. */
    method AddFolder(folder: string, files: seq<string>)
      requires Valid() && !isImporting
      modifies this
      ensures Valid() && Snapshot() == ImportDriver.AddFolder(old(Snapshot()), folder, files)
    {
      if folder != "" {
        for i := 0 to |files|
          modifies this`packagePaths
          invariant AppendNew(packagePaths, files[i..]) == AppendNew(old(packagePaths), files)
        {
          assert files[i..][0] == files[i] && files[i..][1..] == files[i + 1..];
          if files[i] !in packagePaths {
            packagePaths := packagePaths + [files[i]];
          }
        }
        assert files[|files|..] == [];
      }
    }

    /** The "X" button of row i. */
    method RemoveAt(i: nat)
      requires Valid() && !isImporting && i < |packagePaths|
      modifies this
      ensures Valid() && Snapshot() == ImportDriver.RemoveAt(old(Snapshot()), i)
    {
      packagePaths := packagePaths[..i] + packagePaths[i + 1..];
    }

    /** "Clear List". */
    method ClearList()
      requires Valid() && !isImporting
      modifies this
      ensures Valid() && Snapshot() == ImportDriver.Clear(old(Snapshot()))
    {
      packagePaths := [];
    }

    /** The "Interactive Import" toggle. */
    method SetInteractive(on: bool)
      requires Valid() && !isImporting
      modifies this
      ensures Valid() && Snapshot() == ImportDriver.SetInteractive(old(Snapshot()), on)
    {
      importInteractive := on;
    }

    /** "Import All", with the user's answer to the confirmation and the host's answers for the first item. */
    method StartImportSequence(confirm: bool, first: ItemProbe)
      requires Valid() && !isImporting
      modifies this
      ensures Valid() && Snapshot() == Start(old(Snapshot()), confirm, first)
    {
      if |packagePaths| == 0 {
        hostEffects := hostEffects + [EmptyQueueNotice];
        return;
      }
      hostEffects := hostEffects + [ConfirmPrompt(|packagePaths|, importInteractive)];
      if !confirm {
        return;
      }
      isImporting := true;
      currentImportIndex := 0;
      successCount := 0;
      failCount := 0;
      ImportNextPackage(first);
    }

    method ImportNextPackage(p: ItemProbe)
      requires Ready(Snapshot())
      modifies this
      ensures Valid() && Snapshot() == ProcessNext(old(Snapshot()), p)
    {
      if currentImportIndex >= |packagePaths| {
        FinishImport();
        return;
      }
      var path := packagePaths[currentImportIndex];
      if p.fileExists {
        hostEffects := hostEffects + [ImportPackage(path, importInteractive)];
        if p.importThrows {
          failCount := failCount + 1;
          currentImportIndex := currentImportIndex + 1;
          nextStepPending := true;
        } else if importInteractive {
          waitingForDialog := true;
        } else {
          successCount := successCount + 1;
          currentImportIndex := currentImportIndex + 1;
          nextStepPending := true;
        }
      } else {
        failCount := failCount + 1;
        currentImportIndex := currentImportIndex + 1;
        nextStepPending := true;
      }
    }

    /** The host runs the ImportNextPackage queued on delayCall. */
    method RunDelayedStep(p: ItemProbe)
      requires Valid() && nextStepPending
      modifies this
      ensures Valid() && Snapshot() == DelayedStep(old(Snapshot()), p)
    {
      nextStepPending := false;
      ImportNextPackage(p);
    }

    /** One EditorApplication.update tick while subscribed; dialogOpen is HasOpenInstances<PackageImport>(). */
    method WaitForImportComplete(dialogOpen: bool)
      requires Valid() && waitingForDialog
      modifies this
      ensures Valid() && Snapshot() == Tick(old(Snapshot()), dialogOpen)
    {
      if lastImportDialogState && !dialogOpen {
        waitingForDialog := false;
        successCount := successCount + 1;
        currentImportIndex := currentImportIndex + 1;
        lastImportDialogState := false;
        nextStepPending := true;
      }
      lastImportDialogState := dialogOpen;
    }

    method FinishImport()
      requires Ready(Snapshot()) && currentImportIndex >= |packagePaths|
      modifies this
      ensures Valid() && Snapshot() == Finish(old(Snapshot()))
    {
      isImporting := false;
      hostEffects := hostEffects + [SummaryNotice(successCount, failCount), RefreshAssets];
    }
  }
}
