# Batch Unity package importer: the import-queue driver

This project models the editor utility that queues `.unitypackage` files and
feeds them one at a time to Unity's package import, and proves properties of
that model in Dafny.

- `BatchPackageImporter` is the editor window. It keeps a de-duplicated list
  of package paths, which the user edits with Add Package, Add Folder, the
  per-row X button and Clear List. "Import All" starts a run. Each item is
  imported either unattended or interactively. In interactive mode the
  window polls once per editor tick until the import dialog closes.
- `QuickPackageImporter.QuickImportFromFolder` is a menu command. It imports
  every package found below a folder in one synchronous loop.

The model is in five modules:

- `HostEffects` is the log of the host calls that have a visible effect:
  package imports, modal notices and the asset refresh.
- `ImportDriver` holds the window's state as a value (`Driver`) and one
  transition function per handler. It also holds the invariant `Inv` that
  every transition keeps.
- `BatchImporterWindow.BatchPackageImporter` is the window as a class with
  the source's fields. Each method updates the fields in place. Each method
  is proved to move the object exactly as the matching `ImportDriver`
  transition moves the state value.
- `DriverRuns` covers whole runs. It proves the counts an unattended run
  ends with, the falling-edge behaviour of the dialog poll, and its stall.
- `QuickImporter` is the quick menu command.

The editor's callbacks are explicit state:

- `stepPending` means an `ImportNextPackage` is queued on `delayCall`.
- `waitingForDialog` means `WaitForImportComplete` is subscribed to
  `update`.

The host fires either callback through a method whose precondition is that
flag. Everything the host answers is a parameter of the step that asks: the
picked path or folder, the scanned file list, `File.Exists`, whether
`ImportPackage` throws, whether a `PackageImport` window is open on this
tick, and the user's confirmation.

The invariant `Inv` states:

- the queue has no duplicates;
- `success + fail == index`;
- during a run `index <= |paths|`;
- a run is active exactly when one of the two callbacks is registered, and
  never both;
- while the dialog is polled, the item under the index exists and the mode is
  interactive;
- the dialog latch is set only while the dialog is polled.

The list-editing buttons and "Import All" are disabled in the window while a
run is active (`GUI.enabled`). The handlers themselves do not check this. The
model therefore states it as the precondition `!importing` rather than as a
no-op branch.

## Model

| member | source | states |
|---|---|---|
| ImportDriver.AddPackage | @D0399B1UE_unity_package_importer_V2.cs:77-84 | A picked path is added only if it is non-empty and not yet queued. The result keeps the invariant (so no duplicate), keeps the old queue as a prefix with at most one new entry, and changes nothing else. |
| ImportDriver.AppendNew | @D0399B1UE_unity_package_importer_V2.cs:92-98 | Appending the scanned files that are not yet queued keeps a duplicate-free queue duplicate-free. The old queue stays a prefix, every new entry is a scanned file that was not queued, and the entries are exactly the old ones plus the scanned ones. The new entries come in scan order: each one is first scanned after every new entry before it. |
| ImportDriver.AddFolder | @D0399B1UE_unity_package_importer_V2.cs:86-100 | A cancelled folder picker changes nothing. Otherwise the queue becomes the old entries plus every scanned file: no duplicates, old order kept, new entries are scanned files that were not queued, appended in the order of their first occurrence in the scan. |
| ImportDriver.RemovalKeepsDistinct | @D0399B1UE_unity_package_importer_V2.cs:66 | Removing one entry from a duplicate-free list leaves it duplicate-free and removes exactly that path. |
| ImportDriver.RemoveAt | @D0399B1UE_unity_package_importer_V2.cs:59-68 | The X button of row i removes exactly that entry. The entries before it keep their positions, the ones after it shift down by one, the invariant holds, and nothing else changes. |
| ImportDriver.Clear | @D0399B1UE_unity_package_importer_V2.cs:104-107 | The queue becomes empty, the invariant holds, and nothing else changes. |
| ImportDriver.ClearTwice | @D0399B1UE_unity_package_importer_V2.cs:104-107 | Clearing twice is the same as clearing once. |
| ImportDriver.SetInteractive | @D0399B1UE_unity_package_importer_V2.cs:33 | The toggle sets only the interactive flag and keeps the invariant. |
| ImportDriver.Begin | @D0399B1UE_unity_package_importer_V2.cs:139-143 | A confirmed start makes a run active with index, success and failure counts all zero, and no callback registered. |
| ImportDriver.Start | @D0399B1UE_unity_package_importer_V2.cs:121-147 | An empty queue only shows the empty-queue notice: no state changes. A declined confirmation changes no state either. A confirmed start processes the first item, so the run is active with either index 1 and the next step queued or index 0 and the dialog polled. |
| ImportDriver.ProcessNext | @D0399B1UE_unity_package_importer_V2.cs:149-203 | Past the end of the queue the run finishes and keeps its counters. A missing file is a failure with no import call. A throwing import is a failure. An unattended import that returns is a success. In those three cases the index grows by one and the next step is queued. An interactive import that returns leaves the item pending while the dialog is polled. |
| ImportDriver.Finish | @D0399B1UE_unity_package_importer_V2.cs:230-241 | The run becomes inactive, index and counters are not reset, and the summary with the final counts is shown before the asset refresh. |
| ImportDriver.DelayedStep | @D0399B1UE_unity_package_importer_V2.cs:183 | Firing the queued step finishes the run at the end of the queue. Otherwise it advances exactly one item, or starts polling the dialog with the counters unchanged. |
| ImportDriver.Tick | @D0399B1UE_unity_package_importer_V2.cs:206-228 | The index advances exactly when the previous tick saw the dialog open and this one sees it closed. Then one success is counted, the poll unsubscribes, the latch clears and the next step is queued. Any other tick only records the dialog state. |
| DriverRuns.Drive | @D0399B1UE_unity_package_importer_V2.cs:183-199 | Firing the queued steps one after another keeps the invariant, the queue and the mode. |
| DriverRuns.Ticks | @D0399B1UE_unity_package_importer_V2.cs:173 | Polling tick after tick keeps the invariant, the queue and the host-call log. |
| DriverRuns.UnattendedStep | @D0399B1UE_unity_package_importer_V2.cs:163-199 | One unattended step adds one success exactly when the file exists and the import did not throw, otherwise one failure. It makes one import call exactly when the file exists. |
| DriverRuns.FinalStep | @D0399B1UE_unity_package_importer_V2.cs:151-155 | The step at the end of the queue ends the run with the counters kept and the summary shown. |
| DriverRuns.UnattendedRun | @D0399B1UE_unity_package_importer_V2.cs:149-203 | An unattended run from any point reaches the end of the queue and goes idle. Its successes are the items whose file existed and whose import did not throw, the rest are failures, and it makes one import call per existing file, in queue order. |
| DriverRuns.UnattendedFirstStep | @D0399B1UE_unity_package_importer_V2.cs:139-146 | Confirming an unattended run processes the first item and queues the next step. |
| DriverRuns.UnattendedBatch | @D0399B1UE_unity_package_importer_V2.cs:121-203 | A confirmed unattended batch ends idle with index equal to the queue length, successes and failures as above, and host calls in order: confirmation, imports, summary, refresh. |
| DriverRuns.ThreeItemExample | @D0399B1UE_unity_package_importer_V2.cs:163-192 | A queue [A exists, B missing, C exists] ends idle with 2 successes, 1 failure and index 3. It imports only A and C. |
| DriverRuns.NoFallingEdgeKeepsWaiting | @D0399B1UE_unity_package_importer_V2.cs:209-227 | While no falling edge is observed, the poll stays subscribed and the item does not advance. The latch holds the last observation. |
| DriverRuns.NeverOpenStalls | @D0399B1UE_unity_package_importer_V2.cs:209-227 | If the dialog is never seen open, no number of ticks completes the item: the poll stalls. |
| DriverRuns.AdvanceAtFirstFallingEdge | @D0399B1UE_unity_package_importer_V2.cs:211-223 | The item completes at the first falling edge and at no other tick, as a success, with the next step queued. |
| DriverRuns.InteractiveSingleItemExample | @D0399B1UE_unity_package_importer_V2.cs:167-228 | With one interactive item, "closed" with no earlier "open" does not advance. "Open" then "closed" counts one success, and the next step finishes the run. |
| BatchImporterWindow.BatchPackageImporter.constructor | @D0399B1UE_unity_package_importer_V2.cs:8-16 | A new window has an empty queue, is idle with zero counters, has no callbacks, and meets the invariant. |
| BatchImporterWindow.BatchPackageImporter.AddPackage | @D0399B1UE_unity_package_importer_V2.cs:77-84 | Updates the list in place exactly as ImportDriver.AddPackage and keeps the invariant. |
| BatchImporterWindow.BatchPackageImporter.AddFolder | @D0399B1UE_unity_package_importer_V2.cs:86-100 | The loop over the scanned files updates the list exactly as ImportDriver.AddFolder and keeps the invariant. |
| BatchImporterWindow.BatchPackageImporter.RemoveAt | @D0399B1UE_unity_package_importer_V2.cs:64-68 | Updates the list exactly as ImportDriver.RemoveAt. |
| BatchImporterWindow.BatchPackageImporter.ClearList | @D0399B1UE_unity_package_importer_V2.cs:104-107 | Updates the list exactly as ImportDriver.Clear. |
| BatchImporterWindow.BatchPackageImporter.SetInteractive | @D0399B1UE_unity_package_importer_V2.cs:33 | Updates the flag exactly as ImportDriver.SetInteractive. |
| BatchImporterWindow.BatchPackageImporter.StartImportSequence | @D0399B1UE_unity_package_importer_V2.cs:121-147 | Updates the fields exactly as ImportDriver.Start and keeps the invariant. |
| BatchImporterWindow.BatchPackageImporter.ImportNextPackage | @D0399B1UE_unity_package_importer_V2.cs:149-203 | Updates the fields exactly as ImportDriver.ProcessNext, ending in a state that meets the invariant. |
| BatchImporterWindow.BatchPackageImporter.RunDelayedStep | @D0399B1UE_unity_package_importer_V2.cs:183 | Consumes the queued delayCall and runs ImportNextPackage, as ImportDriver.DelayedStep. |
| BatchImporterWindow.BatchPackageImporter.WaitForImportComplete | @D0399B1UE_unity_package_importer_V2.cs:206-228 | One update tick updates the fields exactly as ImportDriver.Tick. |
| BatchImporterWindow.BatchPackageImporter.FinishImport | @D0399B1UE_unity_package_importer_V2.cs:230-241 | Updates the fields exactly as ImportDriver.Finish. |
| QuickImporter.QuickImportFromFolder | @D0399B1UE_unity_package_importer_V2.cs:248-285 | No import call when the picker is cancelled, nothing is found (a notice is shown instead), or the user declines. Otherwise each found file is imported once, unattended, in scan order, followed by the completion notice and a refresh. The first import that throws ends the command right after that call. |

## Left out

- The window layout: labels, help boxes, the scroll view, the row list drawing and `Repaint`. These are UI.
- The progress help box (lines 46-51). It reads `packagePaths[currentImportIndex]`. Between the last item and the queued `FinishImport`, that index equals the list length. The model does not claim that this read is in range.
- File and folder pickers, `Directory.GetFiles` and `File.Exists`. They are host I/O. Their results are parameters, with a cancelled picker as the empty string (`null` is not distinguished from `""`).
- `AssetDatabase.ImportPackage`, `AssetDatabase.Refresh`, `EditorWindow.HasOpenInstances<PackageImport>` and `EditorUtility.DisplayDialog`. They are opaque host calls. Their effects are entries of the host-call log, and their answers are parameters.
- The scheduling mechanics of `EditorApplication.update` and `delayCall`. They are replaced by the two explicit flags. Unity fires those callbacks through the methods that require the flags.
- Log messages and the notice texts, including the Korean UI text. Notices are logged only by kind and counts.
- The progress bar of the quick importer (`DisplayProgressBar` with the floating-point fraction `i / count`, and `ClearProgressBar`). When an import throws, the bar is left on screen; this is not modelled.
- Exceptions from `Directory.GetFiles` or the dialogs. They are not caught by the source and are not modelled.
- Counters are C# `int` and are modelled as unbounded `nat`. Overflow would need more than 2^31 queued items.
- Whether an interactive import was cancelled. The host does not report it, so a closed dialog counts as a success either way, as in the source.
