/**
 * The calls the two importers make into the Unity editor that have a visible
 * effect: package imports, modal notices and the asset-database refresh.
 * Both importers record them, in order, as a sequence of `Effect`s.
 * Log lines and the text of the notices are not modelled.
 */
module HostEffects {

  datatype Effect =
    /** AssetDatabase.ImportPackage(path, interactive) */
    | ImportPackage(path: string, interactive: bool)
    /** the batch window's "No Packages" notice (empty queue) */
    | EmptyQueueNotice
    /** the batch window's "Confirm Import" question, naming the queue length */
    | ConfirmPrompt(count: nat, interactive: bool)
    /** the batch window's "Import Complete" notice with the final counts */
    | SummaryNotice(success: nat, fail: nat)
    /** the quick importer's "No Packages Found" notice */
    | NoPackagesFoundNotice
    /** the quick importer's "Confirm Import" question, naming the number of files found */
    | FoundPrompt(count: nat)
    /** the quick importer's "Complete" notice */
    | DoneNotice(count: nat)
    /** AssetDatabase.Refresh() */
    | RefreshAssets
}
