/**
 * QuickPackageImporter.QuickImportFromFolder, the menu command that imports
 * every package below a folder in one synchronous loop. The folder picker's
 * answer, the recursive scan's result, the user's confirmation and which
 * import calls throw are inputs; the result is the host calls made, in order,
 * and whether an exception escaped the command.
 */
module QuickImporter {
  import opened HostEffects

  /** Whether the import call for the i-th scanned file throws. */
  predicate Throws(threw: seq<bool>, i: int) {
    0 <= i < |threw| && threw[i]
  }

  /** Unattended import calls for the given files, in order. */
  function Imports(files: seq<string>): seq<Effect> {
    seq(|files|, i requires 0 <= i < |files| => ImportPackage(files[i], false))
  }

  /**
   * A cancelled picker, an empty scan or a refused confirmation make no import
   * call. Otherwise every found file is imported once, unattended, in scan
   * order; the first import that throws ends the command there, without the
   * completion notice or the refresh.
   */
  method QuickImportFromFolder(folder: string, files: seq<string>, confirm: bool, threw: seq<bool>)
    returns (effects: seq<Effect>, escaped: bool)
    ensures folder == "" ==> effects == [] && !escaped
    ensures folder != "" && files == [] ==> effects == [NoPackagesFoundNotice] && !escaped
    ensures folder != "" && files != [] && !confirm ==> effects == [FoundPrompt(|files|)] && !escaped
    ensures escaped ==> folder != "" && files != [] && confirm
    ensures folder != "" && files != [] && confirm && !escaped ==>
      && (forall i :: 0 <= i < |files| ==> !Throws(threw, i))
      && effects == [FoundPrompt(|files|)] + Imports(files) + [DoneNotice(|files|), RefreshAssets]
    ensures escaped ==>
      && 2 <= |effects| <= |files| + 1
      && Throws(threw, |effects| - 2)
      && (forall i :: 0 <= i < |effects| - 2 ==> !Throws(threw, i))
      && effects == [FoundPrompt(|files|)] + Imports(files[..|effects| - 1])
  {
    if folder == "" {
      return [], false;
    }
    if |files| == 0 {
      return [NoPackagesFoundNotice], false;
    }
    effects, escaped := [FoundPrompt(|files|)], false;
    if !confirm {
      return;
    }
    var i := 0;
    while i < |files|
      invariant 0 <= i <= |files|
      invariant effects == [FoundPrompt(|files|)] + Imports(files[..i])
      invariant forall k :: 0 <= k < i ==> !Throws(threw, k)
    {
      assert Imports(files[..i + 1]) == Imports(files[..i]) + [ImportPackage(files[i], false)];
      effects := effects + [ImportPackage(files[i], false)];
      if Throws(threw, i) {
        escaped := true;
        return;
      }
      i := i + 1;
    }
    assert files[..i] == files;
    effects := effects + [DoneNotice(|files|), RefreshAssets];
  }
}
