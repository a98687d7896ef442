/**
 * Whole runs of the import-queue driver: the host firing the queued delayCall
 * once per answer in `probes`, or ticking EditorApplication.update once per
 * dialog observation in `opens`, and what such runs end in.
 */
module DriverRuns {
  import opened HostEffects
  import opened ImportDriver

  /** Fire the queued delayCall once per probe, as long as one is queued. */
  function Drive(d: Driver, probes: seq<ItemProbe>): (r: Driver)
    requires Inv(d)
    ensures Inv(r)
    ensures r.paths == d.paths && r.interactive == d.interactive
    decreases |probes|
  {
    if probes == [] || !d.stepPending then d else Drive(DelayedStep(d, probes[0]), probes[1..])
  }

  /** Tick the dialog poll once per observation, as long as it is subscribed. */
  function Ticks(d: Driver, opens: seq<bool>): (r: Driver)
    requires Inv(d)
    ensures Inv(r)
    ensures r.paths == d.paths && r.effects == d.effects
    decreases |opens|
  {
    if opens == [] || !d.waitingForDialog then d else Ticks(Tick(d, opens[0]), opens[1..])
  }

  /** How many of the probes let an unattended import succeed. */
  function Successes(probes: seq<ItemProbe>): (n: nat)
    ensures n <= |probes|
  {
    if probes == [] then 0
    else (if probes[0].fileExists && !probes[0].importThrows then 1 else 0) + Successes(probes[1..])
  }

  /** The unattended import calls made for `paths`, one per file that exists, in queue order. */
  function UnattendedCalls(paths: seq<string>, probes: seq<ItemProbe>): seq<Effect>
    requires |probes| >= |paths|
  {
    if paths == [] then []
    else (if probes[0].fileExists then [ImportPackage(paths[0], false)] else [])
         + UnattendedCalls(paths[1..], probes[1..])
  }

  /** One delayed step of an unattended run that has an item left. */
  lemma UnattendedStep(d: Driver, p: ItemProbe)
    requires Inv(d) && !d.interactive && d.stepPending && d.index < |d.paths|
    ensures var d1 := DelayedStep(d, p);
      && d1.stepPending && d1.index == d.index + 1 && !d1.interactive && d1.paths == d.paths
      && d1.success == d.success + (if p.fileExists && !p.importThrows then 1 else 0)
      && d1.fail == d.fail + (if p.fileExists && !p.importThrows then 0 else 1)
      && d1.effects == d.effects + (if p.fileExists then [ImportPackage(d.paths[d.index], false)] else [])
  {
  }

  /** The final delayed step of a run: it finishes. */
  lemma FinalStep(d: Driver, probes: seq<ItemProbe>)
    requires Inv(d) && d.stepPending && d.index >= |d.paths| && probes != []
    ensures var r := Drive(d, probes);
      && !r.importing && r.index == d.index && r.success == d.success && r.fail == d.fail
      && r.effects == d.effects + [SummaryNotice(d.success, d.fail), RefreshAssets]
  {
  }

  /**
   * An unattended run with its next step queued, given an answer for every
   * remaining item and one for the final step, ends idle at the end of the
   * queue; it has counted the remaining items as successes exactly where the
   * file existed and the import did not throw, and made one import call per
   * existing file, in order, before the summary.
   */
  lemma {:induction false} UnattendedRun(d: Driver, probes: seq<ItemProbe>)
    requires Inv(d) && !d.interactive && d.stepPending
    requires |probes| > |d.paths| - d.index
    ensures var r := Drive(d, probes);
      var n := |d.paths| - d.index;
      && !r.importing && r.index == |d.paths|
      && r.success == d.success + Successes(probes[..n])
      && r.fail == d.fail + n - Successes(probes[..n])
      && r.effects == d.effects + UnattendedCalls(d.paths[d.index..], probes)
                      + [SummaryNotice(r.success, r.fail), RefreshAssets]
    decreases |d.paths| - d.index
  {
    var n := |d.paths| - d.index;
    if n == 0 {
      FinalStep(d, probes);
      assert probes[..n] == [];
      assert d.paths[d.index..] == [];
    } else {
      var d1 := DelayedStep(d, probes[0]);
      UnattendedStep(d, probes[0]);
      assert Drive(d, probes) == Drive(d1, probes[1..]);
      UnattendedRun(d1, probes[1..]);
      assert probes[..n][0] == probes[0] && probes[..n][1..] == probes[1..][..n - 1];
      var rest := d.paths[d.index..];
      assert rest[0] == d.paths[d.index] && rest[1..] == d1.paths[d1.index..];
      var call := if probes[0].fileExists then [ImportPackage(d.paths[d.index], false)] else [];
      assert UnattendedCalls(rest, probes) == call + UnattendedCalls(rest[1..], probes[1..]);
    }
  }

  /** Confirming an unattended run over a non-empty queue processes the first item and queues the next step. */
  lemma UnattendedFirstStep(d: Driver, p: ItemProbe)
    requires Inv(d) && !d.importing && !d.interactive && |d.paths| > 0
    ensures var s := Start(d, true, p);
      && s.stepPending && s.index == 1 && !s.interactive && s.paths == d.paths
      && s.success == (if p.fileExists && !p.importThrows then 1 else 0)
      && s.fail == (if p.fileExists && !p.importThrows then 0 else 1)
      && s.effects == d.effects + [ConfirmPrompt(|d.paths|, false)]
                      + (if p.fileExists then [ImportPackage(d.paths[0], false)] else [])
  {
  }

  /**
   * A confirmed unattended batch over a non-empty queue, with an answer for
   * every item and one for the final step: it ends idle with index == queue
   * length, successes counted exactly for existing files whose import did not
   * throw, failures for the rest, and the host calls in order.
   */
  lemma {:induction false} UnattendedBatch(d: Driver, probes: seq<ItemProbe>)
    requires Inv(d) && !d.importing && !d.interactive && |d.paths| > 0
    requires |probes| > |d.paths|
    ensures var r := Drive(Start(d, true, probes[0]), probes[1..]);
      && !r.importing && r.index == |d.paths|
      && r.success == Successes(probes[..|d.paths|])
      && r.fail == |d.paths| - Successes(probes[..|d.paths|])
      && r.effects == d.effects + [ConfirmPrompt(|d.paths|, false)] + UnattendedCalls(d.paths, probes)
                      + [SummaryNotice(r.success, r.fail), RefreshAssets]
  {
    var n := |d.paths|;
    var s := Start(d, true, probes[0]);
    UnattendedFirstStep(d, probes[0]);
    UnattendedRun(s, probes[1..]);
    assert probes[..n][0] == probes[0] && probes[..n][1..] == probes[1..][..n - 1];
    assert s.paths[s.index..] == d.paths[1..];
    var call := if probes[0].fileExists then [ImportPackage(d.paths[0], false)] else [];
    assert UnattendedCalls(d.paths, probes) == call + UnattendedCalls(d.paths[1..], probes[1..]);
  }

  /** The example run: [A (exists), B (missing), C (exists)] ends idle with 2 successes and 1 failure. */
  lemma {:induction false} ThreeItemExample(d: Driver, a: string, b: string, c: string)
    requires Inv(d) && !d.importing && !d.interactive && d.paths == [a, b, c]
    ensures var probes := [ItemProbe(true, false), ItemProbe(false, false), ItemProbe(true, false), ItemProbe(false, false)];
      var r := Drive(Start(d, true, probes[0]), probes[1..]);
      && !r.importing && r.index == 3 && r.success == 2 && r.fail == 1
      && r.effects == d.effects + [ConfirmPrompt(3, false), ImportPackage(a, false),
                                   ImportPackage(c, false), SummaryNotice(2, 1), RefreshAssets]
  {
    var probes := [ItemProbe(true, false), ItemProbe(false, false), ItemProbe(true, false), ItemProbe(false, false)];
    UnattendedBatch(d, probes);
    assert probes[..3] == [ItemProbe(true, false), ItemProbe(false, false), ItemProbe(true, false)];
    var q := probes[..3];
    assert q[1..][1..][1..] == [];
    assert Successes(q[1..][1..]) == 1;
    assert Successes(q[1..]) == 1;
    assert Successes(q) == 2;
    assert UnattendedCalls([c], probes[2..]) == [ImportPackage(c, false)];
    assert UnattendedCalls([b, c], probes[1..]) == [ImportPackage(c, false)];
    assert UnattendedCalls(d.paths, probes) == [ImportPackage(a, false), ImportPackage(c, false)];
  }

  /** Whether the observation opens[i] is a falling edge, the tick before it (or the latch, for the first) having seen the dialog open. */
  predicate FallsAt(latch: bool, opens: seq<bool>, i: int)
    requires 0 <= i < |opens|
  {
    (if i == 0 then latch else opens[i - 1]) && !opens[i]
  }

  /**
   * While no falling edge is observed the poll stays subscribed, the item does
   * not advance, and the latch holds the last observation.
   */
  lemma {:induction false} NoFallingEdgeKeepsWaiting(d: Driver, opens: seq<bool>)
    requires Inv(d) && d.waitingForDialog
    requires forall i :: 0 <= i < |opens| ==> !FallsAt(d.lastDialogOpen, opens, i)
    ensures Ticks(d, opens) == d.(lastDialogOpen := if opens == [] then d.lastDialogOpen else opens[|opens| - 1])
    decreases |opens|
  {
    if opens != [] {
      assert !FallsAt(d.lastDialogOpen, opens, 0);
      var d1 := Tick(d, opens[0]);
      forall i | 0 <= i < |opens[1..]| ensures !FallsAt(d1.lastDialogOpen, opens[1..], i) {
        assert !FallsAt(d.lastDialogOpen, opens, i + 1);
      }
      NoFallingEdgeKeepsWaiting(d1, opens[1..]);
    }
  }

  /**
   * The stall of the presence poll: if the dialog is never seen open, no
   * number of ticks ever completes the item.
   */
  lemma NeverOpenStalls(d: Driver, opens: seq<bool>)
    requires Inv(d) && d.waitingForDialog && !d.lastDialogOpen
    requires forall i :: 0 <= i < |opens| ==> !opens[i]
    ensures Ticks(d, opens) == d
  {
    NoFallingEdgeKeepsWaiting(d, opens);
  }

  /**
   * The poll completes the item exactly at the first falling edge: one success,
   * index one further, unsubscribed with the latch cleared and the next step
   * queued; later observations are not consulted.
   */
  lemma {:induction false} AdvanceAtFirstFallingEdge(d: Driver, opens: seq<bool>, j: nat)
    requires Inv(d) && d.waitingForDialog
    requires j < |opens| && FallsAt(d.lastDialogOpen, opens, j)
    requires forall i :: 0 <= i < j ==> !FallsAt(d.lastDialogOpen, opens, i)
    ensures Ticks(d, opens) == d.(index := d.index + 1, success := d.success + 1, lastDialogOpen := false,
                                  waitingForDialog := false, stepPending := true)
    decreases j
  {
    var d1 := Tick(d, opens[0]);
    if j > 0 {
      assert !FallsAt(d.lastDialogOpen, opens, 0);
      assert FallsAt(d1.lastDialogOpen, opens[1..], j - 1) by {
        assert FallsAt(d.lastDialogOpen, opens, j);
      }
      forall i | 0 <= i < j - 1 ensures !FallsAt(d1.lastDialogOpen, opens[1..], i) {
        assert !FallsAt(d.lastDialogOpen, opens, i + 1);
      }
      AdvanceAtFirstFallingEdge(d1, opens[1..], j - 1);
    } else {
      assert FallsAt(d.lastDialogOpen, opens, 0);
    }
  }

  /**
   * The interactive example with one queued file: a "closed" report with no
   * "open" before it leaves the item pending; "open" then "closed" counts it
   * as a success, and the next step finishes the run.
   */
  lemma InteractiveSingleItemExample(d: Driver, path: string)
    requires Inv(d) && !d.importing && d.interactive && d.paths == [path]
    ensures var s := Start(d, true, ItemProbe(true, false));
      && s.waitingForDialog && s.index == 0
      && s.effects == d.effects + [ConfirmPrompt(1, true), ImportPackage(path, true)]
      && Ticks(s, [false]) == s
      && var t := Ticks(s, [true, false]);
         && t.success == 1 && t.fail == 0 && t.index == 1 && t.stepPending
         && var f := DelayedStep(t, ItemProbe(false, false));
            !f.importing && f.success == 1 && f.fail == 0
            && f.effects == s.effects + [SummaryNotice(1, 0), RefreshAssets]
  {
    var s := Start(d, true, ItemProbe(true, false));
    assert Begin(d).effects == d.effects + [ConfirmPrompt(1, true)];
    NeverOpenStalls(s, [false]);
    assert FallsAt(s.lastDialogOpen, [true, false], 1) && !FallsAt(s.lastDialogOpen, [true, false], 0);
    AdvanceAtFirstFallingEdge(s, [true, false], 1);
  }
}
