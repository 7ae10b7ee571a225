/**
 * The progress popup of src/components/QueuePopup.tsx: from the four queue
 * counts it derives a total, a percentage, whether the campaign is complete
 * and whether anything failed, and from those the title, the status message
 * and the Close button. The percentage is a real number; its rounding for
 * display is not modelled.
 */
module QueuePopup {

  datatype QueueCounts = QueueCounts(waiting: nat, active: nat, completed: nat, failed: nat)

  function Total(c: QueueCounts): nat {
    c.waiting + c.active + c.completed + c.failed
  }

  /** Jobs that are finished either way. */
  function Processed(c: QueueCounts): nat {
    c.completed + c.failed
  }

  /** `total > 0 ? (completed + failed) / total * 100 : 0`. */
  function Progress(c: QueueCounts): (p: real)
    ensures 0.0 <= p <= 100.0
  {
    if Total(c) > 0 then Processed(c) as real / Total(c) as real * 100.0 else 0.0
  }

  predicate IsComplete(c: QueueCounts) {
    c.waiting == 0 && c.active == 0
  }

  predicate HasErrors(c: QueueCounts) {
    c.failed > 0
  }

  /**
   * The bar is full exactly when nothing is waiting or active and there is
   * at least one job; it is empty exactly when nothing has finished. So
   * all-zero counts read as complete with 0 progress.
   */
  lemma ProgressExtremes(c: QueueCounts)
    ensures Progress(c) == 100.0 <==> IsComplete(c) && Total(c) > 0
    ensures Progress(c) == 0.0 <==> Processed(c) == 0
    ensures Total(c) == 0 ==> IsComplete(c) && Progress(c) == 0.0
  {
    if Total(c) > 0 {
      var t := Total(c) as real;
      var p := Processed(c) as real;
      assert Progress(c) == p / t * 100.0;
      assert p / t == 1.0 <==> p == t;
    }
  }

  /** Finishing one more waiting job never lowers the bar. */
  lemma ProgressMonotone(c: QueueCounts, ok: bool)
    requires c.waiting > 0
    ensures var d := if ok then c.(waiting := c.waiting - 1, completed := c.completed + 1)
                     else c.(waiting := c.waiting - 1, failed := c.failed + 1);
      Total(d) == Total(c) && Progress(c) < Progress(d)
  {
    var d := if ok then c.(waiting := c.waiting - 1, completed := c.completed + 1)
             else c.(waiting := c.waiting - 1, failed := c.failed + 1);
    var t := Total(c) as real;
    assert Processed(d) as real == Processed(c) as real + 1.0;
    assert Processed(c) as real / t < Processed(d) as real / t;
  }

  /** The status line under the counts. */
  datatype Message =
    | CompletedWithFailures(failed: nat, completed: nat)   // "Campaign completed with N failed emails. M emails sent successfully."
    | CompletedCleanly(completed: nat)                     // "Campaign completed successfully! All M emails have been sent."
    | InProgress(processed: nat, total: nat)               // "Sending emails... P of T processed."

  /** What the popup shows. */
  datatype View = View(title: string, progress: real, errorGradient: bool, message: Message, closeButton: bool)

  function Render(c: QueueCounts): (v: View)
    ensures v.closeButton <==> IsComplete(c)
    ensures v.errorGradient <==> HasErrors(c)
    ensures v.message.InProgress? <==> !IsComplete(c)
    ensures v.message.InProgress? ==> v.message.processed <= v.message.total
    ensures v.message.CompletedWithFailures? <==> IsComplete(c) && HasErrors(c)
  {
    View(
      if IsComplete(c) then "Campaign Sent!" else "Sending Campaign",
      Progress(c),
      HasErrors(c),
      if IsComplete(c) then
        (if HasErrors(c) then CompletedWithFailures(c.failed, c.completed) else CompletedCleanly(c.completed))
      else InProgress(Processed(c), Total(c)),
      IsComplete(c))
  }
}
