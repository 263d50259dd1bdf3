/**
 * `check_product_quantity` of products/signals.py: after any save of a
 * product, decide whether to enqueue the low-stock job. Only the decision is
 * modelled; the job itself is `ProductTasks.CheckLowQuantityProducts`.
 */
module ProductSignals {
  import opened Products
  import opened ProductTasks

  /**
   * Whether saving `instance` enqueues the low-stock job. `created` is passed
   * by `post_save` but not consulted: updates trigger as creations do.
   */
  function CheckProductQuantity(instance: Product, created: bool): (enqueue: bool)
    ensures enqueue <==> LowStock([instance]) == [instance]
    ensures enqueue <==> instance.quantity < LowStockThreshold
  {
    instance.quantity < 10
  }

  /** The decision is the same on creation and on update; 9 triggers, 10 does not. */
  lemma TriggerIgnoresCreated(instance: Product)
    ensures CheckProductQuantity(instance, true) == CheckProductQuantity(instance, false)
    ensures CheckProductQuantity(instance.(quantity := 9), true)
    ensures !CheckProductQuantity(instance.(quantity := 10), true)
  {
  }

  /**
   * When a saved row of the table triggers, the job it enqueues finds that row
   * and so mails a report: a trigger is never wasted on an empty report.
   */
  lemma TriggerFindsReportedRow(rows: seq<Product>, i: nat, created: bool)
    requires i < |rows| && CheckProductQuantity(rows[i], created)
    ensures rows[i] in LowStock(Listing(rows))
    ensures LowStock(Listing(rows)) != []
  {
    LowStockReport(rows);
  }
}
