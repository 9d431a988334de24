/** What the three workers share: the claimable row of one stage, the outcomes of processing it, and
    the retry rule. */
module Stages {
  import opened Base
  import opened Offers

  datatype Outcome = IsDone | IsSkipped | IsFailed | IsTransient | IsMissing

  /** A row's status and retry counter in one stage; Gone once it has been deleted. */
  datatype StageRow = Gone | Row(status: Status, attempts: nat)

  /** A counted failure is retried until the counter reaches the maximum. */
  function Retried(attempts: nat, permanent: bool, max: nat): StageRow {
    Row(if permanent || attempts + 1 >= max then Failed else Pending, attempts + 1)
  }

  function EnrichmentRow(o: Offer): StageRow { Row(o.statuses.enrichment, o.attempts.enrichment) }

  function ValuationRow(o: Offer): StageRow { Row(o.statuses.valuation, o.attempts.valuation) }

  function NotificationRow(o: Offer): StageRow { Row(o.statuses.notification, o.attempts.notification) }

  function WithEnrichment(o: Offer, r: StageRow): Offer
    requires r.Row?
  {
    o.(statuses := o.statuses.(enrichment := r.status), attempts := o.attempts.(enrichment := r.attempts))
  }

  function WithValuation(o: Offer, r: StageRow): Offer
    requires r.Row?
  {
    o.(statuses := o.statuses.(valuation := r.status), attempts := o.attempts.(valuation := r.attempts))
  }

  function WithNotification(o: Offer, r: StageRow): Offer
    requires r.Row?
  {
    o.(statuses := o.statuses.(notification := r.status), attempts := o.attempts.(notification := r.attempts))
  }

  /** A permanent failure is final at once; another one when it uses up the last attempt. */
  lemma RetryIsExact(attempts: nat, permanent: bool, max: nat)
    ensures Retried(attempts, permanent, max) == Row(Failed, attempts + 1) <==> permanent || max <= attempts + 1
    ensures Retried(attempts, permanent, max) == Row(Pending, attempts + 1) <==> !permanent && attempts + 1 < max
  {
  }
}
