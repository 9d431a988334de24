/** The stored offer (db/models.py): the parent row joined with its auction-lot or
    private-listing child, grouped by the columns that change together. */
module Offers {
  import opened Base

  datatype Kind = AuctionLot | PrivateListing

  datatype Facts = Facts(
    make: Option<string>, model: Option<string>, trim: Option<string>, year: Option<int>,
    mileageKm: Option<int>, vin: Option<string>, transmission: Option<string>, drivetrain: Option<string>,
    engine: Option<string>, titleStatus: Option<string>)

  datatype Content = Content(title: Option<string>, description: Option<string>, photos: seq<string>)

  /** Flags are kept by name; the evidence text is never scored. */
  datatype Assessment = Assessment(
    condition: Option<string>, sparse: bool,
    redFlags: seq<string>, greenFlags: seq<string>, showstoppers: seq<string>)

  datatype Statuses = Statuses(enrichment: Status, valuation: Status, vision: Status, notification: Status)

  /** The per-stage retry counters. */
  datatype Attempts = Attempts(enrichment: nat, valuation: nat, notification: nat)

  /** Auction child: bid state and lot life cycle. */
  datatype Bidding = Bidding(
    bid: Option<real>, lotStatus: LotStatus, closedAt: Option<int>, finalBid: Option<real>,
    lotEnd: Option<int>, rowId: Option<int>)

  /** Listing child: asking-price economics and listing life cycle. */
  datatype Asking = Asking(
    price: Option<real>, previous: Option<real>, original: Option<real>, drops: nat,
    status: ListingStatus, province: Option<string>, sellerType: Option<string>, disappearedAt: Option<int>)

  datatype UserAction = Interested | Maybe | NotInterested

  /** What the user said about the offer on the dashboard. */
  datatype UserMark = UserMark(action: Option<UserAction>, purchased: bool)

  /** What the last valuation wrote. */
  datatype Appraisal = Appraisal(
    compCount: nat, low: Option<real>, mid: Option<real>, high: Option<real>, expected: Option<real>,
    confidence: Bucket, allIn: Option<real>, dealScore: Option<real>, suspicious: bool)

  datatype Offer = Offer(
    kind: Kind, facts: Facts, content: Content, parserVersion: Option<string>,
    assessment: Assessment, statuses: Statuses, bidding: Bidding, asking: Asking,
    appraisal: Option<Appraisal>, mark: UserMark, attempts: Attempts)

  /** VehicleOffer.offer_price: the channel-specific headline price. */
  function Price(o: Offer): Option<real> {
    if o.kind == AuctionLot then o.bidding.bid else o.asking.price
  }

  predicate Live(o: Offer) {
    if o.kind == AuctionLot then Biddable(o.bidding.lotStatus) else o.asking.status == Active
  }

  /** An offer row as the workers see it: loaded, assigned to, committed. */
  class OfferRow {
    const kind: Kind
    var facts: Facts
    var content: Content
    var parserVersion: Option<string>
    var assessment: Assessment
    var statuses: Statuses
    var bidding: Bidding
    var asking: Asking
    var appraisal: Option<Appraisal>
    var mark: UserMark
    var attempts: Attempts

    constructor (o: Offer)
      ensures Value() == o
    {
      kind := o.kind;
      facts, content, parserVersion, assessment := o.facts, o.content, o.parserVersion, o.assessment;
      statuses, bidding, asking, appraisal := o.statuses, o.bidding, o.asking, o.appraisal;
      mark, attempts := o.mark, o.attempts;
    }

    /** Rollback: every column takes the value it had. */
    method Restore(o: Offer)
      requires o.kind == kind
      modifies this
      ensures Value() == o
    {
      facts, content, parserVersion, assessment := o.facts, o.content, o.parserVersion, o.assessment;
      statuses, bidding, asking, appraisal := o.statuses, o.bidding, o.asking, o.appraisal;
      mark, attempts := o.mark, o.attempts;
    }

    function Value(): Offer
      reads this
    {
      Offer(kind, facts, content, parserVersion, assessment, statuses, bidding, asking, appraisal, mark, attempts)
    }
  }
}
