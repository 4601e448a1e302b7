/** The negotiation phases of a property trade and the offer clamp. */
module Trading {

  /** `trading_phase`: `None`, then 'select_property', 'collect_offers', 'choose_buyer'. */
  datatype Phase = NoPhase | SelectProperty | CollectOffers | ChooseBuyer

  /** The smallest offer, and the amount a buyer's first offer starts from. */
  const MinOffer: int := 500_000

  /**
    `_adjust_trading_offer`'s new amount: the old amount plus `delta`, raised to the
    floor when below it, otherwise lowered to the buyer's balance when above it.
    The floor wins, so an offer can exceed a balance below 500,000.
   */
  function ClampOffer(current: int, delta: int, balance: int): (r: int)
    ensures current + delta < MinOffer ==> r == MinOffer
    ensures MinOffer <= current + delta <= balance ==> r == current + delta
    ensures MinOffer <= current + delta && current + delta > balance ==> r == balance
    ensures r <= balance || r == MinOffer
    ensures r >= MinOffer || r == balance
    ensures balance >= MinOffer ==> MinOffer <= r <= balance
  {
    var amount := current + delta;
    if amount < MinOffer then MinOffer
    else if amount > balance then balance
    else amount
  }
}
