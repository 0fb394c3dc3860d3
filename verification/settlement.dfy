/** Outcome and profit of one binary-option trade
    (src/botafuturo/domain/settlement.py, src/botafuturo/domain/pnl.py). */
module Settlement {
  import opened Models

  function ResolveOutcome(direction: Direction, entryPrice: real, expiryPrice: real): Outcome {
    if expiryPrice == entryPrice then TIE
    else
      var priceRose := expiryPrice > entryPrice;
      if direction == CALL then (if priceRose then WIN else LOSS)
      else (if priceRose then LOSS else WIN)
  }

  function PnlFor(outcome: Outcome, stake: real, payoutRate: real): real {
    match outcome
    case WIN => stake * payoutRate
    case LOSS => -stake
    case TIE => 0.0
  }

  /** A CALL and a PUT at the same prices are opposite bets, and reflecting the expiry price about
      the entry price is the same as taking the other side. */
  lemma OppositeSides(direction: Direction, entryPrice: real, expiryPrice: real)
    ensures ResolveOutcome(Flip(direction), entryPrice, 2.0 * entryPrice - expiryPrice)
         == ResolveOutcome(direction, entryPrice, expiryPrice)
    ensures ResolveOutcome(direction, entryPrice, expiryPrice) == WIN
        <==> ResolveOutcome(Flip(direction), entryPrice, expiryPrice) == LOSS
    ensures ResolveOutcome(CALL, entryPrice, expiryPrice) == WIN <==> expiryPrice > entryPrice
    ensures ResolveOutcome(direction, entryPrice, expiryPrice) == TIE <==> expiryPrice == entryPrice
  {
  }

  /** A trade never forfeits more than its stake as long as the payout rate is at least -1. */
  lemma PnlAtLeastMinusStake(outcome: Outcome, stake: real, payoutRate: real)
    requires stake >= 0.0 && payoutRate >= -1.0
    ensures stake + PnlFor(outcome, stake, payoutRate) >= 0.0
  {
    assert stake * (1.0 + payoutRate) >= 0.0;
    assert stake * (1.0 + payoutRate) == stake + stake * payoutRate;
  }
}
