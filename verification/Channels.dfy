/** Sale-channel normalization and the condition scale (scoring/channels.py). */
module Channels {
  import opened Reals

  const MULTIPLIERS: map<string, real> := map[
    "private" := 1.0, "dealer" := 0.92, "auction_estate" := 1.2,
    "auction_govt" := 1.15, "auction_commercial" := 1.1, "auction_salvage" := 0.5]

  const POSITIONS: map<string, real> := map[
    "bad" := 0.0, "poor" := 0.25, "decent" := 0.5, "good" := 0.75, "great" := 1.0]

  const SPARSE_DECENT_POSITION: real := 0.35

  function Multiplier(channel: string): (m: real)
    ensures m > 0.0
  {
    if channel in MULTIPLIERS then MULTIPLIERS[channel] else 1.0
  }

  function NormalizeToPrivate(price: real, channel: string): real {
    Times(price, Multiplier(channel))
  }

  function ConditionPosition(condition: string, sparse: bool): (p: real)
    ensures 0.0 <= p <= 1.0
  {
    if sparse && condition == "decent" then SPARSE_DECENT_POSITION
    else if condition in POSITIONS then POSITIONS[condition] else 0.5
  }
}
