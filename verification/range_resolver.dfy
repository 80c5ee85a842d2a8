/** The time-frame selector and the table that turns its label into the
    lookback period and bar interval of the history query. */
module RangeResolver {

  /** The selector's options, in the order they are offered. */
  const Options: seq<string> := ["1D", "5D", "1M", "6M", "YTD", "1Y", "5Y"]

  /** The selector starts on option index 2. */
  const InitialOption: nat := 2

  /** A history query's (period, interval) pair. */
  datatype RangeParams = RangeParams(lookback: string, interval: string)

  /** The pair used for a label missing from the table. */
  const Fallback: RangeParams := RangeParams("1mo", "1d")

  /** `interval_map`. */
  const IntervalMap: map<string, RangeParams> := map[
    "1D" := RangeParams("1d", "1h"),
    "5D" := RangeParams("5d", "1d"),
    "1M" := RangeParams("1mo", "1d"),
    "6M" := RangeParams("6mo", "1wk"),
    "YTD" := RangeParams("ytd", "1mo"),
    "1Y" := RangeParams("1y", "1mo"),
    "5Y" := RangeParams("5y", "3mo")
  ]

  /** `interval_map.get(period, ("1mo", "1d"))`: never fails; a label the
      table does not know silently gets the fallback pair. */
  function Resolve(period: string): (r: RangeParams)
    ensures r == Fallback <==> period !in Options || period == "1M"
  {
    if period in IntervalMap then IntervalMap[period] else Fallback
  }

  /** The table's keys are exactly the selector's options, so the default
      branch cannot be reached from the selector. */
  lemma KeysAreOptions()
    ensures IntervalMap.Keys == set i | 0 <= i < |Options| :: Options[i]
    ensures forall i :: 0 <= i < |Options| ==> Options[i] in IntervalMap
  {
    var keys := set i | 0 <= i < |Options| :: Options[i];
    assert Options[0] in keys && Options[1] in keys && Options[2] in keys && Options[3] in keys;
    assert Options[4] in keys && Options[5] in keys && Options[6] in keys;
  }

  /** Each of the seven labels resolves to its listed pair. */
  lemma ResolveTable()
    ensures Resolve("1D") == RangeParams("1d", "1h")
    ensures Resolve("5D") == RangeParams("5d", "1d")
    ensures Resolve("1M") == RangeParams("1mo", "1d")
    ensures Resolve("6M") == RangeParams("6mo", "1wk")
    ensures Resolve("YTD") == RangeParams("ytd", "1mo")
    ensures Resolve("1Y") == RangeParams("1y", "1mo")
    ensures Resolve("5Y") == RangeParams("5y", "3mo")
    ensures Resolve("") == Fallback
  {
  }

  /** Distinct options ask for distinct queries. */
  lemma ResolveInjectiveOnOptions(i: nat, j: nat)
    requires i < |Options| && j < |Options|
    ensures Resolve(Options[i]) == Resolve(Options[j]) <==> i == j
  {
  }

  /** The option the selector starts on resolves to the same pair as the
      fallback. */
  lemma InitialIsFallback()
    ensures InitialOption < |Options|
    ensures Resolve(Options[InitialOption]) == Fallback
  {
  }
}
