/** What one run of the page does with the sidebar inputs: nothing until the
    button is pressed, the validation error for a blank ticker, and
    otherwise the two provider queries (the quote snapshot and the price
    history for the resolved range). The provider itself is not modelled. */
module Submission {
  import opened TickerGuard
  import opened RangeResolver

  /** The branch a run takes. `Fetch` carries the symbol handed to the
      provider and the history query's parameters. */
  datatype Step =
    | Idle
    | InvalidTicker
    | Fetch(symbol: string, params: RangeParams)

  function Submit(pressed: bool, ticker: string, period: string): (r: Step)
    ensures r.Idle? <==> !pressed
    ensures r.InvalidTicker? <==> pressed && AllSpace(ticker)
    // the symbol goes to the provider as typed: it is tested stripped but
    // not replaced by its stripped form
    ensures r.Fetch? ==> r.symbol == ticker && !AllSpace(ticker)
    ensures r.Fetch? ==> r.params == Resolve(period)
  {
    BlankIffAllSpace(ticker);
    if !pressed then Idle
    else if IsBlank(ticker) then InvalidTicker
    else Fetch(ticker, Resolve(period))
  }

  /** An empty or all-whitespace ticker never reaches the provider. */
  lemma BlankNeverFetches(ticker: string, period: string)
    requires AllSpace(ticker)
    ensures Submit(true, ticker, period) == InvalidTicker
  {
  }

  /** From the selector, the fallback pair is only ever used for "1M",
      whose own entry is the same pair. */
  lemma SelectorNeverFallsBack(ticker: string, i: nat)
    requires i < |Options| && !AllSpace(ticker)
    ensures Options[i] in IntervalMap
    ensures Submit(true, ticker, Options[i]) == Fetch(ticker, IntervalMap[Options[i]])
  {
    KeysAreOptions();
  }

  /** The page's initial inputs ("AAPL", option "1M") fetch a month of
      daily bars. */
  lemma InitialInputs()
    ensures Submit(true, "AAPL", Options[InitialOption]) == Fetch("AAPL", RangeParams("1mo", "1d"))
  {
    assert !IsSpace('A');
  }
}
