# Financial dashboard: formatting and query-selection model

A Dafny model of the logic inside the single-page stock dashboard
`charts_app.py`. The page reads a ticker and a time frame from a sidebar,
fetches a quote snapshot and a price history from the market-data provider
and shows a chart and three tables. Apart from widget and provider calls, the
page does four things, and this model covers each:

- **`format_value`** scales a number into a value and one of the suffixes
  `""`, `"K"`, `"M"`, `"B"`, `"T"`. It divides by 1000 while the value is at
  least 1000 and a larger suffix remains. Anything that is not an `int` or a
  `float` gives `"N/A"` (module `Magnitude`).
- **`safe_format`** converts a value with Python's `float()` and gives
  `"N/A"` when that raises `TypeError` or `ValueError` (module `SafeFormat`).
- **`interval_map.get(period, ("1mo", "1d"))`** resolves the selected time
  frame to a (lookback, interval) pair for the history query (module
  `RangeResolver`).
- **`if not ticker.strip()`** rejects a blank ticker before any fetch
  (modules `TickerGuard` and `Submission`).

Python scalars are the datatype `Values.Value`. A `bool` counts as numeric
for `format_value`, because `bool` is a subclass of `int` in Python. Floats
are exact reals. Each formatter returns `Values.Display`: either `NA`, the
literal "N/A", or the number that would be rendered. The scaler's loop
invariant is stated twice. It appears as `Expand`, which multiplies back by
1000 once per step and keeps the proofs linear. It also appears as a product
with `Pow1000` in `Magnitude.FormatValueProduct`. `Magnitude.Tier` is an
independent reference definition of the chosen suffix: the largest k ≤ 4 with
1000^k ≤ value. `Magnitude.FormatValueIsTier` proves that the loop picks it.

Behaviour of the code a reader might not expect:
- The scaling test is `value >= 1000` on the signed value, not on its
  magnitude. Zero and negative numbers are never scaled.
- The ticker is only tested in stripped form. The provider receives it as
  typed, surrounding whitespace included (`Submission.Submit`).
- `safe_format` catches only `TypeError` and `ValueError`. An
  `OverflowError` raised inside `float()` escapes it (see "Left out").
- The two formatters accept different values. `format_value` takes only
  `int`, `float` and `bool`. `float()` also converts numeric text and any
  object with `__float__` or `__index__`, such as `Decimal` (the `Str` and
  `FloatLike` constructors of `Values.Value`).

## Model

| member | source | states |
|---|---|---|
| Magnitude.FormatValue | charts_app.py:16-25 | "N/A" exactly for non-int/float input. Otherwise the suffix index is in range, the input equals the scaled value multiplied back by 1000 per step, the loop stops below 1000 or at "T", a scaled value is at least 1, and an input below 1000 is returned unscaled with "" |
| Magnitude.Scale | charts_app.py:20-24 | The loop from a given index: the index stays within the suffix list, value_in = value_out × 1000^(steps), exit only below 1000 or at the last suffix, a divided value is ≥ 1 |
| Magnitude.FormatValueLoop | charts_app.py:16-25 | The source's `while` loop, with the guard `value >= 1000 and index < len(suffixes) - 1`, computes the same result as the recursive definition. Its invariant is original = value multiplied back by 1000 once per step, so the relation also holds at exit |
| Magnitude.FormatValueIsTier | charts_app.py:20-25 | The chosen suffix is the largest k ≤ 4 with 1000^k ≤ input (k = 0 when there is none), and the value shown is input / 1000^k |
| Magnitude.ScaleStopsAtTier | charts_app.py:22-24 | The loop started at index 0 stops at the reference tier of its input |
| Magnitude.ScaleDivides | charts_app.py:22-24 | The loop started at index 0 leaves input / 1000^index |
| Magnitude.FormatValueProduct | charts_app.py:22-24 | The invariant as a product: the input equals the scaled value × 1000^index |
| Magnitude.NotAvailableExactly | charts_app.py:18-19 | The result is "N/A" if and only if the input is None, text, or an object of any type other than int, float or bool, including one `float()` could convert |
| Magnitude.SuffixIndexInRange | charts_app.py:20-25 | The chosen index is a valid index into the five-element suffix list |
| Magnitude.NegativeNotScaled | charts_app.py:22 | Zero and negative numbers are returned unscaled with suffix "" |
| Magnitude.Examples | charts_app.py:16-25 | 999 → (999, ""), 1000 → (1, "K"), 1500000 → (1.5, "M"), 10^15 → (1000, "T") with no tier beyond T, True → (1, ""), None and "abc" → "N/A". The suffixes are read through `Amount.Suffix` |
| SafeFormat.PyFloat | charts_app.py:30 | `float()` raises TypeError exactly for None and objects it cannot convert, and ValueError exactly for unparsable text. Numbers, and objects with `__float__` or `__index__`, convert to their value |
| SafeFormat.SafeFormat | charts_app.py:27-32 | "N/A" exactly when `float()` raises one of the two caught errors. Otherwise the converted number is shown |
| SafeFormat.AbsentIsNotAvailable | charts_app.py:29-32 | None always formats as "N/A", whatever the string parser does |
| SafeFormat.AgreesWithFormatValue | charts_app.py:16-32 | Where `format_value` shows (value, index), `safe_format` shows value × 1000^index. Both give "N/A" for None and unconvertible objects. For an object `float()` converts (`Decimal` and the like), `format_value` gives "N/A" but `safe_format` shows its number |
| SafeFormat.NumericTextOnlyInSafeFormat | charts_app.py:18-30 | Numeric text is "N/A" for `format_value` but is shown by `safe_format` |
| SafeFormat.Examples | charts_app.py:27-32 | `safe_format(3)` shows 3, `safe_format("3.14159")` shows the parsed number, `safe_format(None)` is "N/A" |
| RangeResolver.Resolve | charts_app.py:48-57 | The fallback pair ("1mo","1d") results exactly for labels outside the seven selector options, and for "1M", whose entry is that same pair |
| RangeResolver.KeysAreOptions | charts_app.py:48-56 | The table's keys are exactly the selector's seven options from line 12 |
| RangeResolver.ResolveTable | charts_app.py:48-57 | Each of 1D, 5D, 1M, 6M, YTD, 1Y, 5Y gives its listed pair, and "" gives the fallback |
| RangeResolver.ResolveInjectiveOnOptions | charts_app.py:48-56 | Two selector options give the same query pair only if they are the same option |
| RangeResolver.InitialIsFallback | charts_app.py:12 | The selector's initial option (index 2, "1M") resolves to the same pair as the fallback |
| TickerGuard.StripLeft | charts_app.py:36 | Leading-whitespace removal returns a suffix of the input that does not start with whitespace. Everything it drops is whitespace |
| TickerGuard.StripRight | charts_app.py:36 | Trailing-whitespace removal returns a prefix of the input that does not end with whitespace. Everything it drops is whitespace |
| TickerGuard.Strip | charts_app.py:36 | The stripped ticker is empty or starts and ends with non-whitespace |
| TickerGuard.StripIsTrimmedSlice | charts_app.py:36 | The stripped ticker is a contiguous slice of the input, with only whitespace before and after it |
| TickerGuard.BlankIffAllSpace | charts_app.py:36 | `not ticker.strip()` holds if and only if every character of the ticker is whitespace, the empty ticker included |
| TickerGuard.StripIdempotent | charts_app.py:36 | Stripping an already stripped ticker changes nothing |
| Submission.Submit | charts_app.py:35-58 | Nothing happens without the button. The validation error occurs exactly for an all-whitespace ticker. Otherwise the provider gets the ticker as typed and the resolved range |
| Submission.BlankNeverFetches | charts_app.py:36-37 | An empty or whitespace-only ticker takes the error branch and is never fetched |
| Submission.SelectorNeverFallsBack | charts_app.py:57 | For every selector option, the history query uses that option's own table entry, never the default |
| Submission.InitialInputs | charts_app.py:11-12 | The initial inputs ("AAPL", "1M") fetch AAPL with ("1mo", "1d") |

## Left out

- Streamlit widgets, layout, spinner, warnings and error banners (lines 6-13, 40, 45, 60-64, 67-100): UI over a framework outside the model. The sidebar inputs are the parameters of `Submission.Submit`.
- `yf.Ticker`, `.info` and `.history` (lines 42-43, 58): network calls to the market-data provider. `Submission.Step.Fetch` records what would be asked for.
- pandas DataFrame construction and the empty-history check (lines 60-64, 78, 89, 100): a foreign library.
- Decimal rendering: `f"${value:.1f}{suffix}"` and `"{:.2f}".format`. The formatters return the number and suffix index that would be rendered, not the string.
- Magnitude.FormatValue: floats are exact reals. IEEE-754 rounding in the repeated `/= 1000`, NaN and the infinities are not modelled. NaN would skip the loop, and infinity would reach "T". The model also divides every `int` exactly. In Python, `value /= 1000` on an `int` above about 1.8e311 (for example `10**400`) raises `OverflowError`, which `format_value` does not catch. The model returns an amount at "T" for such an input.
- SafeFormat.PyFloat: Python's decimal parser for strings is the parameter `parse`. `float()` of an `int` too large for a double raises `OverflowError`, which `safe_format` does not catch. The model converts every `int` exactly.
- The per-field table rows (lines 70-99): plain dictionary lookups with defaults. This includes `dividendYield * 100`, which raises on a `None` value outside `safe_format`, and `.capitalize()`.
- The outer `except Exception` handler (lines 102-103): exception plumbing around the provider calls.
- TickerGuard.IsSpace: whitespace is Python's `str.isspace` set, listed by code point. There is no Unicode database in the model.
