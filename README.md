# tradeStat core in Dafny

tradeStat is a small terminal program for backtesting trading strategies on Yahoo Finance price data. A curses menu collects a ticker, a date range, a candle interval, a starting capital and the parameters of a strategy. The main script then runs an RSI threshold strategy over the price table and compares its end value with buying and holding.

This project models the parts of that program that decide things:

- **MacdSignals** (`macd_functions.dfy`): the four MACD signal predicates, meaning the signal-line crossovers and the zero-line "combo" setups.
- **MonthCoverage** (`indicators.dfy`): `validate_month_coverage`. It checks that every calendar month from the start date up to the day before the exclusive end date has price data. The model includes the calendar arithmetic behind `end - 1 day` and the month-stepping loop.
- **TradingModels** (`trading_models.dfy`): the two strategy records and the `TradeInstance` class with its constructor, `buyShares` and `reset`.
- **Backtest** (`backtest.dfy`): the loop of `main` in main.py. It buys with the whole trade value when RSI is below 30, sells when RSI is above 70, re-marks an open position at every close, and computes the buy-and-hold value.
- **MenuText** (`menu_text.dfy`): `str.strip`, `_safe_int` and `_edit_text`.
- **MenuNavigation** (`menu_navigation.dfy`): the key classification and cursor movement shared by all menus, the main menu loop and the option picker `_select_from_list`.
- **MenuForms** (`menu_forms.dfy`):
  - the four setup forms: stock, RSI bounds, MACD strategy and AI prompt;
  - the validation behind the R/r (confirm) key of the stock and RSI forms.
- **PipFreeze** (`pip_freeze.dfy`): the loop in `get_installed_packages` that turns `pip freeze` lines into a name-to-version map.

The terminal is replaced by the sequence of inputs it would deliver. An input is a key code or a typed line. A loop that runs out of inputs before returning answers `Pending`, because the program would still be waiting for a key. Every loop method is proved equal to a recursive function that consumes those inputs. The properties of each loop are lemmas about that function.

## Model

| member | source | states |
|---|---|---|
| MacdSignals.IsBullishMacdCross | macd_functions.py:1-12 | With a previous MACD or signal value missing the result is false. Otherwise it is true exactly when the previous MACD was at or below the previous signal and the current MACD is strictly above the current signal. |
| MacdSignals.IsBearishMacdCross | macd_functions.py:15-26 | With a previous value missing the result is false. Otherwise it is true exactly when the previous MACD was at or above the previous signal and the current MACD is strictly below the signal. |
| MacdSignals.IsBullishMacdZeroCombo | macd_functions.py:29-45 | True exactly when all four values are present, MACD > 0, the previous histogram is <= 0 and the current histogram is > 0. A missing value gives false. |
| MacdSignals.IsBearishMacdZeroCombo | macd_functions.py:48-63 | True exactly when all four values are present, MACD < 0, the previous histogram is >= 0 and the current histogram is < 0. |
| MacdSignals.CrossesExclusive | macd_functions.py:1-26 | No bar is both a bullish and a bearish crossover. |
| MacdSignals.BearishCrossIsMirroredBullish | macd_functions.py:1-26 | The bearish crossover of a series equals the bullish crossover of the negated series. |
| MacdSignals.ZeroCombosExclusive | macd_functions.py:29-63 | No bar is both a bullish and a bearish zero-line setup. |
| MacdSignals.ZeroCombosIgnorePrevMacdValue | macd_functions.py:36-45 | The previous MACD is only checked for presence; its value never changes either zero-line result. |
| MacdSignals.BearishZeroComboIsMirroredBullish | macd_functions.py:48-63 | The bearish zero-line setup equals the bullish one on negated values. |
| MonthCoverage.DaysInMonth | indicators.py:81 | Every month has 28 to 31 days; February has 29 exactly in a Gregorian leap year. |
| MonthCoverage.NextDay | indicators.py:81 | The day after a valid date is a valid date. |
| MonthCoverage.PreviousDay | indicators.py:81 | `end - timedelta(days=1)` is a valid date, and the day after it is `end` again. |
| MonthCoverage.PreviousOfNextDay | indicators.py:81 | Stepping one day forward and then one day back returns to the same date. |
| MonthCoverage.EndOnFirstExcludesItsMonth | indicators.py:80-81 | When the exclusive end date is the first of a month, `end - 1 day` lies in exactly the previous month: December of the year before for January, else the same year and month - 1. That month comes before the end's month. |
| MonthCoverage.EndAfterFirstKeepsItsMonth | indicators.py:80-81 | When the exclusive end date is any later day of its month, `end - 1 day` stays in the same month, so that month is still expected. |
| MonthCoverage.ActualMonths | indicators.py:94 | The actual months are exactly the (year, month) pairs of the data's timestamps. |
| MonthCoverage.ExpectedMonths | indicators.py:84-91 | Defines the expected months: every (year, month) from the first month to the last, inclusive. CollectExpectedMonths, ExpectedMonthsAreBetween and StartAfterEndExpectsNothing characterize it. |
| MonthCoverage.CollectExpectedMonths | indicators.py:84-91 | The loop collects exactly the calendar months from the first month to the last, inclusive. It adds each month once, so it collects last - first + 1 months, or none when first is after last. |
| MonthCoverage.ValidateMonthCoverage | indicators.py:70-99 | Empty data is rejected before anything else. A date that does not parse is rejected next. An end date of 0001-01-01 is out of range. Otherwise the result is Covered exactly when no expected month is missing; if any is, the rejection carries exactly the missing months. |
| MonthCoverage.NoneMissingIffAllPresent | indicators.py:97-99 | Nothing is missing exactly when every expected month has at least one bar in the data. |
| MonthCoverage.StartAfterEndExpectsNothing | indicators.py:86 | When the start month lies after the last month, the expected set is empty. |
| MonthCoverage.ExpectedMonthsAreBetween | indicators.py:84-91 | Every expected month is a real month (1..12) between the first and the last month. |
| TradingModels.TradeInstance.constructor | trading_models.py:44-63 | The configuration is stored under both the current and the legacy names (startDate = start, endDate = end, index = ticker). The results start at zero, with no hold shares and five empty histories of (date, value) pairs. |
| TradingModels.TradeInstance.BuyShares | trading_models.py:65-70 | The returned share count times the price equals the value spent. |
| TradingModels.TradeInstance.Reset | trading_models.py:72-80 | The two end values return to 0, the hold shares to none and the five histories to empty. The configuration and its legacy aliases are unchanged. |
| TradingModels.ResetMatchesFresh | trading_models.py:44-80 | After reset an instance has the same configuration and the same results as a freshly constructed instance with that configuration. |
| TradingModels.ResetIsIdempotent | trading_models.py:72-80 | Resetting an instance that is already reset changes nothing: configuration, aliases and results stay as they were. |
| Backtest.BuyShares | main.py:44-48 | The returned share count times the price equals the value spent. |
| Backtest.Decide | main.py:29-35 | Defines the action of one bar: buy when RSI < 30 while flat, sell when RSI > 70 while holding, otherwise nothing. TradeConditions and MissingRsiNeverTrades characterize it. |
| Backtest.Step | main.py:26-35 | An open position is re-marked at the close; a flat position keeps its value. The new holding flag is set by a buy and cleared by a sell. After a buy, shares times close equals the trade value. |
| Backtest.Run | main.py:19-35 | Defines the position after the loop over all bars, one Step per bar. RunStaysPositive, FlatValueUnchanged and TradesAlternate are its properties, and BacktestRsi returns its trade value. |
| Backtest.ActionsAreDecisions | main.py:19-35 | The action the loop takes on bar k is what Decide says from the position Run reaches after the first k bars. |
| Backtest.HoldValue | main.py:38-39 | The hold value times the first close equals the starting capital times the last close. |
| Backtest.TradesAlternate | main.py:29-35 | Buys and sells strictly alternate, starting with a buy. A position is open at the end exactly when the number of trades is odd. |
| Backtest.MissingRsiNeverTrades | main.py:29-33 | A bar without an RSI value never causes a buy or a sell. |
| Backtest.TradeConditions | main.py:29-35 | A buy happens exactly when RSI < 30 while flat. A sell happens exactly when RSI > 70 while holding. |
| Backtest.RunStaysPositive | main.py:26-31 | With positive capital and positive closes, the strategy value stays positive and an open position holds a positive number of shares. |
| Backtest.FlatValueUnchanged | main.py:26-27 | If no buy ever happens, the trade value stays the starting capital. |
| Backtest.BacktestRsi | main.py:7-41 | Empty price data is exactly the case with no RSI column, and raises. Otherwise the result is the end value of the bar-by-bar strategy and the buy-and-hold value. |
| PipFreeze.FindSeparator | AIStrategy.py:31 | Returns the first position at which `==` occurs, or none when `==` does not occur. |
| PipFreeze.SplitFirst | AIStrategy.py:31-32 | Splits a line exactly when it contains `==`. The line is name + "==" + version, and the name contains no `==`. |
| PipFreeze.Packages | AIStrategy.py:29-33 | Defines the map the loop builds: lines are read in order, a line with `==` sets its name to its version, and other lines are skipped. KeysAreNames, LastLineWins and LineWithoutSeparatorIgnored characterize it. |
| PipFreeze.GetInstalledPackages | AIStrategy.py:29-33 | The loop builds the map defined line by line by `Packages`. |
| PipFreeze.KeysAreNames | AIStrategy.py:29-33 | A name is a key exactly when some line containing `==` names it. |
| PipFreeze.LastLineWins | AIStrategy.py:33 | Each entry holds the version from the last line naming that package. |
| PipFreeze.LineWithoutSeparatorIgnored | AIStrategy.py:31 | Inserting a line without `==` anywhere leaves the map unchanged. |
| MenuText.Strip | menu.py:103 | The stripped text is no longer than the input and has no whitespace at either end. |
| MenuText.StripRemovesOnlySpace | menu.py:103 | The stripped text is a contiguous slice of the input with only whitespace cut from either side. |
| MenuText.StripUnpadded | menu.py:103 | A string with no whitespace at either end is its own strip. |
| MenuText.StripIdempotent | menu.py:103 | Stripping twice is the same as stripping once. |
| MenuText.ParseInt | menu.py:64 | For an already stripped string s, `int(s)` succeeds exactly when s is a non-empty run of ASCII digits, or a sign followed by at least one digit. The value is the digits' decimal value, negated after `-`. |
| MenuText.SafeInt | menu.py:62-66 | A blank string gives the default `None`. |
| MenuText.SafeIntAccepts | menu.py:62-66 | `_safe_int(s)` is a number exactly when `s.strip()` is an optional sign followed by ASCII digits. The number is the decimal value of those digits, negated after `-`; otherwise the default `None` is returned. |
| MenuText.ParseShowInt | menu.py:64 | `int(str(n)) == n` for every integer n whose decimal form has at most 4300 digits (the model has no digit limit, so it proves this for every integer). |
| MenuText.SafeIntOfShowInt | menu.py:62-66 | `_safe_int(str(n))` gives back n, for every n whose decimal form has at most 4300 digits (proved for every integer in the model). |
| MenuText.EditText | menu.py:96-105 | A blank typed line keeps the initial value. Otherwise the result is the typed line stripped, which is its own strip. |
| MenuNavigation.Classify | menu.py:43-50 | Defines the meaning of a key code, as shared by the menus at menu.py:123-130 and 201-251: up arrow or k moves up, down arrow or j moves down, KEY_ENTER, 10 or 13 selects, Esc (27) or q leaves, R/r confirms a form. Navigate, CursorClosedForm and SelectRunOutcome characterize it. |
| MenuNavigation.MoveUp | menu.py:44 | The cursor stays in 0..n-1 and moving up from the first entry wraps to the last. |
| MenuNavigation.MoveDown | menu.py:46 | The cursor stays in 0..n-1 and moving down from the last entry wraps to the first. |
| MenuNavigation.UpDownCancel | menu.py:43-46 | Up then down, or down then up, returns to the same entry. |
| MenuNavigation.Navigate | menu.py:43-46 | One key leaves the cursor within the entries. |
| MenuNavigation.CursorAfter | menu.py:33-46 | Any sequence of keys leaves the cursor within the entries. |
| MenuNavigation.CursorClosedForm | menu.py:43-46 | The cursor ends at the start index plus the downs minus the ups, wrapped into 0..n-1; no other key moves it. |
| MenuNavigation.SelectRun | menu.py:108-130 | The picker reads no more inputs than it has. An answered index is within the options. A finished run reads at least one key, and a pending run reads all of them. |
| MenuNavigation.SelectRunOutcome | menu.py:121-130 | The picker stops at the first Enter or Esc/q. Enter answers the entry the earlier keys moved the cursor to; Esc/q cancels. |
| MenuNavigation.MainMenu | menu.py:26-50 | The loop equals the picker run from entry 0, except that Esc/q answers the last entry, "Quit". The main menu therefore never ends cancelled, and its answer is one of the five entries. |
| MenuNavigation.SelectFromList | menu.py:108-130 | Returns the option under the cursor on Enter and nothing on Esc/q, as the picker run says, and how many inputs it read. |
| MenuForms.UpperChar | menu.py:242 | A lower-case ASCII letter becomes the capital at the same alphabet position ('a' to 'A', ..., 'z' to 'Z'); every other character stays as it is. |
| MenuForms.Upper | menu.py:242 | `upper()` keeps the length, and each character of the result is the capital of the input character at that position, as UpperChar states. |
| MenuForms.IntervalStartIndex | menu.py:209-211 | The picker starts at the first occurrence of the current interval among the intervals, or at 0 when it is not one of them. |
| MenuForms.ValidateStockInfo | menu.py:222-248 | The checks run in the source's order: empty ticker, then bad dates, then bad amounts, then unknown interval. Each refusal holds exactly when the earlier checks pass and its own fails. An accepted form carries the ticker stripped and upper-cased, the stripped interval field (one of the known intervals), the stripped dates and the two parsed non-negative amounts. |
| MenuForms.ValidateRsiBounds | menu.py:302-314 | Refuses exactly when a bound is not an integer. Accepts exactly when both bounds lie in 0..100 and lower < upper, and returns those values. |
| MenuForms.DefaultBoundsText | menu.py:269-275 | The default field texts "30" and "70" (`str` of the string defaults) are `str(30)` and `str(70)`, so the parsing lemmas about `str(n)` apply to them. |
| MenuForms.DefaultRsiBoundsAccepted | menu.py:263-314 | The default field texts "30" and "70", equal to `str(30)` and `str(70)`, pass validation as (30, 70). |
| MenuForms.RsiFormRun | menu.py:286-317 | Defines the RSI form's answer for a sequence of inputs: keys move the cursor, Enter edits the field under it, R/r validates and Esc/q cancels. RsiFormAnswersValidBounds and RsiConfirmation characterize it. |
| MenuForms.RsiFormAnswersValidBounds | menu.py:257-317 | Whatever the RSI form returns satisfies 0 <= lower < upper <= 100 and was accepted by the validator. |
| MenuForms.RsiConfirmation | menu.py:302-314 | On R/r the form answers exactly the bounds the validator accepts. A refused confirmation leaves the form open with its values and cursor unchanged. |
| MenuForms.RsiFormStep | menu.py:289-317 | One pass of the loop either ends the form with the run's answer, or moves forward to a state from which the run has the same answer. |
| MenuForms.RsiBoundsForm | menu.py:257-317 | The loop equals the step-by-step run of the form, and any answer it gives holds valid bounds. |
| MenuForms.StockFormRun | menu.py:196-251 | Defines the stock form's answer for a sequence of inputs, with the interval field edited through the picker. StockFormAnswersAccepted, StockFormAnswersValidated and StockConfirmation characterize it. |
| MenuForms.StockFormAnswersAccepted | menu.py:196-251 | Whatever the stock form returns is a value the validator accepted for some contents of the six fields. |
| MenuForms.StockFormAnswersValidated | menu.py:136-251 | Whatever the stock form returns was accepted by the validator: non-empty ticker, parsable dates, non-negative amounts and a known interval. |
| MenuForms.StockConfirmation | menu.py:222-248 | On R/r the stock form answers exactly what the validator accepts. A refused confirmation leaves the form open with its values and cursor unchanged. |
| MenuForms.StockFormEdit | menu.py:206-220 | Enter on a field either ends the form with the run's answer, or edits the field (the picker for the interval, the line editor otherwise) and moves to a state from which the run has the same answer. |
| MenuForms.StockFormStep | menu.py:199-251 | One pass of the loop either ends the form with the run's answer, or moves forward to a state from which the run has the same answer. |
| MenuForms.StockInfoForm | menu.py:136-251 | The loop equals the step-by-step run of the stock form. On Enter it edits the field under the cursor, or opens the picker for the interval field. |
| MenuForms.MacdFormRun | menu.py:352-366 | Defines the MACD form's answer: up and down move between the two strategies, R/r answers the one under the cursor, Esc/q cancels, and Enter does nothing. MacdFormAnswersStrategy characterizes it. |
| MenuForms.MacdFormAnswersStrategy | menu.py:323-366 | The MACD form answers only strategy 1 or strategy 2. |
| MenuForms.MacdBoundsForm | menu.py:323-366 | The loop equals the step-by-step run of the form and answers only 1 or 2. |
| MenuForms.PromptFormRun | menu.py:395-415 | Defines the prompt form's answer: Enter edits the prompt, R/r confirms it, Esc/q cancels. PromptFormAnswersTypedOrInitial characterizes it. |
| MenuForms.PromptFormAnswersTyped | menu.py:395-415 | A returned prompt other than the initial one is the strip of one of the lines typed among the inputs. |
| MenuForms.PromptFormAnswersStripped | menu.py:395-415 | A returned prompt other than the initial one is non-blank and stripped. |
| MenuForms.PromptFormAnswersTypedOrInitial | menu.py:372-415 | The returned prompt is either the initial one or a non-blank, stripped text that equals the strip of one of the lines typed among the inputs. |
| MenuForms.AiPromptForm | menu.py:372-415 | The loop equals the step-by-step run of the prompt form. |

## Left out

- Fetching prices from Yahoo Finance (`getHistoData`) is network I/O and is not modelled. The backtest receives the bars with their RSI values already attached.
- RSI and MACD computation (`calculateRsi`, pandas resampling and exponential smoothing) is floating-point numerics and is not modelled. An undefined (NaN) RSI is `None`.
- `calculateStartTimeRSI` in main.py is not modelled: `datetime(startDate)` with a single argument raises TypeError on every call, and nothing calls it.
- The printing in `main` is left out.
- The unused locals `daysInPos` and `lastDate` in `main` are left out.
- The rest of AIStrategy.py is left out: running `pip freeze` in a subprocess, the OpenAI request, saving to a file, `exec` of generated code, and rendering the map with `str(packages)`. These are I/O and foreign calls. `splitlines` is done before the modelled loop, so its inputs are already lines.
- monteCarlo.py is not part of this model. Its `load_prices_and_log_ret` downloads daily prices with yfinance and takes log returns, which is network I/O and floating-point numerics.
- graphs.py and loading.py are not part of this model. graphs.py only plots, and loading.py only draws a console spinner.
- `StrategyBase` and `AITradingStrat` are not modelled. `StrategyBase` is a base class whose `on_bar` raises NotImplementedError, and `AITradingStrat` only holds a strategy object.
- The strategy records `RsiTradeStrat` and `MacdTradeStrat` are plain datatypes with their class-level numbers 1 and 2. Nothing in the code constrains their fields.
- Curses drawing is not modelled: `_draw_form`, the screen text, the highlighted entry and the message line. The forms' refusal messages become the error values of the validators.
- `_validate_date` (strptime on `%Y-%m-%d`) is the parameter `isDate` of the stock form. String-to-date parsing is not modelled.
- The convenience wrappers `get_stock_info`, `get_rsi_bounds`, `get_macd_bounds` and `get_AI_prompt` are not modelled: each only starts curses.
- The orchestration menus `RSIStratMenu`, `macdMenu` and `AIprompt` are not modelled. They chain a form into `TradeInstance` and the strategy records. Their parts are modelled.
- The RSI bounds chosen in the RSI form are never passed to `main`, which uses the fixed thresholds 30 and 70. The model keeps that.
- MenuText.SafeInt: `int()` is modelled for an optional sign and ASCII digits only. Python also accepts underscores between digits and non-ASCII decimal digits, which the model rejects. Python (3.11 and later, and 3.9.14 and 3.10.7) also refuses decimal strings of more than 4300 digits, so `_safe_int` returns None for them, while the model parses any length. The forms cut typed lines to 1000 characters, so no value they parse comes near that limit. The same limit makes `str(n)` raise for |n| >= 10^4300, which ParseShowInt and SafeIntOfShowInt do not model.
- MenuForms.Upper: only ASCII letters are upper-cased, not all Unicode letters, and no letter expands to several (Python maps 'ß' to 'SS').
- TradingModels.TradeInstance.Reset: Python's `.clear()` empties the five history lists in place, so any other reference to those lists would also see them empty. The model's histories are sequence values, so it does not capture that aliasing; no code in the repository keeps another reference to them.
- The forms' default field values (ticker SPY, interval 1d, dates 2000-01-01 and 2025-01-01, capital 0, monthly 1000, and the default AI prompt) are not spelled out: the form methods take their starting values as parameters (`initial`, `lower`/`upper`, `prompt`).
- Input model: a typed line where a key is expected does nothing. Typed lines are cut to their first 1000 characters, as `getstr(4, 5, 1000)` does; the model counts characters where curses counts bytes before decoding. A cut through a multi-byte UTF-8 character makes `.decode("utf-8")` raise UnicodeDecodeError, which the model does not capture. A key where a typed line is expected reads as a blank line. Blocking forever on `getch` becomes the `Pending` answer.
- Backtest.BacktestRsi: requires every close to be positive. In Python the closes are numpy floats, so a close of 0 at a buy, or a first close of 0, gives inf or nan with a RuntimeWarning instead of an error. Negative prices are accepted there.
- TradingModels.TradeInstance.BuyShares: requires a non-zero price. At a price of 0, Python raises `ZeroDivisionError` for plain numbers and gives inf or nan for numpy floats; neither is modelled.
- Backtest.BuyShares: requires a non-zero price. main.py passes numpy float closes, and a close of 0 gives inf or nan with a RuntimeWarning rather than an error; that result is not modelled.
- MonthCoverage.ValidateMonthCoverage: `strptime` parsing is left outside the model. The two parse results are passed in as `Option<Date>`, and `None` means the string did not parse. The data's timestamps arrive as dates.
- Integer and float widths are not modelled. Amounts are unbounded integers and prices are exact reals, so floating-point rounding is left out.
