/**
  The setup forms of menu.py: `stock_info_form`, `rsi_bounds_form`,
  `macd_bounds_form` and `AI_prompt_form`. A form is a list of field values
  and a cursor; up/down move the cursor, Enter edits the field under it
  (for the interval field: opens the interval picker), R/r validates and
  returns, Esc/q cancels. A rejected confirmation only sets the message
  line and the form stays open.

  Each loop is a method proved equal to a function that reads the inputs
  one step at a time; the properties of the forms are lemmas about those
  functions.
*/
module MenuForms {
  import opened Base
  import opened MenuText
  import opened MenuNavigation

  /** The candle intervals the interval picker offers. */
  const Intervals: seq<string> := ["1d", "1h", "30m", "15m", "5m", "3m", "2m", "1m"]

  // positions of the fields of the stock form
  const TickerField := 0
  const IntervalField := 1
  const StartField := 2
  const EndField := 3
  const CapitalField := 4
  const MonthlyField := 5
  const StockFieldCount := 6

  datatype StockInfo = StockInfo(ticker: string, interval: string, start: string, end: string,
                                 capital: int, monthly: int)

  /** The four refusals of the stock form, in the order they are checked. */
  datatype StockError = EmptyTicker | BadDates | BadAmounts | BadInterval

  datatype RsiBounds = RsiBounds(lower: int, upper: int)

  datatype RsiError = NotIntegers | InvalidBounds

  /** The most characters `getstr` returns from one edit prompt. */
  const MaxTyped := 1000

  /** The line an edit prompt reads: the text typed, cut to its first
      `MaxTyped` characters, or a blank line when the next event is a key. */
  function TypedText(input: Input): string
  {
    match input
    case Line(text) => if |text| <= MaxTyped then text else text[..MaxTyped]
    case Key(_) => ""
  }

  /** ASCII `str.upper()` of one character. */
  function UpperChar(c: char): (u: char)
    ensures 'a' <= c <= 'z' ==> 'A' <= u <= 'Z' && u as int - 'A' as int == c as int - 'a' as int
    ensures !('a' <= c <= 'z') ==> u == c
  {
    if 'a' <= c <= 'z' then (c as int - 'a' as int + 'A' as int) as char else c
  }

  /** `s.upper()` on ASCII letters. */
  function Upper(s: string): (r: string)
    ensures |r| == |s|
    ensures forall i :: 0 <= i < |s| ==> r[i] == UpperChar(s[i])
  {
    if s == [] then [] else [UpperChar(s[0])] + Upper(s[1..])
  }

  /** `INTERVALS.index(v) if v in INTERVALS else 0`: where the interval
      picker starts. */
  function IntervalStartIndex(v: string): (k: int)
    ensures 0 <= k < |Intervals|
    ensures v in Intervals ==> Intervals[k] == v && forall j :: 0 <= j < k ==> Intervals[j] != v
    ensures v !in Intervals ==> k == 0
  {
    FirstIndex(Intervals, v, 0)
  }

  function FirstIndex(s: seq<string>, v: string, from: nat): (k: int)
    requires from <= |s|
    ensures (exists j :: from <= j < |s| && s[j] == v) ==>
              from <= k < |s| && s[k] == v && forall j :: from <= j < k ==> s[j] != v
    ensures !(exists j :: from <= j < |s| && s[j] == v) ==> k == 0
    decreases |s| - from
  {
    if from == |s| then 0
    else if s[from] == v then from
    else FirstIndex(s, v, from + 1)
  }

  /** The R/r branch of `stock_info_form`: every value is stripped, then
      the ticker must be non-empty, both dates must parse, capital and
      monthly amount must be integers >= 0 and the interval one of
      `Intervals`, checked in that order. `isDate` is `_validate_date`. */
  function ValidateStockInfo(fields: seq<string>, isDate: string -> bool): (r: Result<StockInfo, StockError>)
    requires |fields| == StockFieldCount
    ensures r == Err(EmptyTicker) <==> Strip(fields[TickerField]) == []
    ensures r == Err(BadDates) <==>
              Strip(fields[TickerField]) != [] &&
              !(isDate(Strip(fields[StartField])) && isDate(Strip(fields[EndField])))
    ensures r == Err(BadAmounts) <==>
              Strip(fields[TickerField]) != [] &&
              isDate(Strip(fields[StartField])) && isDate(Strip(fields[EndField])) &&
              !(SafeInt(Strip(fields[CapitalField])).Some? && SafeInt(Strip(fields[CapitalField])).value >= 0 &&
                SafeInt(Strip(fields[MonthlyField])).Some? && SafeInt(Strip(fields[MonthlyField])).value >= 0)
    ensures r.Ok? <==>
              Strip(fields[TickerField]) != [] &&
              isDate(Strip(fields[StartField])) && isDate(Strip(fields[EndField])) &&
              SafeInt(Strip(fields[CapitalField])).Some? && SafeInt(Strip(fields[CapitalField])).value >= 0 &&
              SafeInt(Strip(fields[MonthlyField])).Some? && SafeInt(Strip(fields[MonthlyField])).value >= 0 &&
              Strip(fields[IntervalField]) in Intervals
    ensures r.Ok? ==>
              r.value.ticker == Upper(Strip(fields[TickerField])) && r.value.ticker != [] &&
              r.value.interval == Strip(fields[IntervalField]) && r.value.interval in Intervals &&
              r.value.start == Strip(fields[StartField]) && r.value.end == Strip(fields[EndField]) &&
              Some(r.value.capital) == SafeInt(fields[CapitalField]) && r.value.capital >= 0 &&
              Some(r.value.monthly) == SafeInt(fields[MonthlyField]) && r.value.monthly >= 0
  {
    var ticker := Strip(fields[TickerField]);
    var interval := Strip(fields[IntervalField]);
    var start := Strip(fields[StartField]);
    var end := Strip(fields[EndField]);
    StripIdempotent(fields[CapitalField]);
    StripIdempotent(fields[MonthlyField]);
    var capital := SafeInt(Strip(fields[CapitalField]));
    var monthly := SafeInt(Strip(fields[MonthlyField]));
    if ticker == [] then Err(EmptyTicker)
    else if !isDate(start) || !isDate(end) then Err(BadDates)
    else if capital.None? || monthly.None? || capital.value < 0 || monthly.value < 0 then Err(BadAmounts)
    else if interval !in Intervals then Err(BadInterval)
    else Ok(StockInfo(Upper(ticker), interval, start, end, capital.value, monthly.value))
  }

  /** The R/r branch of `rsi_bounds_form`: both values must be integers,
      each within 0..100, and the lower strictly below the upper. */
  function ValidateRsiBounds(lower: string, upper: string): (r: Result<RsiBounds, RsiError>)
    ensures r == Err(NotIntegers) <==> SafeInt(lower).None? || SafeInt(upper).None?
    ensures r.Ok? <==>
              SafeInt(lower).Some? && SafeInt(upper).Some? &&
              0 <= SafeInt(lower).value <= 100 && 0 <= SafeInt(upper).value <= 100 &&
              SafeInt(lower).value < SafeInt(upper).value
    ensures r.Ok? ==> r.value == RsiBounds(SafeInt(lower).value, SafeInt(upper).value)
    ensures r.Ok? ==> 0 <= r.value.lower < r.value.upper <= 100
  {
    var lo := SafeInt(lower);
    var hi := SafeInt(upper);
    if lo.None? || hi.None? then Err(NotIntegers)
    else if !(0 <= lo.value <= 100 && 0 <= hi.value <= 100 && lo.value < hi.value) then Err(InvalidBounds)
    else Ok(RsiBounds(lo.value, hi.value))
  }

  /** The default field texts "30" and "70" are `str(30)` and `str(70)`. */
  lemma DefaultBoundsText()
    ensures ShowInt(30) == "30" && ShowInt(70) == "70"
  {
    assert ShowNat(3) == "3" && ShowNat(7) == "7";
  }

  /** The default field texts "30" and "70", which are `str(30)` and
      `str(70)`, are accepted as (30, 70). */
  lemma DefaultRsiBoundsAccepted()
    ensures ValidateRsiBounds(ShowInt(30), ShowInt(70)) == Ok(RsiBounds(30, 70))
  {
    SafeIntOfShowInt(30);
    SafeIntOfShowInt(70);
  }

  // ---------------------------------------------------------------
  // rsi_bounds_form
  // ---------------------------------------------------------------

  /** `rsi_bounds_form` with field values `values` (lower, upper) and the
      cursor on field `idx`, reading `inputs`. */
  function RsiFormRun(values: seq<string>, idx: int, inputs: seq<Input>): Answer<RsiBounds>
    requires |values| == 2 && 0 <= idx < 2
    decreases |inputs|
  {
    if inputs == [] then Pending
    else match ActionOf(inputs[0])
      case Enter =>
        if |inputs| == 1 then Pending
        else RsiFormRun(values[idx := EditText(values[idx], TypedText(inputs[1]))], idx, inputs[2..])
      case Confirm =>
        (match ValidateRsiBounds(values[0], values[1])
         case Ok(bounds) => Answered(bounds)
         case Err(_) => RsiFormRun(values, idx, inputs[1..]))
      case Cancel => Cancelled
      case _ => RsiFormRun(values, Navigate(idx, 2, inputs[0]), inputs[1..])
  }

  /** The RSI form only ever returns bounds with 0 <= lower < upper <= 100. */
  lemma {:induction false} RsiFormAnswersValidBounds(values: seq<string>, idx: int, inputs: seq<Input>)
    requires |values| == 2 && 0 <= idx < 2
    ensures var r := RsiFormRun(values, idx, inputs);
            r.Answered? ==> 0 <= r.value.lower < r.value.upper <= 100 &&
                            exists lo, hi :: ValidateRsiBounds(lo, hi) == Ok(r.value)
    decreases |inputs|
  {
    if inputs != [] {
      match ActionOf(inputs[0])
      case Enter =>
        if |inputs| > 1 {
          RsiFormAnswersValidBounds(values[idx := EditText(values[idx], TypedText(inputs[1]))], idx, inputs[2..]);
        }
      case Confirm =>
        if ValidateRsiBounds(values[0], values[1]).Err? {
          RsiFormAnswersValidBounds(values, idx, inputs[1..]);
        }
      case Cancel =>
      case _ =>
        RsiFormAnswersValidBounds(values, Navigate(idx, 2, inputs[0]), inputs[1..]);
    }
  }

  /** R/r answers the bounds the validator accepted; a confirmation it
      refuses leaves the form open with its values and cursor unchanged. */
  lemma RsiConfirmation(values: seq<string>, idx: int, inputs: seq<Input>)
    requires |values| == 2 && 0 <= idx < 2 && inputs != [] && ActionOf(inputs[0]) == Confirm
    ensures ValidateRsiBounds(values[0], values[1]).Ok? ==>
              RsiFormRun(values, idx, inputs) == Answered(ValidateRsiBounds(values[0], values[1]).value)
    ensures ValidateRsiBounds(values[0], values[1]).Err? ==>
              RsiFormRun(values, idx, inputs) == RsiFormRun(values, idx, inputs[1..])
  {
  }

  /** One pass of the loop of `rsi_bounds_form`: reads the key at
      `inputs[i]` (and, for Enter, the line typed after it). Either the
      form returns `r`, or it goes on from the new values, cursor and
      position. */
  method RsiFormStep(values: seq<string>, idx: int, inputs: seq<Input>, i: nat)
    returns (done: bool, r: Answer<RsiBounds>, values': seq<string>, idx': int, i': nat)
    requires |values| == 2 && 0 <= idx < 2 && i < |inputs|
    ensures done ==> r == RsiFormRun(values, idx, inputs[i..])
    ensures !done ==> |values'| == 2 && 0 <= idx' < 2 && i < i' <= |inputs| &&
                      RsiFormRun(values', idx', inputs[i'..]) == RsiFormRun(values, idx, inputs[i..])
  {
    done, r, values', idx', i' := false, Pending, values, idx, i + 1;
    var key := ActionOf(inputs[i]);
    assert inputs[i..][1..] == inputs[i + 1..];
    if key == Up {
      idx' := MoveUp(idx, 2);
      assert idx' == Navigate(idx, 2, inputs[i]);
    } else if key == Down {
      idx' := MoveDown(idx, 2);
      assert idx' == Navigate(idx, 2, inputs[i]);
    } else if key == Enter {
      if i + 1 == |inputs| {
        return true, Pending, values, idx, i;
      }
      assert inputs[i..][2..] == inputs[i + 2..];
      values' := values[idx := EditText(values[idx], TypedText(inputs[i + 1]))];
      i' := i + 2;
    } else if key == Confirm {
      RsiConfirmation(values, idx, inputs[i..]);
      var checked := ValidateRsiBounds(values[0], values[1]);
      if checked.Ok? {
        return true, Answered(checked.value), values, idx, i;
      }
    } else if key == Cancel {
      return true, Cancelled, values, idx, i;
    }
  }

  /** `rsi_bounds_form(stdscr, defaults)`; `lower` and `upper` are the
      initial field values ("30" and "70" without defaults). */
  method RsiBoundsForm(lower: string, upper: string, inputs: seq<Input>) returns (r: Answer<RsiBounds>)
    ensures r == RsiFormRun([lower, upper], 0, inputs)
    ensures r.Answered? ==> 0 <= r.value.lower < r.value.upper <= 100
  {
    RsiFormAnswersValidBounds([lower, upper], 0, inputs);
    var values := [lower, upper];
    var idx := 0;
    var i := 0;
    while i < |inputs|
      invariant 0 <= i <= |inputs| && |values| == 2 && 0 <= idx < 2
      invariant RsiFormRun(values, idx, inputs[i..]) == RsiFormRun([lower, upper], 0, inputs)
      decreases |inputs| - i
    {
      var done;
      done, r, values, idx, i := RsiFormStep(values, idx, inputs, i);
      if done {
        return;
      }
    }
    return Pending;
  }

  // ---------------------------------------------------------------
  // stock_info_form
  // ---------------------------------------------------------------

  /** `stock_info_form` with field values `values` and the cursor on field
      `idx`, reading `inputs`. */
  function StockFormRun(values: seq<string>, idx: int, inputs: seq<Input>, isDate: string -> bool): Answer<StockInfo>
    requires |values| == StockFieldCount && 0 <= idx < StockFieldCount
    decreases |inputs|
  {
    if inputs == [] then Pending
    else match ActionOf(inputs[0])
      case Enter =>
        if idx == IntervalField then
          var p := SelectRun(IntervalStartIndex(values[IntervalField]), |Intervals|, inputs[1..]);
          match p.answer
          case Pending => Pending
          case Answered(k) => StockFormRun(values[IntervalField := Intervals[k]], idx, inputs[1 + p.used..], isDate)
          case Cancelled => StockFormRun(values, idx, inputs[1 + p.used..], isDate)
        else if |inputs| == 1 then Pending
        else StockFormRun(values[idx := EditText(values[idx], TypedText(inputs[1]))], idx, inputs[2..], isDate)
      case Confirm =>
        (match ValidateStockInfo(values, isDate)
         case Ok(info) => Answered(info)
         case Err(_) => StockFormRun(values, idx, inputs[1..], isDate))
      case Cancel => Cancelled
      case _ => StockFormRun(values, Navigate(idx, StockFieldCount, inputs[0]), inputs[1..], isDate)
  }

  /** Whatever the stock form returns is a value the validator accepted
      for some contents of the six fields. */
  lemma {:induction false} StockFormAnswersAccepted(values: seq<string>, idx: int, inputs: seq<Input>, isDate: string -> bool)
    requires |values| == StockFieldCount && 0 <= idx < StockFieldCount
    ensures var r := StockFormRun(values, idx, inputs, isDate);
            r.Answered? ==>
              exists fields :: |fields| == StockFieldCount && ValidateStockInfo(fields, isDate) == Ok(r.value)
    decreases |inputs|
  {
    if inputs != [] {
      match ActionOf(inputs[0])
      case Enter =>
        if idx == IntervalField {
          var p := SelectRun(IntervalStartIndex(values[IntervalField]), |Intervals|, inputs[1..]);
          match p.answer
          case Pending =>
          case Answered(k) =>
            StockFormAnswersAccepted(values[IntervalField := Intervals[k]], idx, inputs[1 + p.used..], isDate);
          case Cancelled =>
            StockFormAnswersAccepted(values, idx, inputs[1 + p.used..], isDate);
        } else if |inputs| > 1 {
          StockFormAnswersAccepted(values[idx := EditText(values[idx], TypedText(inputs[1]))], idx, inputs[2..], isDate);
        }
      case Confirm =>
        if ValidateStockInfo(values, isDate).Err? {
          StockFormAnswersAccepted(values, idx, inputs[1..], isDate);
        }
      case Cancel =>
      case _ =>
        StockFormAnswersAccepted(values, Navigate(idx, StockFieldCount, inputs[0]), inputs[1..], isDate);
    }
  }

  /** Whatever the stock form returns passed every check: a non-empty
      ticker, parsable dates, non-negative amounts and a known interval. */
  lemma StockFormAnswersValidated(values: seq<string>, idx: int, inputs: seq<Input>, isDate: string -> bool)
    requires |values| == StockFieldCount && 0 <= idx < StockFieldCount
    ensures var r := StockFormRun(values, idx, inputs, isDate);
            r.Answered? ==>
              r.value.ticker != [] && isDate(r.value.start) && isDate(r.value.end) &&
              r.value.capital >= 0 && r.value.monthly >= 0 && r.value.interval in Intervals
  {
    var r := StockFormRun(values, idx, inputs, isDate);
    if r.Answered? {
      StockFormAnswersAccepted(values, idx, inputs, isDate);
      var fields :| |fields| == StockFieldCount && ValidateStockInfo(fields, isDate) == Ok(r.value);
    }
  }

  /** R/r answers what the validator accepted; a confirmation it refuses
      leaves the stock form open with its values and cursor unchanged. */
  lemma StockConfirmation(values: seq<string>, idx: int, inputs: seq<Input>, isDate: string -> bool)
    requires |values| == StockFieldCount && 0 <= idx < StockFieldCount
    requires inputs != [] && ActionOf(inputs[0]) == Confirm
    ensures ValidateStockInfo(values, isDate).Ok? ==>
              StockFormRun(values, idx, inputs, isDate) == Answered(ValidateStockInfo(values, isDate).value)
    ensures ValidateStockInfo(values, isDate).Err? ==>
              StockFormRun(values, idx, inputs, isDate) == StockFormRun(values, idx, inputs[1..], isDate)
  {
  }

  /** Enter in `stock_info_form`: the interval field opens the interval
      picker and takes the interval picked; any other field takes the line
      typed at its edit prompt. */
  method StockFormEdit(values: seq<string>, idx: int, inputs: seq<Input>, i: nat, isDate: string -> bool)
    returns (done: bool, r: Answer<StockInfo>, values': seq<string>, i': nat)
    requires |values| == StockFieldCount && 0 <= idx < StockFieldCount && i < |inputs|
    requires ActionOf(inputs[i]) == Enter
    ensures done ==> r == StockFormRun(values, idx, inputs[i..], isDate)
    ensures !done ==> |values'| == StockFieldCount && i < i' <= |inputs| &&
                      StockFormRun(values', idx, inputs[i'..], isDate) == StockFormRun(values, idx, inputs[i..], isDate)
  {
    done, r, values', i' := false, Pending, values, i + 1;
    assert inputs[i..][1..] == inputs[i + 1..];
    if idx == IntervalField {
      var startIdx := IntervalStartIndex(values[IntervalField]);
      var chosen, used := SelectFromList(Intervals, startIdx, inputs[i + 1..]);
      if chosen.Pending? {
        return true, Pending, values, i;
      }
      assert inputs[i..][1 + used..] == inputs[i + 1 + used..];
      if chosen.Answered? {
        values' := values[IntervalField := chosen.value];
      }
      i' := i + 1 + used;
    } else {
      if i + 1 == |inputs| {
        return true, Pending, values, i;
      }
      assert inputs[i..][2..] == inputs[i + 2..];
      values' := values[idx := EditText(values[idx], TypedText(inputs[i + 1]))];
      i' := i + 2;
    }
  }

  /** One pass of the loop of `stock_info_form`: reads the key at `inputs[i]`
      (and, for Enter, what the edit prompt or the interval picker reads
      after it). Either the form returns `r`, or it goes on from the new
      values, cursor and position. */
  method StockFormStep(values: seq<string>, idx: int, inputs: seq<Input>, i: nat, isDate: string -> bool)
    returns (done: bool, r: Answer<StockInfo>, values': seq<string>, idx': int, i': nat)
    requires |values| == StockFieldCount && 0 <= idx < StockFieldCount && i < |inputs|
    ensures done ==> r == StockFormRun(values, idx, inputs[i..], isDate)
    ensures !done ==> |values'| == StockFieldCount && 0 <= idx' < StockFieldCount && i < i' <= |inputs| &&
                      StockFormRun(values', idx', inputs[i'..], isDate) == StockFormRun(values, idx, inputs[i..], isDate)
  {
    done, r, values', idx', i' := false, Pending, values, idx, i + 1;
    var key := ActionOf(inputs[i]);
    assert inputs[i..][1..] == inputs[i + 1..];
    if key == Up {
      idx' := MoveUp(idx, StockFieldCount);
    } else if key == Down {
      idx' := MoveDown(idx, StockFieldCount);
    } else if key == Enter {
      done, r, values', i' := StockFormEdit(values, idx, inputs, i, isDate);
    } else if key == Confirm {
      StockConfirmation(values, idx, inputs[i..], isDate);
      var checked := ValidateStockInfo(values, isDate);
      if checked.Ok? {
        return true, Answered(checked.value), values, idx, i;
      }
    } else if key == Cancel {
      return true, Cancelled, values, idx, i;
    }
  }

  /** `stock_info_form(stdscr, defaults)`; `initial` holds the starting
      field values. */
  method StockInfoForm(initial: seq<string>, inputs: seq<Input>, isDate: string -> bool) returns (r: Answer<StockInfo>)
    requires |initial| == StockFieldCount
    ensures r == StockFormRun(initial, 0, inputs, isDate)
  {
    var values := initial;
    var idx := 0;
    var i := 0;
    while i < |inputs|
      invariant 0 <= i <= |inputs| && |values| == StockFieldCount && 0 <= idx < StockFieldCount
      invariant StockFormRun(values, idx, inputs[i..], isDate) == StockFormRun(initial, 0, inputs, isDate)
      decreases |inputs| - i
    {
      var done;
      done, r, values, idx, i := StockFormStep(values, idx, inputs, i, isDate);
      if done {
        return;
      }
    }
    return Pending;
  }

  // ---------------------------------------------------------------
  // macd_bounds_form
  // ---------------------------------------------------------------

  /** `macd_bounds_form` with the cursor on entry `idx`: the two entries
      hold the strategy numbers 1 and 2, R/r returns the one under the
      cursor, and Enter has no branch of its own. */
  function MacdFormRun(idx: int, inputs: seq<Input>): Answer<int>
    requires 0 <= idx < 2
    decreases |inputs|
  {
    if inputs == [] then Pending
    else match ActionOf(inputs[0])
      case Confirm => Answered(idx + 1)
      case Cancel => Cancelled
      case _ => MacdFormRun(Navigate(idx, 2, inputs[0]), inputs[1..])
  }

  /** The MACD form answers strategy 1 or strategy 2, never anything else. */
  lemma {:induction false} MacdFormAnswersStrategy(idx: int, inputs: seq<Input>)
    requires 0 <= idx < 2
    ensures var r := MacdFormRun(idx, inputs);
            r.Answered? ==> r.value == 1 || r.value == 2
    decreases |inputs|
  {
    if inputs != [] && ActionOf(inputs[0]) != Confirm && ActionOf(inputs[0]) != Cancel {
      MacdFormAnswersStrategy(Navigate(idx, 2, inputs[0]), inputs[1..]);
    }
  }

  /** `macd_bounds_form(stdscr, defaults)` */
  method MacdBoundsForm(inputs: seq<Input>) returns (r: Answer<int>)
    ensures r == MacdFormRun(0, inputs)
    ensures r.Answered? ==> r.value == 1 || r.value == 2
  {
    MacdFormAnswersStrategy(0, inputs);
    var strategies := [1, 2];
    var idx := 0;
    var i := 0;
    while i < |inputs|
      invariant 0 <= i <= |inputs| && 0 <= idx < 2
      invariant MacdFormRun(idx, inputs[i..]) == MacdFormRun(0, inputs)
    {
      var key := ActionOf(inputs[i]);
      assert inputs[i..][1..] == inputs[i + 1..];
      if key == Up {
        idx := MoveUp(idx, 2);
      } else if key == Down {
        idx := MoveDown(idx, 2);
      } else if key == Confirm {
        return Answered(strategies[idx]);
      } else if key == Cancel {
        return Cancelled;
      }
      i := i + 1;
    }
    return Pending;
  }

  // ---------------------------------------------------------------
  // AI_prompt_form
  // ---------------------------------------------------------------

  /** `AI_prompt_form` with the prompt field holding `prompt`: a one-field
      form, so up and down leave the cursor where it is. */
  function PromptFormRun(prompt: string, inputs: seq<Input>): Answer<string>
    decreases |inputs|
  {
    if inputs == [] then Pending
    else match ActionOf(inputs[0])
      case Enter =>
        if |inputs| == 1 then Pending
        else PromptFormRun(EditText(prompt, TypedText(inputs[1])), inputs[2..])
      case Confirm => Answered(prompt)
      case Cancel => Cancelled
      case _ => PromptFormRun(prompt, inputs[1..])
  }

  /** `v` is, stripped, one of the lines typed among `inputs`. */
  predicate TypedAmong(v: string, inputs: seq<Input>)
  {
    exists j :: 0 <= j < |inputs| && v == Strip(TypedText(inputs[j]))
  }

  /** A line typed among the later inputs was typed among all of them. */
  lemma TypedAmongSuffix(v: string, inputs: seq<Input>, k: nat)
    requires k <= |inputs| && TypedAmong(v, inputs[k..])
    ensures TypedAmong(v, inputs)
  {
    var j :| 0 <= j < |inputs[k..]| && v == Strip(TypedText(inputs[k..][j]));
    assert inputs[k..][j] == inputs[j + k];
  }

  /** A prompt returned other than the initial one is, stripped, a line
      typed among the inputs. */
  lemma {:induction false} PromptFormAnswersTyped(prompt: string, inputs: seq<Input>)
    ensures var r := PromptFormRun(prompt, inputs);
            r.Answered? && r.value != prompt ==> TypedAmong(r.value, inputs)
    decreases |inputs|
  {
    if inputs != [] {
      var a := ActionOf(inputs[0]);
      if a == Enter {
        if |inputs| > 1 {
          var typed := TypedText(inputs[1]);
          var edited := EditText(prompt, typed);
          assert PromptFormRun(prompt, inputs) == PromptFormRun(edited, inputs[2..]);
          PromptFormAnswersTyped(edited, inputs[2..]);
          var r := PromptFormRun(edited, inputs[2..]);
          if r.Answered? && r.value != prompt {
            if r.value == edited {
              assert edited == Strip(typed);
              assert 0 <= 1 < |inputs| && r.value == Strip(TypedText(inputs[1]));
            } else {
              TypedAmongSuffix(r.value, inputs, 2);
            }
          }
        }
      } else if a != Confirm && a != Cancel {
        assert PromptFormRun(prompt, inputs) == PromptFormRun(prompt, inputs[1..]);
        PromptFormAnswersTyped(prompt, inputs[1..]);
        var r := PromptFormRun(prompt, inputs[1..]);
        if r.Answered? && r.value != prompt {
          TypedAmongSuffix(r.value, inputs, 1);
        }
      }
    }
  }

  /** A prompt returned other than the initial one is non-blank and
      stripped. */
  lemma {:induction false} PromptFormAnswersStripped(prompt: string, inputs: seq<Input>)
    ensures var r := PromptFormRun(prompt, inputs);
            r.Answered? ==> r.value == prompt || (r.value != [] && Strip(r.value) == r.value)
    decreases |inputs|
  {
    if inputs != [] {
      match ActionOf(inputs[0])
      case Enter =>
        if |inputs| > 1 {
          var edited := EditText(prompt, TypedText(inputs[1]));
          PromptFormAnswersStripped(edited, inputs[2..]);
        }
      case Confirm =>
      case Cancel =>
      case _ =>
        PromptFormAnswersStripped(prompt, inputs[1..]);
    }
  }

  /** The prompt returned is the initial one or a non-blank line the user
      typed, stripped. */
  lemma PromptFormAnswersTypedOrInitial(prompt: string, inputs: seq<Input>)
    ensures var r := PromptFormRun(prompt, inputs);
            r.Answered? ==> r.value == prompt ||
                            (r.value != [] && Strip(r.value) == r.value && TypedAmong(r.value, inputs))
  {
    PromptFormAnswersStripped(prompt, inputs);
    PromptFormAnswersTyped(prompt, inputs);
  }

  /** `AI_prompt_form(stdscr, defaults)`, starting from `prompt`. */
  method AiPromptForm(prompt: string, inputs: seq<Input>) returns (r: Answer<string>)
    ensures r == PromptFormRun(prompt, inputs)
  {
    var value := prompt;
    var idx := 0;
    var i := 0;
    while i < |inputs|
      invariant 0 <= i <= |inputs| && idx == 0
      invariant PromptFormRun(value, inputs[i..]) == PromptFormRun(prompt, inputs)
    {
      var key := ActionOf(inputs[i]);
      assert inputs[i..][1..] == inputs[i + 1..];
      if key == Up {
        idx := MoveUp(idx, 1);
      } else if key == Down {
        idx := MoveDown(idx, 1);
      } else if key == Enter {
        if i + 1 == |inputs| {
          return Pending;
        }
        assert inputs[i..][2..] == inputs[i + 2..];
        value := EditText(value, TypedText(inputs[i + 1]));
        i := i + 1;
      } else if key == Confirm {
        return Answered(value);
      } else if key == Cancel {
        return Cancelled;
      }
      i := i + 1;
    }
    return Pending;
  }
}
