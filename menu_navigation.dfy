/**
  Cursor navigation of menu.py: the main menu (`menu`), the option picker
  (`_select_from_list`) and the cursor movement every form shares. The
  terminal is replaced by the sequence of inputs it would deliver: a key
  code per `getch()`, or a line of text typed at an edit prompt. When the
  inputs run out before the loop returns, the outcome is `Pending` (the
  program would still be waiting for a key).
*/
module MenuNavigation {

  /** One event read from the terminal. */
  datatype Input = Key(code: int) | Line(text: string)

  /** What a key means to the menu loops. */
  datatype KeyAction = Up | Down | Enter | Confirm | Cancel | Ignored

  /** How an interactive loop ended. */
  datatype Answer<+T> = Answered(value: T) | Cancelled | Pending

  // curses key codes and the ASCII codes the loops compare against
  const KeyUpCode := 259       // curses.KEY_UP
  const KeyDownCode := 258     // curses.KEY_DOWN
  const KeyEnterCode := 343    // curses.KEY_ENTER
  const EscapeCode := 27

  /** The five entries of the main menu; the last one is "Quit". */
  const Options: seq<string> := [
    "Run RSI trading strategy",
    "Run MACD trading strategy",
    "(new)Create your own trading strategy with AI",
    "Let AI control your portfolio (coming soon)",
    "Quit"
  ]

  /** Classifies a key code the way every loop of the menu does:
      arrow keys and k/j move, Enter (KEY_ENTER, LF or CR) selects,
      r/R confirms a form, Esc or q cancels. */
  function Classify(code: int): KeyAction
  {
    if code == KeyUpCode || code == 'k' as int then Up
    else if code == KeyDownCode || code == 'j' as int then Down
    else if code == KeyEnterCode || code == 10 || code == 13 then Enter
    else if code == 'r' as int || code == 'R' as int then Confirm
    else if code == EscapeCode || code == 'q' as int then Cancel
    else Ignored
  }

  /** A typed line where a key is expected matches no branch of a loop. */
  function ActionOf(input: Input): KeyAction
  {
    match input
    case Key(code) => Classify(code)
    case Line(_) => Ignored
  }

  /** `(idx - 1) % n` with Python's floored modulo. */
  function MoveUp(idx: int, n: int): (r: int)
    requires n > 0
    ensures 0 <= r < n
    ensures 0 <= idx < n ==> r == if idx == 0 then n - 1 else idx - 1
  {
    (idx - 1) % n
  }

  /** `(idx + 1) % n` */
  function MoveDown(idx: int, n: int): (r: int)
    requires n > 0
    ensures 0 <= r < n
    ensures 0 <= idx < n ==> r == if idx == n - 1 then 0 else idx + 1
  {
    (idx + 1) % n
  }

  /** Moving up then down, or down then up, returns to the same entry. */
  lemma UpDownCancel(idx: int, n: int)
    requires 0 <= idx < n
    ensures MoveDown(MoveUp(idx, n), n) == idx
    ensures MoveUp(MoveDown(idx, n), n) == idx
  {
  }

  /** The cursor after one input; keys other than up and down leave it. */
  function Navigate(idx: int, n: int, input: Input): (r: int)
    requires 0 <= idx < n
    ensures 0 <= r < n
  {
    match ActionOf(input)
    case Up => MoveUp(idx, n)
    case Down => MoveDown(idx, n)
    case _ => idx
  }

  /** The cursor after a run of inputs. */
  function CursorAfter(idx: int, n: int, inputs: seq<Input>): (r: int)
    requires 0 <= idx < n
    ensures 0 <= r < n
    decreases |inputs|
  {
    if inputs == [] then idx else CursorAfter(Navigate(idx, n, inputs[0]), n, inputs[1..])
  }

  function CountAction(inputs: seq<Input>, a: KeyAction): nat
  {
    if inputs == [] then 0
    else (if ActionOf(inputs[0]) == a then 1 else 0) + CountAction(inputs[1..], a)
  }

  /** `a` brought into [0, n) by adding or subtracting `n`. */
  function Wrap(a: int, n: int): (r: int)
    requires n > 0
    ensures 0 <= r < n
    decreases if a < 0 then n - a else a
  {
    if a < 0 then Wrap(a + n, n) else if a >= n then Wrap(a - n, n) else a
  }

  lemma WrapPlusN(a: int, n: int)
    requires n > 0
    ensures Wrap(a + n, n) == Wrap(a, n)
  {
  }

  lemma {:induction false} WrapOfWrapped(a: int, b: int, n: int)
    requires n > 0
    ensures Wrap(Wrap(a, n) + b, n) == Wrap(a + b, n)
    decreases if a < 0 then n - a else a
  {
    if a < 0 {
      WrapOfWrapped(a + n, b, n);
      WrapPlusN(a + b, n);
    } else if a >= n {
      WrapOfWrapped(a - n, b, n);
      WrapPlusN(a - n + b, n);
    }
  }

  /** The cursor only counts presses: it ends at the start index plus the
      downs minus the ups, wrapped into the range of entries. */
  lemma {:induction false} CursorClosedForm(idx: int, n: int, inputs: seq<Input>)
    requires 0 <= idx < n
    ensures CursorAfter(idx, n, inputs) ==
            Wrap(idx + CountAction(inputs, Down) - CountAction(inputs, Up), n)
    decreases |inputs|
  {
    if inputs == [] {
    } else {
      var rest := inputs[1..];
      var next := Navigate(idx, n, inputs[0]);
      CursorClosedForm(next, n, rest);
      var d := CountAction(rest, Down) - CountAction(rest, Up);
      match ActionOf(inputs[0])
      case Up =>
        assert next == Wrap(idx - 1, n);
        WrapOfWrapped(idx - 1, d, n);
      case Down =>
        assert next == Wrap(idx + 1, n);
        WrapOfWrapped(idx + 1, d, n);
      case _ =>
    }
  }

  /** How a picker loop ended, and how many inputs it read. */
  datatype Picking = Picking(answer: Answer<int>, used: nat)

  /** The loop shared by `menu` and `_select_from_list`: move on up/down,
      answer the cursor on Enter, cancel on Esc/q, ignore everything else. */
  function SelectRun(idx: int, n: int, inputs: seq<Input>): (p: Picking)
    requires 0 <= idx < n
    ensures p.used <= |inputs|
    ensures p.answer.Answered? ==> 0 <= p.answer.value < n
    ensures p.answer.Pending? ==> p.used == |inputs|
    ensures !p.answer.Pending? ==> 1 <= p.used
    decreases |inputs|
  {
    if inputs == [] then Picking(Pending, 0)
    else match ActionOf(inputs[0])
      case Enter => Picking(Answered(idx), 1)
      case Cancel => Picking(Cancelled, 1)
      case _ =>
        var p := SelectRun(Navigate(idx, n, inputs[0]), n, inputs[1..]);
        Picking(p.answer, p.used + 1)
  }

  /** Enter or Esc/q: the keys that end a picker loop. */
  predicate EndsPicker(input: Input)
  {
    ActionOf(input) == Enter || ActionOf(input) == Cancel
  }

  /** The picker ends at the first Enter or Esc/q: Enter answers the entry
      the earlier presses moved the cursor to, Esc/q cancels; without such
      a key it is still waiting after reading everything. */
  lemma {:induction false} SelectRunOutcome(idx: int, n: int, inputs: seq<Input>, k: nat)
    requires 0 <= idx < n && k <= |inputs|
    requires forall j :: 0 <= j < k ==> !EndsPicker(inputs[j])
    requires k < |inputs| ==> EndsPicker(inputs[k])
    ensures k == |inputs| ==> SelectRun(idx, n, inputs) == Picking(Pending, k)
    ensures k < |inputs| && ActionOf(inputs[k]) == Enter ==>
              SelectRun(idx, n, inputs) == Picking(Answered(CursorAfter(idx, n, inputs[..k])), k + 1)
    ensures k < |inputs| && ActionOf(inputs[k]) == Cancel ==>
              SelectRun(idx, n, inputs) == Picking(Cancelled, k + 1)
    decreases k
  {
    if k > 0 {
      var rest := inputs[1..];
      forall j | 0 <= j < k - 1 ensures !EndsPicker(rest[j]) {
        assert rest[j] == inputs[j + 1];
      }
      SelectRunOutcome(Navigate(idx, n, inputs[0]), n, rest, k - 1);
      assert inputs[..k][1..] == rest[..k - 1];
    }
  }

  /** `menu`: the main menu loop, starting on the first entry. Enter picks
      the entry under the cursor; Esc/q picks "Quit", the last entry. */
  method MainMenu(inputs: seq<Input>) returns (choice: Answer<int>)
    ensures var p := SelectRun(0, |Options|, inputs).answer;
            choice == if p.Cancelled? then Answered(|Options| - 1) else p
    ensures choice.Answered? ==> 0 <= choice.value < |Options|
    ensures !choice.Cancelled?
  {
    var n := |Options|;
    ghost var whole := SelectRun(0, n, inputs);
    var idx := 0;
    var i := 0;
    while i < |inputs|
      invariant 0 <= i <= |inputs| && 0 <= idx < n
      invariant SelectRun(idx, n, inputs[i..]).answer == whole.answer
    {
      var key := ActionOf(inputs[i]);
      assert inputs[i..][1..] == inputs[i + 1..];
      if key == Up {
        idx := MoveUp(idx, n);
      } else if key == Down {
        idx := MoveDown(idx, n);
      } else if key == Enter {
        return Answered(idx);
      } else if key == Cancel {
        return Answered(n - 1);
      }
      i := i + 1;
    }
    return Pending;
  }

  /** `_select_from_list`: pick one of `options`, starting at `startIdx`.
      Also returns how many inputs the picker read. */
  method SelectFromList(options: seq<string>, startIdx: int, inputs: seq<Input>)
    returns (r: Answer<string>, used: nat)
    requires 0 <= startIdx < |options|
    ensures var p := SelectRun(startIdx, |options|, inputs);
            used == p.used &&
            r == match p.answer
                 case Answered(k) => Answered(options[k])
                 case Cancelled => Cancelled
                 case Pending => Pending
  {
    var n := |options|;
    ghost var whole := SelectRun(startIdx, n, inputs);
    var idx := startIdx;
    var i := 0;
    while i < |inputs|
      invariant 0 <= i <= |inputs| && 0 <= idx < n
      invariant SelectRun(idx, n, inputs[i..]).answer == whole.answer
      invariant SelectRun(idx, n, inputs[i..]).used + i == whole.used
    {
      var key := ActionOf(inputs[i]);
      assert inputs[i..][1..] == inputs[i + 1..];
      if key == Up {
        idx := MoveUp(idx, n);
      } else if key == Down {
        idx := MoveDown(idx, n);
      } else if key == Enter {
        return Answered(options[idx]), i + 1;
      } else if key == Cancel {
        return Cancelled, i + 1;
      }
      i := i + 1;
    }
    return Pending, i;
  }
}
