/**
  The text helpers of menu.py: `str.strip()`, `_safe_int` (Python `int()`
  on a stripped string) and `_edit_text` (an edited value that stays as it
  was when the typed line is blank). For `int()`, only an optional sign
  followed by ASCII digits is modelled.
*/
module MenuText {
  import opened Base

  /** The characters `str.strip()` removes: those for which Python's
      `str.isspace()` holds (the ASCII controls 9-13 and 28-31, the space,
      and the Unicode separators and spaces). */
  predicate IsSpace(c: char)
  {
    ('\t' <= c <= '\r') || ('\U{001C}' <= c <= ' ') ||
    c == '\U{0085}' || c == '\U{00A0}' || c == '\U{1680}' ||
    ('\U{2000}' <= c <= '\U{200A}') || c == '\U{2028}' || c == '\U{2029}' ||
    c == '\U{202F}' || c == '\U{205F}' || c == '\U{3000}'
  }

  predicate IsDigit(c: char)
  {
    '0' <= c <= '9'
  }

  predicate AllSpace(s: string)
  {
    forall i :: 0 <= i < |s| ==> IsSpace(s[i])
  }

  function TrimStart(s: string): (r: string)
    ensures |r| <= |s| && r == s[|s| - |r|..]
    ensures AllSpace(s[..|s| - |r|])
    ensures r != [] ==> !IsSpace(r[0])
  {
    if s != [] && IsSpace(s[0]) then
      var r := TrimStart(s[1..]);
      assert s[..|s| - |r|] == [s[0]] + s[1..][..|s| - 1 - |r|];
      r
    else s
  }

  function TrimEnd(s: string): (r: string)
    ensures |r| <= |s| && r == s[..|r|]
    ensures AllSpace(s[|r|..])
    ensures r != [] ==> !IsSpace(r[|r| - 1])
  {
    if s != [] && IsSpace(s[|s| - 1]) then
      var r := TrimEnd(s[..|s| - 1]);
      assert s[|r|..] == s[..|s| - 1][|r|..] + [s[|s| - 1]];
      r
    else s
  }

  /** `s.strip()`: `s` without its leading and trailing whitespace. */
  function Strip(s: string): (r: string)
    ensures |r| <= |s|
    ensures r != [] ==> !IsSpace(r[0]) && !IsSpace(r[|r| - 1])
  {
    TrimEnd(TrimStart(s))
  }

  /** What `strip()` removes is whitespace only, from both ends: the result
      is a slice of `s` with nothing but whitespace around it. */
  lemma StripRemovesOnlySpace(s: string)
    ensures exists i, j :: 0 <= i <= j <= |s| && Strip(s) == s[i..j] && AllSpace(s[..i]) && AllSpace(s[j..])
  {
    var t := TrimStart(s);
    var r := TrimEnd(t);
    var i := |s| - |t|;
    var j := i + |r|;
    assert r == s[i..j];
    assert s[j..] == t[|r|..];
  }

  /** A string that neither starts nor ends with whitespace is its own
      `strip()`. */
  lemma StripUnpadded(s: string)
    requires s != [] && !IsSpace(s[0]) && !IsSpace(s[|s| - 1])
    ensures Strip(s) == s
  {
    assert TrimStart(s) == s;
    assert TrimEnd(s) == s;
  }

  /** Stripping twice is the same as stripping once. */
  lemma StripIdempotent(s: string)
    ensures Strip(Strip(s)) == Strip(s)
  {
    var r := Strip(s);
    if r != [] {
      StripUnpadded(r);
    }
  }

  function DigitValue(c: char): (d: nat)
    requires IsDigit(c)
    ensures d <= 9
  {
    c as int - '0' as int
  }

  function DigitChar(d: nat): (c: char)
    requires d <= 9
    ensures IsDigit(c) && DigitValue(c) == d
  {
    ('0' as int + d) as char
  }

  predicate AllDigits(s: string)
  {
    forall i :: 0 <= i < |s| ==> IsDigit(s[i])
  }

  /** The value of a run of decimal digits, most significant first. */
  function DigitsValue(s: string): nat
    requires AllDigits(s)
  {
    if s == [] then 0 else DigitsValue(s[..|s| - 1]) * 10 + DigitValue(s[|s| - 1])
  }

  /** The decimal digits of `n`, without leading zeros. */
  function ShowNat(n: nat): (s: string)
    ensures s != [] && AllDigits(s)
  {
    if n < 10 then [DigitChar(n)] else ShowNat(n / 10) + [DigitChar(n % 10)]
  }

  /** `str(n)` for an integer. */
  function ShowInt(n: int): (s: string)
  {
    if n < 0 then "-" + ShowNat(-n) else ShowNat(n)
  }

  /** Python `int()` of a string that is already stripped: an optional sign
      followed by at least one digit. */
  function ParseInt(s: string): (r: Option<int>)
    ensures r.Some? <==> (s != [] && AllDigits(s)) ||
                         (|s| > 1 && (s[0] == '+' || s[0] == '-') && AllDigits(s[1..]))
    ensures r.Some? && s[0] == '-' ==> r.value == -(DigitsValue(s[1..]) as int)
    ensures r.Some? && s[0] == '+' ==> r.value == DigitsValue(s[1..])
    ensures r.Some? && IsDigit(s[0]) ==> r.value == DigitsValue(s)
  {
    if s == [] then None
    else if (s[0] == '-' || s[0] == '+') && |s| > 1 && AllDigits(s[1..]) then
      var magnitude: int := DigitsValue(s[1..]);
      Some(if s[0] == '-' then -magnitude else magnitude)
    else if AllDigits(s) then Some(DigitsValue(s))
    else None
  }

  /** `_safe_int(s)`: the integer `s` spells after stripping, or `None`
      (the default) when `int()` would raise. */
  function SafeInt(s: string): (r: Option<int>)
    ensures Strip(s) == [] ==> r.None?
  {
    ParseInt(Strip(s))
  }

  /** `_safe_int(s)` succeeds exactly when the stripped text is a run of
      ASCII digits, optionally after one sign, and then returns the value
      those digits spell with that sign; otherwise it returns `None`. */
  lemma SafeIntAccepts(s: string)
    ensures var t := Strip(s);
            SafeInt(s).Some? <==> (t != [] && AllDigits(t)) ||
                                  (|t| > 1 && (t[0] == '+' || t[0] == '-') && AllDigits(t[1..]))
    ensures var t := Strip(s);
            SafeInt(s).Some? ==>
              SafeInt(s).value == if t[0] == '-' then -(DigitsValue(t[1..]) as int)
                                  else if t[0] == '+' then DigitsValue(t[1..])
                                  else DigitsValue(t)
  {
  }

  /** `_edit_text`: the stripped typed line, or the initial value when that
      line is blank. */
  function EditText(initial: string, typed: string): (r: string)
    ensures Strip(typed) == [] ==> r == initial
    ensures Strip(typed) != [] ==> r == Strip(typed) && Strip(r) == r
  {
    StripIdempotent(typed);
    var s := Strip(typed);
    if s != [] then s else initial
  }

  lemma {:induction false} ShowNatValue(n: nat)
    ensures DigitsValue(ShowNat(n)) == n
  {
    if n >= 10 {
      ShowNatValue(n / 10);
      var s := ShowNat(n);
      assert s[..|s| - 1] == ShowNat(n / 10);
    }
  }

  lemma ParseShowInt(n: int)
    ensures ParseInt(ShowInt(n)) == Some(n)
  {
    var s := ShowInt(n);
    if n < 0 {
      ShowNatValue(-n);
      assert s[1..] == ShowNat(-n);
      assert s[0] == '-' && |s| > 1 && AllDigits(s[1..]);
    } else {
      ShowNatValue(n);
      assert !(s[0] == '-' || s[0] == '+');
    }
  }

  /** `int(str(n))` gives back `n`. */
  lemma SafeIntOfShowInt(n: int)
    ensures SafeInt(ShowInt(n)) == Some(n)
  {
    var s := ShowInt(n);
    assert IsDigit(s[|s| - 1]);
    assert s[0] == '-' || IsDigit(s[0]);
    StripUnpadded(s);
    ParseShowInt(n);
  }
}
