/**
 * The create-timer screen's submit handler (`createTimer` in
 * app/createTimer.jsx): trim the inputs, default a blank category, reject a
 * blank name or a duration that is not a positive number, otherwise dispatch
 * one ADD_TIMER and clear the three fields.
 */
module CreateTimer {
  import TimerReducer

  // ---------------------------------------------------------------------------
  // String.prototype.trim
  // ---------------------------------------------------------------------------

  /**
   * The characters `trim` removes: ECMAScript's WhiteSpace (TAB, VT, FF,
   * ZWNBSP and every space separator) and LineTerminator (LF, CR, LS, PS).
   */
  predicate IsJsWhitespace(c: char) {
    c == '\t' || c == '\n' || c == '\U{000B}' || c == '\U{000C}' || c == '\r' || c == ' '
    || c == '\U{00A0}' || c == '\U{1680}' || ('\U{2000}' <= c <= '\U{200A}')
    || c == '\U{2028}' || c == '\U{2029}' || c == '\U{202F}' || c == '\U{205F}'
    || c == '\U{3000}' || c == '\U{FEFF}'
  }

  predicate AllWhitespace(s: string) {
    forall k :: 0 <= k < |s| ==> IsJsWhitespace(s[k])
  }

  /** Every character of `s` from index `lo` up to (not including) `hi` is whitespace. */
  predicate WhitespaceBetween(s: string, lo: int, hi: int)
    requires 0 <= lo <= hi <= |s|
  {
    forall k :: lo <= k < hi ==> IsJsWhitespace(s[k])
  }

  /** `s` without its leading whitespace: a suffix of `s` after whitespace only. */
  function TrimStart(s: string): (r: string)
    ensures |r| <= |s| && r == s[|s| - |r|..]
    ensures WhitespaceBetween(s, 0, |s| - |r|)
    ensures r == [] || !IsJsWhitespace(r[0])
  {
    if s != [] && IsJsWhitespace(s[0]) then
      var r := TrimStart(s[1..]);
      assert s[1..][|s| - 1 - |r|..] == s[|s| - |r|..];
      r
    else s
  }

  /** `s` without its trailing whitespace: a prefix of `s` before whitespace only. */
  function TrimEnd(s: string): (r: string)
    ensures |r| <= |s| && r == s[..|r|]
    ensures WhitespaceBetween(s, |r|, |s|)
    ensures r == [] || !IsJsWhitespace(r[|r| - 1])
  {
    if s != [] && IsJsWhitespace(s[|s| - 1]) then
      var r := TrimEnd(s[..|s| - 1]);
      assert s[..|s| - 1][..|r|] == s[..|r|];
      r
    else s
  }

  /**
   * `s.trim()`: empty exactly when `s` is all whitespace, otherwise neither
   * starting nor ending with whitespace (see `TrimIsSlice` for what it keeps).
   */
  function Trim(s: string): (r: string)
    ensures |r| <= |s|
    ensures r == [] <==> AllWhitespace(s)
    ensures r != [] ==> !IsJsWhitespace(r[0]) && !IsJsWhitespace(r[|r| - 1])
  {
    var a := TrimStart(s);
    var r := TrimEnd(a);
    TrimSlice(s, a, r);
    r
  }

  /** `r` is the slice of `s` at offset `i`, with only whitespace before and after it. */
  predicate TrimmedAt(s: string, r: string, i: int) {
    0 <= i <= i + |r| <= |s| && r == s[i..i + |r|]
    && WhitespaceBetween(s, 0, i) && WhitespaceBetween(s, i + |r|, |s|)
  }

  /** `trim` keeps one slice of its input and cuts off only whitespace on either side. */
  lemma TrimIsSlice(s: string)
    ensures exists i :: TrimmedAt(s, Trim(s), i)
  {
    var a := TrimStart(s);
    var r := TrimEnd(a);
    assert Trim(s) == r;
    TrimSlice(s, a, r);
    assert TrimmedAt(s, r, |s| - |a|);
  }

  lemma TrimSlice(s: string, a: string, r: string)
    requires |a| <= |s| && a == s[|s| - |a|..] && WhitespaceBetween(s, 0, |s| - |a|)
    requires |r| <= |a| && r == a[..|r|] && WhitespaceBetween(a, |r|, |a|)
    requires r == [] || !IsJsWhitespace(r[|r| - 1])
    requires a == [] || !IsJsWhitespace(a[0])
    ensures TrimmedAt(s, r, |s| - |a|)
    ensures r == [] <==> AllWhitespace(s)
    ensures r != [] ==> !IsJsWhitespace(r[0])
  {
    var i := |s| - |a|;
    assert forall k :: i <= k < |s| ==> s[k] == a[k - i];
    if r != [] {
      assert r[0] == a[0] == s[i];
    }
  }

  /** Trimming twice is trimming once. */
  lemma TrimIdempotent(s: string)
    ensures Trim(Trim(s)) == Trim(s)
  {
    var r := Trim(s);
    if r != [] {
      assert TrimStart(r) == r;
      assert TrimEnd(r) == r;
    }
  }

  // ---------------------------------------------------------------------------
  // Validation
  // ---------------------------------------------------------------------------

  /** What `Number(text)` produced: `NaN`, or a whole number. */
  datatype Parsed = NaN | Num(value: int)

  /** The two validation alerts, in the order they are checked. */
  datatype Rejection = EmptyName | InvalidDuration

  /** The ADD_TIMER payload `{ name, duration, category }`. */
  datatype NewTimer = NewTimer(name: string, duration: int, category: string) {
    /** The payload shape the reducer trusts. */
    predicate WellFormed() {
      name != [] && duration > 0 && category != []
    }
  }

  datatype Verdict = Accepted(timer: NewTimer) | Rejected(reason: Rejection)

  const DefaultCategory: string := "Uncategorized"

  /** `category.trim() || 'Uncategorized'`. */
  function NormalizeCategory(category: string): (r: string)
    ensures r != []
    ensures AllWhitespace(category) ==> r == DefaultCategory
    ensures !AllWhitespace(category) ==> r == Trim(category)
  {
    var trimmed := Trim(category);
    if trimmed == [] then DefaultCategory else trimmed
  }

  predicate IsValidDuration(p: Parsed) {
    p.Num? && p.value > 0
  }

  /**
   * The decision `createTimer` takes on the three field texts; `numberOf`
   * stands for JavaScript's `Number`. The name is checked before the
   * duration, so a blank name is the reason given even when the duration
   * is bad too.
   */
  function Validate(name: string, duration: string, category: string, numberOf: string -> Parsed): (v: Verdict)
    ensures v == Rejected(EmptyName) <==> AllWhitespace(name)
    ensures v == Rejected(InvalidDuration) <==> !AllWhitespace(name) && !IsValidDuration(numberOf(Trim(duration)))
    ensures v.Accepted? <==> !AllWhitespace(name) && IsValidDuration(numberOf(Trim(duration)))
    ensures v.Accepted? ==>
      && v.timer.WellFormed()
      && v.timer.name == Trim(name)
      && v.timer.duration == numberOf(Trim(duration)).value
      && v.timer.category == NormalizeCategory(category)
  {
    var trimmedName := Trim(name);
    var trimmedCategory := NormalizeCategory(category);
    var numericDuration := numberOf(Trim(duration));
    if trimmedName == [] then Rejected(EmptyName)
    else if !IsValidDuration(numericDuration) then Rejected(InvalidDuration)
    else Accepted(NewTimer(trimmedName, numericDuration.value, trimmedCategory))
  }

  /** The reducer action for an accepted payload, with the id and stamp drawn at dispatch. */
  function ToAction(p: NewTimer, freshId: string, createdAt: int): TimerReducer.Action {
    TimerReducer.AddTimer(p.name, p.duration, p.category, freshId, createdAt)
  }

  /**
   * Every accepted payload whose category the reducer can look up is an
   * ADD_TIMER it can trust: the timer it appends is in range, paused, with
   * its full duration left, under a non-empty category.
   */
  lemma AcceptedTimerIsInRange(v: Verdict, s: TimerReducer.State, freshId: string, createdAt: int)
    requires v.Accepted? && v.timer.WellFormed() && TimerReducer.Valid(s)
    requires !TimerReducer.FindsInherited(s.timers, v.timer.category)
    ensures TimerReducer.WellFormed(ToAction(v.timer, freshId, createdAt))
    ensures var s' := TimerReducer.Reduce(s, ToAction(v.timer, freshId, createdAt));
      && s'.Next? && TimerReducer.Valid(s'.state)
      && v.timer.category in s'.state.timers && s'.state.timers[v.timer.category].Some?
      && var list := s'.state.timers[v.timer.category].value;
      && list != []
      && list[|list| - 1].remaining == list[|list| - 1].duration == v.timer.duration > 0
      && list[|list| - 1].status == TimerReducer.Paused
  {
    var a := ToAction(v.timer, freshId, createdAt);
    TimerReducer.StepPreservesValid(s, a);
    TimerReducer.AddTimerAppends(s, v.timer.name, v.timer.duration, v.timer.category, freshId, createdAt);
  }

  /** Text with no whitespace at either end comes through `trim` unchanged. */
  lemma TrimKeeps(s: string)
    requires s != [] && !IsJsWhitespace(s[0]) && !IsJsWhitespace(s[|s| - 1])
    ensures Trim(s) == s
  {
    assert TrimStart(s) == s;
    assert TrimEnd(s) == s;
  }

  /**
   * The form lets the category `constructor` through with any valid name and
   * duration, and the reducer as written then throws on the ADD_TIMER it
   * dispatches, even in the initial state.
   */
  lemma ConstructorCategoryAccepted(name: string, duration: string, numberOf: string -> Parsed, freshId: string, createdAt: int)
    requires !AllWhitespace(name) && IsValidDuration(numberOf(Trim(duration)))
    ensures var v := Validate(name, duration, "constructor", numberOf);
      && v.Accepted? && v.timer.category == "constructor"
      && TimerReducer.Reduce(TimerReducer.InitialState, ToAction(v.timer, freshId, createdAt)) == TimerReducer.TypeError
  {
    var v := Validate(name, duration, "constructor", numberOf);
    ConstructorKeptByTrim();
    assert v.Accepted? && v.timer.category == "constructor";
    TimerReducer.ConstructorCategoryThrows(v.timer.name, v.timer.duration, freshId, createdAt);
  }

  lemma ConstructorKeptByTrim()
    ensures NormalizeCategory("constructor") == "constructor"
  {
    var category := "constructor";
    assert category[0] == 'c' && category[|category| - 1] == 'r';
    TrimKeeps(category);
  }

  // ---------------------------------------------------------------------------
  // The form
  // ---------------------------------------------------------------------------

  /**
   * The screen's three text fields and what the handler has sent out: the
   * payloads dispatched and the validation alerts shown.
   */
  class CreateTimerForm {
    var name: string
    var duration: string
    var category: string
    var dispatched: seq<NewTimer>
    var alerts: seq<Rejection>

    /** Every payload this form has dispatched is well formed. */
    ghost predicate Valid()
      reads this
    {
      forall k :: 0 <= k < |dispatched| ==> dispatched[k].WellFormed()
    }

    constructor ()
      ensures Valid()
      ensures name == "" && duration == "" && category == ""
      ensures dispatched == [] && alerts == []
    {
      name, duration, category := "", "", "";
      dispatched, alerts := [], [];
    }

    /** `onChangeText` of one of the three inputs. */
    method Edit(newName: string, newDuration: string, newCategory: string)
      requires Valid()
      modifies this
      ensures Valid()
      ensures name == newName && duration == newDuration && category == newCategory
      ensures dispatched == old(dispatched) && alerts == old(alerts)
    {
      name, duration, category := newName, newDuration, newCategory;
    }

    /**
     * `createTimer`: the trimming and checks of `Validate`, then its effects.
     * On a rejection, one alert and nothing else; on acceptance, exactly one
     * ADD_TIMER payload dispatched, then all three fields cleared.
     */
    method Submit(numberOf: string -> Parsed)
      requires Valid()
      modifies this
      ensures Valid()
      ensures match Validate(old(name), old(duration), old(category), numberOf)
        case Rejected(reason) =>
          && alerts == old(alerts) + [reason]
          && dispatched == old(dispatched)
          && name == old(name) && duration == old(duration) && category == old(category)
        case Accepted(p) =>
          && dispatched == old(dispatched) + [p]
          && alerts == old(alerts)
          && name == "" && duration == "" && category == ""
    {
      var verdict := Validate(name, duration, category, numberOf);
      match verdict
      case Rejected(reason) =>
        alerts := alerts + [reason];
      case Accepted(payload) =>
        dispatched := dispatched + [payload];
        name := "";
        duration := "";
        category := "";
    }
  }
}
