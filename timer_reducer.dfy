/**
 * The timer store's state-transition function (`reducer` in context/AppContext.js).
 *
 * State is a map from category name to an ordered list of timers, plus a
 * history list. The reducer is pure: every case builds a new state. The
 * fresh id (`uuid.v4()`) and the creation stamp (`Date.now()`) that the
 * source draws inside ADD_TIMER are carried by the action here.
 */
module TimerReducer {
  import opened Common

  /** `'running'`, `'paused'`, or any other status string a loaded timer may carry. */
  datatype Status = Running | Paused | Other

  datatype Timer = Timer(
    id: string,
    name: string,
    duration: int,
    remaining: int,
    status: Status,
    createdAt: int)

  /** A history entry; the reducer never builds one, it only loads them. */
  datatype Entry = Entry(timer: Timer, completedAt: int)

  /**
   * Category name to its slot. `Some(list)` is an array of timers;
   * `None` is a key whose value is `undefined`, which only a bulk action on
   * a missing category creates.
   */
  type Categories = map<string, Option<seq<Timer>>>

  datatype State = State(timers: Categories, history: seq<Entry>)

  /** `initialState`: no categories, empty history. */
  const InitialState: State := State(map[], [])

  /** The per-timer update shared by the single-timer and the bulk actions. */
  datatype Change = Start | Pause | Reset

  datatype Action =
    | LoadState(loadedTimers: Option<Categories>, loadedHistory: Option<seq<Entry>>)
    | AddTimer(name: string, duration: int, category: string, freshId: string, createdAt: int)
    | StartTimer(category: string, id: string)
    | PauseTimer(category: string, id: string)
    | ResetTimer(category: string, id: string)
    | Tick
    | StartAllInCategory(category: string)
    | PauseAllInCategory(category: string)
    | ResetAllInCategory(category: string)
    | Unrecognized(kind: string)  // any `type` string other than the nine above (see `KnownType`)

  /** The reducer either returns a state or throws (`undefined.map` in TICK). */
  datatype Reduced = Next(state: State) | TypeError

  /** The fields no action ever changes. */
  predicate SameIdentity(a: Timer, b: Timer) {
    a.id == b.id && a.name == b.name && a.duration == b.duration && a.createdAt == b.createdAt
  }

  /** One timer under START/PAUSE/RESET (single or bulk). */
  function Apply(c: Change, t: Timer): (r: Timer)
    ensures SameIdentity(t, r)
    ensures r.status == (if c == Start then Running else Paused)
    ensures r.remaining == (if c == Reset then t.duration else t.remaining)
  {
    match c
    case Start => t.(status := Running)
    case Pause => t.(status := Paused)
    case Reset => t.(remaining := t.duration, status := Paused)
  }

  /** `timersInCategory.map(t => t.id !== id ? t : ...)`: every timer with a matching id is changed. */
  function UpdateMatching(ts: seq<Timer>, id: string, c: Change): (r: seq<Timer>)
    ensures |r| == |ts|
    ensures forall i :: 0 <= i < |ts| ==> r[i] == (if ts[i].id == id then Apply(c, ts[i]) else ts[i])
  {
    if ts == [] then []
    else [if ts[0].id == id then Apply(c, ts[0]) else ts[0]] + UpdateMatching(ts[1..], id, c)
  }

  /** `state.timers[category]?.map(...)` for a defined list: every timer is changed. */
  function UpdateAll(ts: seq<Timer>, c: Change): (r: seq<Timer>)
    ensures |r| == |ts|
    ensures forall i :: 0 <= i < |ts| ==> r[i] == Apply(c, ts[i])
  {
    if ts == [] then [] else [Apply(c, ts[0])] + UpdateAll(ts[1..], c)
  }

  /**
   * One timer under TICK: a running timer above 0 counts down; a running
   * timer at exactly 0 is paused; anything else (including a running timer
   * with a negative remaining) is kept.
   */
  function TickTimer(t: Timer): (r: Timer)
    ensures SameIdentity(t, r)
    ensures r.remaining == (if t.status == Running && t.remaining > 0 then t.remaining - 1 else t.remaining)
    ensures r.status == (if t.status == Running && t.remaining == 0 then Paused else t.status)
  {
    if t.status == Running && t.remaining > 0 then t.(remaining := t.remaining - 1)
    else if t.status == Running && t.remaining == 0 then t.(status := Paused)
    else t
  }

  /** `timers.map(tick)` over one category. */
  function TickList(ts: seq<Timer>): (r: seq<Timer>)
    ensures |r| == |ts|
    ensures forall i :: 0 <= i < |ts| ==> r[i] == TickTimer(ts[i])
  {
    if ts == [] then [] else [TickTimer(ts[0])] + TickList(ts[1..])
  }

  /** True when no category holds `undefined`. */
  predicate Defined(m: Categories) {
    forall c :: c in m ==> m[c].Some?
  }

  /** TICK's `forEach` over `Object.entries`: throws on an `undefined` slot. */
  function TickCategories(m: Categories): Option<Categories> {
    if Defined(m) then Some(map c | c in m :: Some(TickList(m[c].value)))
    else None
  }

  /** `timers[category] || []`. */
  function ListOf(m: Categories, category: string): seq<Timer> {
    if category in m && m[category].Some? then m[category].value else []
  }

  /** The bulk case's new slot: `undefined` unless the category holds a list. */
  function BulkSlot(m: Categories, category: string, c: Change): Option<seq<Timer>> {
    if category in m && m[category].Some? then Some(UpdateAll(m[category].value, c)) else None
  }

  /**
   * The names every plain object inherits from `Object.prototype`. Looking
   * one of them up on `state.timers` when it is not an own key finds a
   * method (for `__proto__`, the prototype object itself): truthy, not
   * iterable and without a `map`.
   */
  predicate IsInheritedName(name: string) {
    || name == "constructor" || name == "hasOwnProperty" || name == "isPrototypeOf"
    || name == "propertyIsEnumerable" || name == "toLocaleString" || name == "toString"
    || name == "valueOf" || name == "__proto__" || name == "__defineGetter__"
    || name == "__defineSetter__" || name == "__lookupGetter__" || name == "__lookupSetter__"
  }

  /** `timers[category]` finds an inherited member instead of a list or `undefined`. */
  predicate FindsInherited(m: Categories, category: string) {
    category !in m && IsInheritedName(category)
  }

  /** The actions that look their category up in `state.timers`. */
  predicate NamesCategory(a: Action) {
    a.AddTimer? || a.StartTimer? || a.PauseTimer? || a.ResetTimer?
    || a.StartAllInCategory? || a.PauseAllInCategory? || a.ResetAllInCategory?
  }

  /**
   * `reducer` as written. A category lookup that finds an inherited member
   * throws: `[...fn]` in ADD_TIMER, `fn.map` in the single-timer actions and
   * `fn?.map(...)` in the bulk actions. Otherwise it is `ReduceOwnKeys`.
   */
  function Reduce(s: State, a: Action): Reduced {
    if NamesCategory(a) && FindsInherited(s.timers, a.category) then TypeError
    else ReduceOwnKeys(s, a)
  }

  /**
   * The reducer with categories looked up among the map's own keys only:
   * every case as written, and an unknown category is simply missing.
   */
  function ReduceOwnKeys(s: State, a: Action): Reduced {
    match a
    case LoadState(ts, h) =>
      Next(State(ts.GetOr(map[]), h.GetOr([])))
    case AddTimer(name, duration, category, freshId, createdAt) =>
      var t := Timer(freshId, name, duration, duration, Paused, createdAt);
      Next(s.(timers := s.timers[category := Some(ListOf(s.timers, category) + [t])]))
    case StartTimer(category, id) =>
      Next(s.(timers := s.timers[category := Some(UpdateMatching(ListOf(s.timers, category), id, Start))]))
    case PauseTimer(category, id) =>
      Next(s.(timers := s.timers[category := Some(UpdateMatching(ListOf(s.timers, category), id, Pause))]))
    case ResetTimer(category, id) =>
      Next(s.(timers := s.timers[category := Some(UpdateMatching(ListOf(s.timers, category), id, Reset))]))
    case Tick =>
      (match TickCategories(s.timers)
       case Some(m) => Next(s.(timers := m))
       case None => TypeError)
    case StartAllInCategory(category) =>
      Next(s.(timers := s.timers[category := BulkSlot(s.timers, category, Start)]))
    case PauseAllInCategory(category) =>
      Next(s.(timers := s.timers[category := BulkSlot(s.timers, category, Pause)]))
    case ResetAllInCategory(category) =>
      Next(s.(timers := s.timers[category := BulkSlot(s.timers, category, Reset)]))
    case Unrecognized(_) =>
      Next(s)
  }

  /** The single-timer action that applies `c`. */
  function SingleAction(c: Change, category: string, id: string): Action {
    match c
    case Start => StartTimer(category, id)
    case Pause => PauseTimer(category, id)
    case Reset => ResetTimer(category, id)
  }

  /** The bulk action that applies `c`. */
  function BulkAction(c: Change, category: string): Action {
    match c
    case Start => StartAllInCategory(category)
    case Pause => PauseAllInCategory(category)
    case Reset => ResetAllInCategory(category)
  }

  // ---------------------------------------------------------------------------
  // LOAD_STATE, unknown actions, history
  // ---------------------------------------------------------------------------

  /** LOAD_STATE replaces both parts with the payload, defaulting to `{}` and `[]`. */
  lemma LoadStateReplaces(s: State, ts: Option<Categories>, h: Option<seq<Entry>>)
    ensures Reduce(s, LoadState(ts, h)).Next?
    ensures ts.Some? ==> Reduce(s, LoadState(ts, h)).state.timers == ts.value
    ensures ts.None? ==> Reduce(s, LoadState(ts, h)).state.timers == map[]
    ensures h.Some? ==> Reduce(s, LoadState(ts, h)).state.history == h.value
    ensures h.None? ==> Reduce(s, LoadState(ts, h)).state.history == []
  {
  }

  /** Reloading a saved state with LOAD_STATE gives that state back, whatever the current one. */
  lemma ReloadRestores(current: State, saved: State)
    ensures Reduce(current, LoadState(Some(saved.timers), Some(saved.history))) == Next(saved)
  {
  }

  /** An action type the reducer does not know returns the state unchanged. */
  /** The nine action type strings the reducer has a case for. */
  predicate KnownType(kind: string) {
    || kind == "LOAD_STATE" || kind == "ADD_TIMER" || kind == "START_TIMER"
    || kind == "PAUSE_TIMER" || kind == "RESET_TIMER" || kind == "TICK"
    || kind == "START_ALL_IN_CATEGORY" || kind == "PAUSE_ALL_IN_CATEGORY"
    || kind == "RESET_ALL_IN_CATEGORY"
  }

  lemma UnrecognizedKeepsState(s: State, kind: string)
    requires !KnownType(kind)
    ensures Reduce(s, Unrecognized(kind)) == Next(s)
  {
  }

  /** LOAD_STATE is the only action that can change `history`. */
  lemma OnlyLoadStateChangesHistory(s: State, a: Action)
    requires !a.LoadState?
    ensures Reduce(s, a).Next? ==> Reduce(s, a).state.history == s.history
  {
  }

  // ---------------------------------------------------------------------------
  // ADD_TIMER
  // ---------------------------------------------------------------------------

  /**
   * ADD_TIMER appends exactly one paused timer with a full countdown at the
   * end of its category's list (creating the category, or replacing an
   * `undefined` slot); nothing else changes.
   */
  lemma AddTimerAppends(s: State, name: string, duration: int, category: string, freshId: string, createdAt: int)
    requires !FindsInherited(s.timers, category)
    ensures Reduce(s, AddTimer(name, duration, category, freshId, createdAt)).Next?
    ensures var s' := Reduce(s, AddTimer(name, duration, category, freshId, createdAt)).state;
      && s'.history == s.history
      && s'.timers.Keys == s.timers.Keys + {category}
      && (forall c :: c in s.timers && c != category ==> s'.timers[c] == s.timers[c])
      && s'.timers[category].Some?
      && var before, after := ListOf(s.timers, category), s'.timers[category].value;
      && |after| == |before| + 1
      && after[..|before|] == before
      && after[|before|] == Timer(freshId, name, duration, duration, Paused, createdAt)
  {
    var s' := Reduce(s, AddTimer(name, duration, category, freshId, createdAt)).state;
    var before := ListOf(s.timers, category);
    assert s'.timers[category].value == before + [Timer(freshId, name, duration, duration, Paused, createdAt)];
  }

  // ---------------------------------------------------------------------------
  // START_TIMER / PAUSE_TIMER / RESET_TIMER
  // ---------------------------------------------------------------------------

  /**
   * A single-timer action changes exactly the timers of the named category
   * whose id matches, keeps the list's length and order, creates a missing
   * (or `undefined`) category as an empty list, and leaves other categories
   * and the history alone.
   */
  lemma SingleTimerActionFrame(s: State, c: Change, category: string, id: string)
    requires !FindsInherited(s.timers, category)
    ensures Reduce(s, SingleAction(c, category, id)).Next?
    ensures var s' := Reduce(s, SingleAction(c, category, id)).state;
      && s'.history == s.history
      && s'.timers.Keys == s.timers.Keys + {category}
      && (forall k :: k in s.timers && k != category ==> s'.timers[k] == s.timers[k])
      && s'.timers[category].Some?
      && var before, after := ListOf(s.timers, category), s'.timers[category].value;
      && (before == [] ==> after == [])
      && |after| == |before|
      && forall i :: 0 <= i < |before| ==>
           if before[i].id == id then after[i] == Apply(c, before[i]) else after[i] == before[i]
  {
  }

  /** RESET_TIMER restores a full, paused countdown on every matching timer, whatever its prior state. */
  lemma ResetTimerRestores(s: State, category: string, id: string, i: int)
    requires !FindsInherited(s.timers, category)
    requires 0 <= i < |ListOf(s.timers, category)|
    requires ListOf(s.timers, category)[i].id == id
    ensures var s' := Reduce(s, ResetTimer(category, id)).state;
      && var t, t' := ListOf(s.timers, category)[i], s'.timers[category].value[i];
      && t'.remaining == t.duration && t'.status == Paused && SameIdentity(t, t')
  {
    SingleTimerActionFrame(s, Reset, category, id);
    assert SingleAction(Reset, category, id) == ResetTimer(category, id);
  }

  // ---------------------------------------------------------------------------
  // Bulk actions
  // ---------------------------------------------------------------------------

  /**
   * A bulk action applies the same change to every timer of a category that
   * holds a list (timers at 0 included); on a missing or `undefined`
   * category it stores `undefined`. Other categories and history are kept.
   */
  lemma BulkActionFrame(s: State, c: Change, category: string)
    requires !FindsInherited(s.timers, category)
    ensures Reduce(s, BulkAction(c, category)).Next?
    ensures var s' := Reduce(s, BulkAction(c, category)).state;
      && s'.history == s.history
      && s'.timers.Keys == s.timers.Keys + {category}
      && (forall k :: k in s.timers && k != category ==> s'.timers[k] == s.timers[k])
      && (category in s.timers && s.timers[category].Some? <==> s'.timers[category].Some?)
      && (s'.timers[category].Some? ==>
            var before, after := s.timers[category].value, s'.timers[category].value;
            |after| == |before| && forall i :: 0 <= i < |before| ==> after[i] == Apply(c, before[i]))
  {
  }

  // ---------------------------------------------------------------------------
  // TICK
  // ---------------------------------------------------------------------------

  /**
   * TICK succeeds exactly when no category holds `undefined`; then it keeps
   * the category keys, every list's length and each timer's identity,
   * applies the per-timer countdown, and keeps the history.
   */
  lemma TickFrame(s: State)
    ensures Reduce(s, Tick).Next? <==> Defined(s.timers)
    ensures Reduce(s, Tick).Next? ==>
      var s' := Reduce(s, Tick).state;
      && s'.history == s.history
      && s'.timers.Keys == s.timers.Keys
      && forall c :: c in s.timers ==>
           && s'.timers[c].Some?
           && |s'.timers[c].value| == |s.timers[c].value|
           && forall i :: 0 <= i < |s.timers[c].value| ==>
                && s'.timers[c].value[i] == TickTimer(s.timers[c].value[i])
                && SameIdentity(s.timers[c].value[i], s'.timers[c].value[i])
  {
  }

  /** `t` after `k` ticks. */
  function TickTimes(t: Timer, k: nat): Timer
    decreases k
  {
    if k == 0 then t else TickTimes(TickTimer(t), k - 1)
  }

  /** A timer that is not running is left exactly as it is by any number of ticks. */
  lemma {:induction false} NotRunningIsFrozen(t: Timer, k: nat)
    requires t.status != Running
    ensures TickTimes(t, k) == t
  {
    if k > 0 {
      assert TickTimer(t) == t;
      NotRunningIsFrozen(t, k - 1);
    }
  }

  /**
   * A running timer with `n` seconds left reaches 0 after `n` ticks and is
   * still running; the next tick pauses it at 0, and later ticks keep it so.
   */
  lemma {:induction false} Countdown(t: Timer, n: nat, extra: nat)
    requires t.status == Running && t.remaining == n
    ensures TickTimes(t, n) == t.(remaining := 0)
    ensures TickTimes(t, n + 1 + extra) == t.(remaining := 0, status := Paused)
    decreases n
  {
    if n == 0 {
      assert TickTimes(t, 0) == t;
      var p := t.(status := Paused);
      assert TickTimer(t) == p;
      NotRunningIsFrozen(p, extra);
    } else {
      var t1 := TickTimer(t);
      assert t1 == t.(remaining := n - 1);
      Countdown(t1, n - 1, extra);
      assert t1.(remaining := 0) == t.(remaining := 0);
    }
  }

  // ---------------------------------------------------------------------------
  // Invariants preserved by every action
  // ---------------------------------------------------------------------------

  /** A timer with a positive duration whose countdown is in range. */
  predicate TimerOk(t: Timer) {
    t.duration > 0 && 0 <= t.remaining <= t.duration
  }

  predicate ListOk(ts: seq<Timer>) {
    forall i :: 0 <= i < |ts| ==> TimerOk(ts[i])
  }

  /** Every timer in every defined list is in range. */
  predicate Valid(s: State) {
    forall c :: c in s.timers && s.timers[c].Some? ==> ListOk(s.timers[c].value)
  }

  /** What the reducer trusts its caller for: a positive duration, and in-range loaded timers. */
  predicate WellFormed(a: Action) {
    match a
    case AddTimer(_, duration, _, _, _) => duration > 0
    case LoadState(ts, _) => ts.None? || Valid(State(ts.value, []))
    case _ => true
  }

  lemma ApplyKeepsOk(c: Change, t: Timer)
    requires TimerOk(t)
    ensures TimerOk(Apply(c, t))
  {
  }

  lemma TickKeepsOk(t: Timer)
    requires TimerOk(t)
    ensures TimerOk(TickTimer(t))
  {
  }

  /** The initial state is in range and has no `undefined` category. */
  lemma InitialStateOk()
    ensures Valid(InitialState) && Defined(InitialState.timers)
  {
  }

  /** Every well-formed action keeps `0 <= remaining <= duration` with `duration > 0` for every timer. */
  lemma StepPreservesValid(s: State, a: Action)
    requires Valid(s) && WellFormed(a)
    ensures Reduce(s, a).Next? ==> Valid(Reduce(s, a).state)
  {
    OwnKeysPreserveValid(s, a);
  }

  /** The same for own-key lookup, case by case. */
  lemma OwnKeysPreserveValid(s: State, a: Action)
    requires Valid(s) && WellFormed(a)
    ensures ReduceOwnKeys(s, a).Next? ==> Valid(ReduceOwnKeys(s, a).state)
  {
    var m := s.timers;
    match a
    case LoadState(ts, h) =>
    case AddTimer(_, _, category, _, _) =>
    case StartTimer(category, id) =>
      ListOfOk(s, category);
      UpdateMatchingKeepsOk(ListOf(m, category), id, Start);
    case PauseTimer(category, id) =>
      ListOfOk(s, category);
      UpdateMatchingKeepsOk(ListOf(m, category), id, Pause);
    case ResetTimer(category, id) =>
      ListOfOk(s, category);
      UpdateMatchingKeepsOk(ListOf(m, category), id, Reset);
    case Tick =>
      if Defined(m) {
        var m' := ReduceOwnKeys(s, a).state.timers;
        forall c | c in m' && m'[c].Some?
          ensures ListOk(m'[c].value)
        {
          TickListKeepsOk(m[c].value);
        }
      }
    case StartAllInCategory(category) =>
      ListOfOk(s, category);
      UpdateAllKeepsOk(ListOf(m, category), Start);
    case PauseAllInCategory(category) =>
      ListOfOk(s, category);
      UpdateAllKeepsOk(ListOf(m, category), Pause);
    case ResetAllInCategory(category) =>
      ListOfOk(s, category);
      UpdateAllKeepsOk(ListOf(m, category), Reset);
    case Unrecognized(_) =>
  }

  lemma ListOfOk(s: State, category: string)
    requires Valid(s)
    ensures ListOk(ListOf(s.timers, category))
  {
  }

  lemma UpdateMatchingKeepsOk(ts: seq<Timer>, id: string, c: Change)
    requires ListOk(ts)
    ensures ListOk(UpdateMatching(ts, id, c))
  {
    forall i | 0 <= i < |ts| ensures TimerOk(UpdateMatching(ts, id, c)[i]) {
      ApplyKeepsOk(c, ts[i]);
    }
  }

  lemma UpdateAllKeepsOk(ts: seq<Timer>, c: Change)
    requires ListOk(ts)
    ensures ListOk(UpdateAll(ts, c))
  {
    forall i | 0 <= i < |ts| ensures TimerOk(UpdateAll(ts, c)[i]) {
      ApplyKeepsOk(c, ts[i]);
    }
  }

  lemma TickListKeepsOk(ts: seq<Timer>)
    requires ListOk(ts)
    ensures ListOk(TickList(ts))
  {
    forall i | 0 <= i < |ts| ensures TimerOk(TickList(ts)[i]) {
      TickKeepsOk(ts[i]);
    }
  }

  /**
   * The reducer never throws as long as bulk actions name categories that
   * exist (as the home screen's buttons do) and no action names a missing
   * category that is an inherited name; then no category ever holds
   * `undefined`.
   */
  lemma StepPreservesDefined(s: State, a: Action)
    requires Defined(s.timers)
    requires a.LoadState? ==> a.loadedTimers.None? || Defined(a.loadedTimers.value)
    requires a.StartAllInCategory? || a.PauseAllInCategory? || a.ResetAllInCategory? ==> a.category in s.timers
    requires NamesCategory(a) ==> !FindsInherited(s.timers, a.category)
    ensures Reduce(s, a).Next? && Defined(Reduce(s, a).state.timers)
  {
  }

  /** A bulk action on a category that does not exist makes the very next TICK throw. */
  lemma BulkOnMissingThenTickThrows(s: State, c: Change, category: string)
    requires category !in s.timers && !IsInheritedName(category)
    ensures Reduce(Reduce(s, BulkAction(c, category)).state, Tick) == TypeError
  {
    var s' := Reduce(s, BulkAction(c, category)).state;
    assert s'.timers[category] == None;
    assert !Defined(s'.timers);
  }

  // ---------------------------------------------------------------------------
  // When the reducer throws
  // ---------------------------------------------------------------------------

  /**
   * The reducer as written throws in exactly two situations: TICK over an
   * `undefined` slot, and an action whose category is a missing key that
   * every object inherits (`constructor`, `toString`, ...).
   */
  lemma ThrowsExactly(s: State, a: Action)
    ensures Reduce(s, a) == TypeError <==>
      || (a.Tick? && !Defined(s.timers))
      || (NamesCategory(a) && FindsInherited(s.timers, a.category))
    ensures Reduce(s, a).Next? ==> Reduce(s, a) == ReduceOwnKeys(s, a)
  {
  }

  /**
   * With own-key lookup, any category name works: the only throw left is
   * TICK over an `undefined` slot.
   */
  lemma OwnKeysThrowOnlyOnUndefined(s: State, a: Action)
    ensures ReduceOwnKeys(s, a) == TypeError <==> a.Tick? && !Defined(s.timers)
  {
  }

  /**
   * A timer added under the category `constructor`: the reducer as written
   * throws, while own-key lookup creates the category with that one timer.
   */
  lemma ConstructorCategoryThrows(name: string, duration: int, freshId: string, createdAt: int)
    ensures Reduce(InitialState, AddTimer(name, duration, "constructor", freshId, createdAt)) == TypeError
    ensures ReduceOwnKeys(InitialState, AddTimer(name, duration, "constructor", freshId, createdAt))
         == Next(State(map["constructor" := Some([Timer(freshId, name, duration, duration, Paused, createdAt)])], []))
  {
    assert ListOf(map[], "constructor") + [Timer(freshId, name, duration, duration, Paused, createdAt)]
        == [Timer(freshId, name, duration, duration, Paused, createdAt)];
  }

  // ---------------------------------------------------------------------------
  // A run of actions
  // ---------------------------------------------------------------------------

  /** Dispatching `acts` in order; a throw stops the run. */
  function Run(s: State, acts: seq<Action>): Reduced
    decreases |acts|
  {
    if acts == [] then Next(s)
    else match Reduce(s, acts[0])
      case Next(s') => Run(s', acts[1..])
      case TypeError => TypeError
  }

  /** `k` TICK actions. */
  function Ticks(k: nat): (r: seq<Action>)
    ensures |r| == k && forall i :: 0 <= i < k ==> r[i] == Tick
  {
    if k == 0 then [] else [Tick] + Ticks(k - 1)
  }

  /**
   * A timer "Study" of 4 seconds under "Work", started, shows 0 seconds
   * left after 4 ticks and is still running; the fifth tick pauses it.
   * Nothing is ever added to the history.
   */
  lemma StudyScenario(id: string, createdAt: int)
    ensures var added := Timer(id, "Study", 4, 4, Paused, createdAt);
      var setup := [AddTimer("Study", 4, "Work", id, createdAt), StartTimer("Work", id)];
      && Run(InitialState, setup + Ticks(4))
           == Next(State(map["Work" := Some([added.(remaining := 0, status := Running)])], []))
      && Run(InitialState, setup + Ticks(5))
           == Next(State(map["Work" := Some([added.(remaining := 0, status := Paused)])], []))
  {
    var added := Timer(id, "Study", 4, 4, Paused, createdAt);
    var setup := [AddTimer("Study", 4, "Work", id, createdAt), StartTimer("Work", id)];
    var running := added.(status := Running);
    var s1 := State(map["Work" := Some([added])], []);
    var started := State(map["Work" := Some([running])], []);
    assert |"Work"| == 4 && !IsInheritedName("Work");
    assert ListOf(InitialState.timers, "Work") + [added] == [added];
    assert Reduce(InitialState, setup[0]) == Next(s1);
    assert UpdateMatching([added], id, Start) == [running];
    assert Reduce(s1, setup[1]) == Next(started);
    SetupThenTicks(setup, s1, started, 4);
    SetupThenTicks(setup, s1, started, 5);
    RunTicks(running, "Work", 4);
    RunTicks(running, "Work", 5);
    Countdown(running, 4, 0);
  }

  lemma SetupThenTicks(setup: seq<Action>, s1: State, started: State, k: nat)
    requires |setup| == 2
    requires Reduce(InitialState, setup[0]) == Next(s1) && Reduce(s1, setup[1]) == Next(started)
    ensures Run(InitialState, setup + Ticks(k)) == Run(started, Ticks(k))
  {
    var acts := setup + Ticks(k);
    assert acts[0] == setup[0];
    assert acts[1..][0] == setup[1];
    assert acts[1..][1..] == Ticks(k);
  }

  /** On a state holding one category with one timer, `k` ticks tick that timer `k` times. */
  lemma {:induction false} RunTicks(t: Timer, category: string, k: nat)
    ensures Run(State(map[category := Some([t])], []), Ticks(k))
         == Next(State(map[category := Some([TickTimes(t, k)])], []))
    decreases k
  {
    if k > 0 {
      var s := State(map[category := Some([t])], []);
      var s1 := State(map[category := Some([TickTimer(t)])], []);
      assert TickList([t]) == [TickTimer(t)];
      assert !NamesCategory(Tick);
      assert Reduce(s, Tick) == Next(s1);
      assert Ticks(k)[1..] == Ticks(k - 1);
      RunTicks(TickTimer(t), category, k - 1);
    }
  }
}
