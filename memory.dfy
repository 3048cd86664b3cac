/** The session-state helpers of tutor_agent/tools/memory.py: `memorize`,
    `memorize_list`, `forget` and `_set_initial_states`, which update a
    string-keyed state dictionary in place. The dictionary holds JSON-like
    values, and each helper follows Python's semantics for `in`, `append`,
    `remove` and indexing on whatever value it finds under the key,
    including the exceptions those raise. */
module Memory {
  import opened Text

  /** A value held in the state. */
  datatype Json =
    | JNull
    | JBool(b: bool)
    | JNum(n: real)
    | JStr(s: string)
    | JList(items: seq<Json>)
    | JObject(fields: map<string, Json>)

  type State = map<string, Json>

  /** The exceptions the helpers can raise. */
  datatype PyError = KeyError | TypeError | AttributeError

  /** A computation on values that may raise. */
  datatype Outcome<T> = Success(value: T) | Failure(error: PyError)

  /** What a tool returns: its status message, or the exception it raised. */
  datatype Status = Ok(message: string) | Raised(error: PyError)

  const SystemTime := "_time"
  const SessionInitialized := "_session_initialized"
  const SessionKey := "session"
  const SessionStartTime := "session_start_time"
  const SessionEndTime := "session_end_time"
  const StartTime := "start_time"
  const EndTime := "end_time"

  function Stored(key: string, value: string): string {
    "Stored \"" + key + "\": \"" + value + "\""
  }

  function Removed(key: string, value: string): string {
    "Removed \"" + key + "\": \"" + value + "\""
  }

  // ---------------------------------------------------------------------
  // Python operations on one value

  /** Python truthiness. */
  predicate Truthy(j: Json) {
    match j
    case JNull => false
    case JBool(b) => b
    case JNum(n) => n != 0.0
    case JStr(s) => s != ""
    case JList(items) => items != []
    case JObject(fields) => fields != map[]
  }

  /** `value in container` for a string `value`: list membership, substring
      test, or dictionary key test; anything else is not iterable. */
  function Contains(container: Json, value: string): (r: Outcome<bool>)
    ensures r.Failure? <==> container.JNull? || container.JBool? || container.JNum?
    ensures r.Failure? ==> r.error == TypeError
    ensures container.JList? ==> r == Success(JStr(value) in container.items)
  {
    match container
    case JList(items) => Success(JStr(value) in items)
    case JStr(s) => Success(IsSubstring(value, s))
    case JObject(fields) => Success(value in fields)
    case _ => Failure(TypeError)
  }

  /** `container.append(value)`: only lists have it. */
  function Append(container: Json, value: string): (r: Outcome<Json>)
    ensures r.Success? <==> container.JList?
    ensures r.Success? ==> r.value == JList(container.items + [JStr(value)])
    ensures r.Failure? ==> r.error == AttributeError
  {
    if container.JList? then Success(JList(container.items + [JStr(value)])) else Failure(AttributeError)
  }

  /** The list with the first occurrence of `x` taken out. */
  function RemoveFirst(items: seq<Json>, x: Json): seq<Json> {
    if items == [] then []
    else if items[0] == x then items[1..]
    else [items[0]] + RemoveFirst(items[1..], x)
  }

  /** `container.remove(value)`: only lists have it. */
  function Remove(container: Json, value: string): (r: Outcome<Json>)
    ensures r.Success? <==> container.JList?
    ensures r.Failure? ==> r.error == AttributeError
  {
    if container.JList? then Success(JList(RemoveFirst(container.items, JStr(value)))) else Failure(AttributeError)
  }

  /** `container[key]` with a string key: a dictionary lookup, which raises
      `KeyError` for a missing key; strings and lists want integer indices
      and the other values cannot be indexed. */
  function Index(container: Json, key: string): (r: Outcome<Json>)
    ensures r.Success? <==> container.JObject? && key in container.fields
    ensures r.Success? ==> r.value == container.fields[key]
    ensures r.Failure? ==> r.error == (if container.JObject? then KeyError else TypeError)
  {
    match container
    case JObject(fields) => if key in fields then Success(fields[key]) else Failure(KeyError)
    case _ => Failure(TypeError)
  }

  // ---------------------------------------------------------------------
  // Reference definitions of the helpers: the state after the call, and
  // what the call returned or raised

  /** `memorize_list(key, value)` */
  function MemorizeListStep(state: State, key: string, value: string): (State, Status) {
    var created := if key in state then state else state[key := JList([])];
    match Contains(created[key], value)
    case Failure(e) => (created, Raised(e))
    case Success(present) =>
      if present then (created, Ok(Stored(key, value)))
      else
        match Append(created[key], value)
        case Failure(e) => (created, Raised(e))
        case Success(appended) => (created[key := appended], Ok(Stored(key, value)))
  }

  /** `forget(key, value)` */
  function ForgetStep(state: State, key: string, value: string): (State, Status) {
    if key !in state then (state, Raised(KeyError))
    else
      var cleared := if state[key] == JNull then state[key := JList([])] else state;
      match Contains(cleared[key], value)
      case Failure(e) => (cleared, Raised(e))
      case Success(present) =>
        if !present then (cleared, Ok(Removed(key, value)))
        else
          match Remove(cleared[key], value)
          case Failure(e) => (cleared, Raised(e))
          case Success(rest) => (cleared[key := rest], Ok(Removed(key, value)))
  }

  /** `_set_initial_states(source, target)` with `now` the time read from
      the clock: the state after the call, and the exception raised, if any. */
  function InitialStep(target: State, source: State, now: string): (State, Option<PyError>) {
    var timed := if SystemTime !in target then target[SystemTime := JStr(now)] else target;
    if SessionInitialized in timed then (timed, None)
    else
      var merged := timed[SessionInitialized := JBool(true)] + source;
      var session := if SessionKey in source then source[SessionKey] else JObject(map[]);
      if !Truthy(session) then (merged, None)
      else
        match Index(session, StartTime)
        case Failure(e) => (merged, Some(e))
        case Success(start) =>
          var started := merged[SessionStartTime := start];
          match Index(session, EndTime)
          case Failure(e) => (started, Some(e))
          case Success(end) => (started[SessionEndTime := end][SessionStartTime := start], None)
  }

  // ---------------------------------------------------------------------
  // The state dictionary and the helpers that update it

  class SessionState {
    var entries: State

    constructor(initial: State)
      ensures entries == initial
    {
      entries := initial;
    }

    /** `memorize(key, value)`: store the value under the key. */
    method Memorize(key: string, value: string) returns (status: Status)
      modifies this
      ensures entries == old(entries)[key := JStr(value)]
      ensures status == Ok(Stored(key, value))
    {
      entries := entries[key := JStr(value)];
      status := Ok(Stored(key, value));
    }

    /** `memorize_list(key, value)`: create the list if the key is new, then
        append the value unless it is already there. */
    method MemorizeList(key: string, value: string) returns (status: Status)
      modifies this
      ensures (entries, status) == MemorizeListStep(old(entries), key, value)
    {
      if key !in entries {
        entries := entries[key := JList([])];
      }
      var present := Contains(entries[key], value);
      if present.Failure? {
        return Raised(present.error);
      }
      if !present.value {
        var appended := Append(entries[key], value);
        if appended.Failure? {
          return Raised(appended.error);
        }
        entries := entries[key := appended.value];
      }
      status := Ok(Stored(key, value));
    }

    /** `forget(key, value)`: replace a `None` by an empty list, then remove
        the first occurrence of the value if there is one. */
    method Forget(key: string, value: string) returns (status: Status)
      modifies this
      ensures (entries, status) == ForgetStep(old(entries), key, value)
    {
      if key !in entries {
        return Raised(KeyError);
      }
      if entries[key] == JNull {
        entries := entries[key := JList([])];
      }
      var present := Contains(entries[key], value);
      if present.Failure? {
        return Raised(present.error);
      }
      if present.value {
        var rest := Remove(entries[key], value);
        if rest.Failure? {
          return Raised(rest.error);
        }
        entries := entries[key := rest.value];
      }
      status := Ok(Removed(key, value));
    }

    /** `_set_initial_states(source, target)` on this state, with `now` the
        current time. */
    method SetInitialStates(source: State, now: string) returns (error: Option<PyError>)
      modifies this
      ensures (entries, error) == InitialStep(old(entries), source, now)
    {
      if SystemTime !in entries {
        entries := entries[SystemTime := JStr(now)];
      }
      if SessionInitialized !in entries {
        entries := entries[SessionInitialized := JBool(true)];
        entries := entries + source;
        var session := if SessionKey in source then source[SessionKey] else JObject(map[]);
        if Truthy(session) {
          var start := Index(session, StartTime);
          if start.Failure? {
            return Some(start.error);
          }
          entries := entries[SessionStartTime := start.value];
          var end := Index(session, EndTime);
          if end.Failure? {
            return Some(end.error);
          }
          entries := entries[SessionEndTime := end.value];
          entries := entries[SessionStartTime := start.value];
        }
      }
      error := None;
    }
  }

  // ---------------------------------------------------------------------
  // Properties of the helpers

  /** `memorize` leaves every other key as it was, and storing the same
      value twice is the same as storing it once. */
  lemma MemorizeOnlyTouchesKey(state: State, key: string, value: string)
    ensures var after := state[key := JStr(value)];
      key in after && after[key] == JStr(value) &&
      (forall k :: k != key ==> (k in after <==> k in state)) &&
      (forall k :: k != key && k in state ==> after[k] == state[k]) &&
      after[key := JStr(value)] == after
  {
  }

  /** `memorize_list` touches no key but its own, and it never raises when
      the key is new or holds a list. */
  lemma MemorizeListOtherKeys(state: State, key: string, value: string)
    ensures var (after, _) := MemorizeListStep(state, key, value);
      key in after &&
      (forall k :: k != key ==> (k in after <==> k in state)) &&
      (forall k :: k != key && k in state ==> after[k] == state[k])
    ensures key !in state || state[key].JList? ==>
      MemorizeListStep(state, key, value).1 == Ok(Stored(key, value))
  {
  }

  /** Afterwards a list under the key holds the value, and holds it once more
      only when it was missing: the list is unchanged when the value was
      already there, and otherwise the value is appended at the end. */
  lemma MemorizeListAppendsOnce(state: State, key: string, value: string)
    requires key !in state || state[key].JList?
    ensures var (after, _) := MemorizeListStep(state, key, value);
      var before := if key in state then state[key].items else [];
      after[key].JList? && JStr(value) in after[key].items &&
      (JStr(value) in before ==> after[key].items == before) &&
      (JStr(value) !in before ==> after[key].items == before + [JStr(value)])
  {
  }

  /** No duplicates: a list in which no value occurs twice keeps that
      property through `memorize_list`. */
  predicate NoDuplicates(items: seq<Json>) {
    forall i, j :: 0 <= i < j < |items| ==> items[i] != items[j]
  }

  lemma MemorizeListKeepsNoDuplicates(state: State, key: string, value: string)
    requires key in state ==> state[key].JList? && NoDuplicates(state[key].items)
    ensures var after := MemorizeListStep(state, key, value).0;
      after[key].JList? && NoDuplicates(after[key].items)
  {
    var after := MemorizeListStep(state, key, value).0;
    var before := if key in state then state[key].items else [];
    if JStr(value) !in before {
      assert after[key].items == before + [JStr(value)];
      forall i, j | 0 <= i < j < |after[key].items|
        ensures after[key].items[i] != after[key].items[j]
      {
        if j == |before| {
          assert after[key].items[i] == before[i];
        }
      }
    }
  }

  /** Calling `memorize_list` twice with the same arguments leaves the state
      as one call does, whatever the key held: a value appended by the first
      call is found by the second, and a call that raised raises again. */
  lemma MemorizeListIdempotent(state: State, key: string, value: string)
    ensures var once := MemorizeListStep(state, key, value);
      MemorizeListStep(once.0, key, value) == once
  {
  }

  /** The list with the first occurrence of `x` taken out: one fewer `x`,
      everything else kept, in order. */
  lemma RemoveFirstCounts(items: seq<Json>, x: Json)
    requires x in items
    ensures multiset(RemoveFirst(items, x)) == multiset(items) - multiset{x}
    ensures |RemoveFirst(items, x)| == |items| - 1
    ensures exists i :: 0 <= i < |items| && items[i] == x && x !in items[..i] &&
                        RemoveFirst(items, x) == items[..i] + items[i + 1..]
  {
    var i := RemoveFirstAt(items, x);
    assert items == items[..i] + [x] + items[i + 1..];
  }

  /** The occurrence taken out is the first. */
  lemma {:induction false} RemoveFirstAt(items: seq<Json>, x: Json) returns (i: nat)
    requires x in items
    ensures i < |items| && items[i] == x && x !in items[..i]
    ensures RemoveFirst(items, x) == items[..i] + items[i + 1..]
  {
    if items[0] == x {
      i := 0;
    } else {
      var tail := items[1..];
      assert x in tail by {
        assert items == [items[0]] + tail;
      }
      var j := RemoveFirstAt(tail, x);
      i := j + 1;
      assert items[..i] == [items[0]] + tail[..j];
      assert items[i + 1..] == tail[j + 1..];
    }
  }

  /** Taking out a value the list does not hold leaves it alone. */
  lemma {:induction false} RemoveFirstAbsent(items: seq<Json>, x: Json)
    requires x !in items
    ensures RemoveFirst(items, x) == items
  {
    if items != [] {
      assert x !in items[1..];
      RemoveFirstAbsent(items[1..], x);
      assert items == [items[0]] + items[1..];
    }
  }

  /** Taking out a value that was just appended, and occurs nowhere else,
      gives the list back. */
  lemma {:induction false} RemoveFirstAppended(items: seq<Json>, x: Json)
    requires x !in items
    ensures RemoveFirst(items + [x], x) == items
  {
    if items != [] {
      assert (items + [x])[1..] == items[1..] + [x];
      RemoveFirstAppended(items[1..], x);
      assert [items[0]] + items[1..] == items;
    }
  }

  /** `forget` on a key that is not there raises `KeyError` and changes
      nothing; a `None` under the key becomes an empty list. */
  lemma ForgetMissingOrNone(state: State, key: string, value: string)
    ensures key !in state ==> ForgetStep(state, key, value) == (state, Raised(KeyError))
    ensures key in state && state[key] == JNull ==>
      ForgetStep(state, key, value) == (state[key := JList([])], Ok(Removed(key, value)))
  {
  }

  /** `forget` touches no key but its own. */
  lemma ForgetOtherKeys(state: State, key: string, value: string)
    ensures var after := ForgetStep(state, key, value).0;
      (forall k :: k in after <==> k in state) &&
      (forall k :: k != key && k in state ==> after[k] == state[k])
  {
  }

  /** On a list, `forget` takes out the first occurrence of the value when
      there is one, keeping the rest in order, and leaves the list as it was
      when there is none. */
  lemma ForgetRemovesOne(state: State, key: string, value: string)
    requires key in state && state[key].JList?
    ensures var (after, status) := ForgetStep(state, key, value);
      var before := state[key].items;
      status == Ok(Removed(key, value)) && after[key].JList? &&
      (JStr(value) in before ==>
        multiset(after[key].items) == multiset(before) - multiset{JStr(value)} &&
        |after[key].items| == |before| - 1 &&
        exists i :: 0 <= i < |before| && before[i] == JStr(value) && JStr(value) !in before[..i] &&
                    after[key].items == before[..i] + before[i + 1..]) &&
      (JStr(value) !in before ==> after == state)
  {
    if JStr(value) in state[key].items {
      RemoveFirstCounts(state[key].items, JStr(value));
    } else {
      RemoveFirstAbsent(state[key].items, JStr(value));
    }
  }

  /** `forget` undoes `memorize_list` of a value the list did not hold. */
  lemma ForgetUndoesMemorizeList(state: State, key: string, value: string)
    requires key in state && state[key].JList? && JStr(value) !in state[key].items
    ensures ForgetStep(MemorizeListStep(state, key, value).0, key, value).0 == state
  {
    var items := state[key].items;
    var added := MemorizeListStep(state, key, value).0;
    assert added == state[key := JList(items + [JStr(value)])];
    RemoveFirstAppended(items, JStr(value));
  }

  /** `_time` is written only when it is missing, and then with the current
      time; the time read has no other effect. */
  lemma InitialTime(target: State, source: State, now: string, later: string)
    ensures var after := InitialStep(target, source, now).0;
      SystemTime in after &&
      (SystemTime !in target && SystemTime !in source ==> after[SystemTime] == JStr(now))
    ensures SystemTime in target ==> InitialStep(target, source, now) == InitialStep(target, source, later)
  {
  }

  /** On a state already initialised, only `_time` may be added. */
  lemma InitialisedOnce(target: State, source: State, now: string)
    requires SessionInitialized in target
    ensures InitialStep(target, source, now) ==
      (if SystemTime in target then target else target[SystemTime := JStr(now)], None)
  {
  }

  /** The first call marks the state as initialised, even when it then
      raises, so a second call changes nothing. */
  lemma InitialStepIdempotent(target: State, source: State, now: string, later: string)
    ensures var (after, _) := InitialStep(target, source, now);
      SessionInitialized in after && InitialStep(after, source, later) == (after, None)
  {
  }

  /** On the first call the state is marked initialised, unless the source
      itself carries the mark, and every entry of the source is copied,
      except that a truthy session overrides the two session times. */
  lemma InitialCopiesSource(target: State, source: State, now: string)
    requires SessionInitialized !in target
    ensures var (after, _) := InitialStep(target, source, now);
      after[SessionInitialized] == (if SessionInitialized in source then source[SessionInitialized] else JBool(true)) &&
      forall k :: k in source && k != SessionStartTime && k != SessionEndTime ==>
        k in after && after[k] == source[k]
    ensures SessionKey !in source || !Truthy(source[SessionKey]) ==>
      var (after, error) := InitialStep(target, source, now);
      error == None && forall k :: k in source ==> k in after && after[k] == source[k]
  {
  }

  /** With a truthy session the two times come from the session's
      `start_time` and `end_time`; a session without them, or one that is
      not a dictionary, raises after the source has been copied. */
  lemma InitialSessionTimes(target: State, source: State, now: string)
    requires SessionInitialized !in target
    requires SessionKey in source && Truthy(source[SessionKey])
    ensures var session := source[SessionKey];
      var (after, error) := InitialStep(target, source, now);
      (error == None <==> session.JObject? && StartTime in session.fields && EndTime in session.fields) &&
      (error == None ==>
        after[SessionStartTime] == session.fields[StartTime] &&
        after[SessionEndTime] == session.fields[EndTime]) &&
      (!session.JObject? ==> error == Some(TypeError)) &&
      (session.JObject? && StartTime !in session.fields ==>
        error == Some(KeyError) && forall k :: k in source ==> k in after && after[k] == source[k]) &&
      (session.JObject? && StartTime in session.fields && EndTime !in session.fields ==>
        error == Some(KeyError) && after[SessionStartTime] == session.fields[StartTime])
  {
  }
}
