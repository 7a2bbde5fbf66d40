/** The per-key circuit breaker of packages/core/src/client/circuit-breaker.ts. */
module CircuitBreaker {
  import opened Common

  datatype BreakerState = Closed | Open | HalfOpen

  datatype BreakerOptions = BreakerOptions(failureThreshold: real, resetTimeoutMs: real)

  /** The options after `Math.max` and `Math.floor`. */
  datatype Limits = Limits(failureThreshold: int, resetTimeoutMs: int)

  function Normalize(options: BreakerOptions): (l: Limits)
    ensures FlooredFrom(1, options.failureThreshold, l.failureThreshold)
    ensures FlooredFrom(0, options.resetTimeoutMs, l.resetTimeoutMs)
  {
    Limits(Max(1, options.failureThreshold.Floor), Max(0, options.resetTimeoutMs.Floor))
  }

  // ----- one key -----

  datatype Entry = Entry(state: BreakerState, failureCount: int, openedAt: Option<int>)

  const NEW_ENTRY: Entry := Entry(Closed, 0, None)

  /** What happens to a key: it is asked, it is told of a success or a failure, or its state is read. */
  datatype Kind = Asked | Succeeded | Failed | StateRead

  datatype Event = Event(key: string, kind: Kind, at: int)

  /** Whether a request is let through now, and whether that turns `open` into `half-open`. */
  predicate Elapsed(l: Limits, e: Entry, now: int) {
    now - (if e.openedAt.Some? then e.openedAt.value else 0) >= l.resetTimeoutMs
  }

  predicate Allows(l: Limits, e: Entry, now: int) {
    e.state == Open ==> Elapsed(l, e, now)
  }

  function EntryStep(l: Limits, e: Entry, kind: Kind, now: int): Entry {
    match kind
    case Asked => if e.state == Open && Elapsed(l, e, now) then e.(state := HalfOpen) else e
    case Succeeded => Entry(Closed, 0, None)
    case Failed =>
      if e.state == HalfOpen then e.(state := Open, openedAt := Some(now))
      else if e.state == Open then e
      else if e.failureCount + 1 >= l.failureThreshold then Entry(Open, e.failureCount + 1, Some(now))
      else e.(failureCount := e.failureCount + 1)
    case StateRead => e
  }

  // ----- all keys -----

  type Entries = map<string, Entry>

  function EntryOf(entries: Entries, key: string): Entry {
    if key in entries then entries[key] else NEW_ENTRY
  }

  /** Every operation creates the entry it touches. */
  function Step(l: Limits, entries: Entries, e: Event): Entries {
    entries[e.key := EntryStep(l, EntryOf(entries, e.key), e.kind, e.at)]
  }

  /** The table after a history that starts with no entries. */
  function After(l: Limits, history: seq<Event>): Entries {
    if history == [] then map[] else Step(l, After(l, history[..|history| - 1]), history[|history| - 1])
  }

  class CircuitBreakerEntry {
    var state: BreakerState
    var failureCount: int
    var openedAt: Option<int>

    constructor ()
      ensures state == Closed && failureCount == 0 && openedAt == None
    {
      state, failureCount, openedAt := Closed, 0, None;
    }

    ghost function View(): Entry
      reads this
    {
      Entry(state, failureCount, openedAt)
    }
  }

  class CircuitBreaker {
    var entries: map<string, CircuitBreakerEntry>
    const options: Limits
    ghost var Repr: set<CircuitBreakerEntry>

    /** No two keys share an entry object. */
    ghost predicate Valid()
      reads this, Repr
    {
      && (forall k <- entries :: entries[k] in Repr)
      && (forall k, j | k in entries && j in entries && k != j :: entries[k] != entries[j])
    }

    ghost function View(): Entries
      reads this, Repr
      requires Valid()
    {
      map k | k in entries :: entries[k].View()
    }

    constructor (options: BreakerOptions)
      ensures Valid() && Repr == {} && this.options == Normalize(options) && View() == map[]
    {
      this.options := Limits(Max(1, options.failureThreshold.Floor), Max(0, options.resetTimeoutMs.Floor));
      entries := map[];
      Repr := {};
    }

    method GetOrCreateEntry(key: string) returns (entry: CircuitBreakerEntry)
      requires Valid()
      modifies this
      ensures Valid() && fresh(Repr - old(Repr))
      ensures key in entries && entries[key] == entry
      ensures forall k <- old(entries) :: k in entries && entries[k] == old(entries[k])
      ensures View() == old(View())[key := EntryOf(old(View()), key)]
      ensures key !in old(entries) ==> fresh(entry)
      ensures entry.View() == EntryOf(old(View()), key)
    {
      if key in entries {
        entry := entries[key];
      } else {
        entry := new CircuitBreakerEntry();
      }
      Repr := Repr + {entry};
      entries := entries[key := entry];
    }

    method CanRequest(key: string, now: int) returns (r: bool)
      requires Valid()
      modifies this, Repr
      ensures Valid() && fresh(Repr - old(Repr))
      ensures r == Allows(options, EntryOf(old(View()), key), now)
      ensures View() == Step(options, old(View()), Event(key, Asked, now))
    {
      var entry := GetOrCreateEntry(key);
      if entry.state == Closed {
        return true;
      }
      if entry.state == HalfOpen {
        return true;
      }
      var openedAt := if entry.openedAt.Some? then entry.openedAt.value else 0;
      var elapsedMs := now - openedAt;
      if elapsedMs >= options.resetTimeoutMs {
        entry.state := HalfOpen;
        return true;
      }
      r := false;
    }

    method RecordSuccess(key: string)
      requires Valid()
      modifies this, Repr
      ensures Valid() && fresh(Repr - old(Repr))
      ensures forall now :: View() == Step(options, old(View()), Event(key, Succeeded, now))
    {
      var entry := GetOrCreateEntry(key);
      Close(entry);
    }

    method RecordFailure(key: string, now: int)
      requires Valid()
      modifies this, Repr
      ensures Valid() && fresh(Repr - old(Repr))
      ensures View() == Step(options, old(View()), Event(key, Failed, now))
    {
      var entry := GetOrCreateEntry(key);
      CountFailure(entry, now);
    }

    /** The rest of `recordFailure`, on the entry. */
    method CountFailure(entry: CircuitBreakerEntry, now: int)
      modifies entry
      ensures entry.View() == EntryStep(options, old(entry.View()), Failed, now)
    {
      if entry.state == HalfOpen {
        OpenEntry(entry, now);
        return;
      }
      if entry.state == Open {
        return;
      }
      entry.failureCount := entry.failureCount + 1;
      if entry.failureCount >= options.failureThreshold {
        OpenEntry(entry, now);
      }
    }

    method GetState(key: string) returns (r: BreakerState)
      requires Valid()
      modifies this, Repr
      ensures Valid() && fresh(Repr - old(Repr))
      ensures r == EntryOf(old(View()), key).state
      ensures forall now :: View() == Step(options, old(View()), Event(key, StateRead, now))
    {
      var entry := GetOrCreateEntry(key);
      r := entry.state;
    }

    static method Close(entry: CircuitBreakerEntry)
      modifies entry
      ensures entry.View() == Entry(Closed, 0, None)
    {
      entry.state := Closed;
      entry.failureCount := 0;
      entry.openedAt := None;
    }

    static method OpenEntry(entry: CircuitBreakerEntry, now: int)
      modifies entry
      ensures entry.View() == Entry(Open, old(entry.failureCount), Some(now))
    {
      entry.state := Open;
      entry.openedAt := Some(now);
    }
  }

  // ----- the history law -----

  /** How many failures of a key have been recorded since its last recorded success. */
  function ConsecutiveFailures(history: seq<Event>, key: string): nat {
    if history == [] then 0 else
    var last, before := history[|history| - 1], history[..|history| - 1];
    if last.key != key then ConsecutiveFailures(before, key)
    else if last.kind == Succeeded then 0
    else if last.kind == Failed then ConsecutiveFailures(before, key) + 1
    else ConsecutiveFailures(before, key)
  }

  /**
   * The state of a key is not closed exactly when it has failed at least `failureThreshold` times since its last
   * success; its count then stands at the threshold and the time of opening is known. Otherwise the count is the
   * number of those failures.
   */
  lemma {:induction false} HistoryLaw(l: Limits, history: seq<Event>, key: string)
    requires l.failureThreshold >= 1
    ensures var e := EntryOf(After(l, history), key);
            var failures := ConsecutiveFailures(history, key);
            && (e.state != Closed <==> failures >= l.failureThreshold)
            && e.failureCount == Min(failures, l.failureThreshold)
            && (e.openedAt.Some? <==> e.state != Closed)
    decreases |history|
  {
    if history != [] {
      HistoryLaw(l, history[..|history| - 1], key);
    }
  }

  /** The events of one key, in order. */
  function Of(history: seq<Event>, key: string): seq<Event> {
    if history == [] then [] else
    var last := history[|history| - 1];
    Of(history[..|history| - 1], key) + if last.key == key then [last] else []
  }

  /** A key's entry depends only on that key's own events, however they are interleaved with others. */
  lemma {:induction false} KeysAreIndependent(l: Limits, history: seq<Event>, key: string)
    ensures EntryOf(After(l, history), key) == EntryOf(After(l, Of(history, key)), key)
    decreases |history|
  {
    if history != [] {
      var last, before := history[|history| - 1], history[..|history| - 1];
      KeysAreIndependent(l, before, key);
      if last.key == key {
        assert Of(history, key)[..|Of(history, key)| - 1] == Of(before, key);
      } else {
        assert Of(history, key) == Of(before, key);
      }
    }
  }

  /** When the breaker last opened for a key: at the threshold, or again after a failed half-open request. */
  function LastOpened(l: Limits, history: seq<Event>, key: string): Option<int> {
    if history == [] then None else
    var last, before := history[|history| - 1], history[..|history| - 1];
    if last.key != key then LastOpened(l, before, key)
    else if last.kind == Succeeded then None
    else if last.kind == Failed && (ConsecutiveFailures(history, key) == l.failureThreshold || Probed(l, before, key)) then
      Some(last.at)
    else LastOpened(l, before, key)
  }

  /** A request has been let through since the breaker last opened for the key. */
  predicate Probed(l: Limits, history: seq<Event>, key: string) {
    history != [] &&
    var last, before := history[|history| - 1], history[..|history| - 1];
    if last.key != key then Probed(l, before, key)
    else if last.kind == Succeeded || last.kind == Failed then false
    else
      || Probed(l, before, key)
      || (&& last.kind == Asked && ConsecutiveFailures(before, key) >= l.failureThreshold
          && LastOpened(l, before, key).Some? && last.at - LastOpened(l, before, key).value >= l.resetTimeoutMs)
  }

  /** Open and half-open, told apart by the history: half-open means that a probe has been let through. */
  lemma {:induction false} OpenOrHalfOpen(l: Limits, history: seq<Event>, key: string)
    requires l.failureThreshold >= 1
    ensures var e := EntryOf(After(l, history), key);
            && e.openedAt == LastOpened(l, history, key)
            && (e.state == HalfOpen <==> Probed(l, history, key))
    decreases |history|
  {
    HistoryLaw(l, history, key);
    if history != [] {
      HistoryLaw(l, history[..|history| - 1], key);
      OpenOrHalfOpen(l, history[..|history| - 1], key);
    }
  }

  /**
   * A request is refused exactly while the failures have reached the threshold, no probe is out, and less than
   * `resetTimeoutMs` has passed since the breaker last opened.
   */
  lemma RefusalLaw(l: Limits, history: seq<Event>, key: string, now: int)
    requires l.failureThreshold >= 1
    ensures !Allows(l, EntryOf(After(l, history), key), now) <==>
            && ConsecutiveFailures(history, key) >= l.failureThreshold
            && !Probed(l, history, key)
            && LastOpened(l, history, key).Some? && now - LastOpened(l, history, key).value < l.resetTimeoutMs
  {
    HistoryLaw(l, history, key);
    OpenOrHalfOpen(l, history, key);
  }

  /** Half-open is not limited to one probe: until one of them reports, every request is let through. */
  lemma HalfOpenAdmitsEveryone(l: Limits, history: seq<Event>, key: string, now: int)
    requires l.failureThreshold >= 1 && Probed(l, history, key)
    ensures Allows(l, EntryOf(After(l, history), key), now)
    ensures EntryOf(After(l, history + [Event(key, Asked, now)]), key) == EntryOf(After(l, history), key)
    ensures Probed(l, history + [Event(key, Asked, now)], key)
  {
    OpenOrHalfOpen(l, history, key);
    var longer := history + [Event(key, Asked, now)];
    assert longer[..|longer| - 1] == history;
  }
}
