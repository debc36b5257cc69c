/**
 The fixed-window limiter (backend/app/services/rate_limit.py) over one Redis key. `enforce` sends INCR
 and, when the count is 1, EXPIRE; other calls may run between the two.
 */
module RateLimit {
  import opened Options

  type Time = int

  datatype Key = Missing | Key(count: nat, expiresAt: Option<Time>)

  predicate Exists(key: Key, now: Time) {
    key.Key? && (key.expiresAt.None? || now < key.expiresAt.value)
  }

  /** INCR creates a missing or expired key with count 1 and no expiry; otherwise it keeps the expiry. */
  function Incremented(key: Key, now: Time): Key {
    if Exists(key, now) then key.(count := key.count + 1) else Key(1, None)
  }

  function Expiring(key: Key, now: Time, window: nat): Key {
    if Exists(key, now) then key.(expiresAt := Some(now + window)) else key
  }

  /** Whether a counted call is let through: when its EXPIRE was lost `fail_closed` decides, otherwise the count. */
  predicate LetThrough(count: nat, limit: nat, expireLost: bool, failClosed: bool) {
    if expireLost then !failClosed else count <= limit
  }

  // ----- The service object -----

  datatype Answer = Allowed | Limited | Unavailable

  class RateLimitService {
    const window: nat
    var keys: map<string, Key>

    constructor (window: nat)
      ensures this.window == window && keys == map[]
    {
      this.window := window;
      keys := map[];
    }

    function At(name: string): Key
      reads this
    {
      if name in keys then keys[name] else Missing
    }

    /** `enforce`, with the two Redis commands possibly raising. */
    method Enforce(name: string, now: Time, limit: nat, failClosed: bool, incrFails: bool, expireFails: bool)
      returns (answer: Answer)
      modifies this
      ensures forall other :: other != name ==> At(other) == old(At(other))
      ensures incrFails ==> At(name) == old(At(name)) && answer == if failClosed then Unavailable else Allowed
      ensures !incrFails ==>
                var before := old(At(name));
                var there := before.Key? && (before.expiresAt.None? || now < before.expiresAt.value);
                var count := if there then before.count + 1 else 1;
                var failed := count == 1 && expireFails;
                && At(name) == Key(count, if count == 1 && !expireFails then Some(now + window)
                                          else if there then before.expiresAt else None)
                && (answer == Allowed <==> if failed then !failClosed else count <= limit)
                && (answer == Unavailable <==> failed && failClosed)
    {
      if incrFails {
        return if failClosed then Unavailable else Allowed;
      }
      var key := Incremented(At(name), now);
      keys := keys[name := key];
      if key.count == 1 {
        if expireFails {
          return if failClosed then Unavailable else Allowed;
        }
        keys := keys[name := Expiring(key, now, window)];
      }
      return if key.count > limit then Limited else Allowed;
    }
  }

  // ----- Interleaved commands on one key -----

  /** `ExpireLost`: the EXPIRE of the call that got count 1 raised. A failing INCR changes nothing and is no event. */
  datatype Command = Incr | Expire | ExpireLost
  datatype Event = Event(command: Command, now: Time)

  /**
   `pending`: the call that got count 1 has not sent its EXPIRE yet. `windows` and `openedAt` record how
   many windows were opened and when the current one was.
   */
  datatype State = State(key: Key, pending: bool, windows: nat, openedAt: Time)

  predicate Enabled(s: State, e: Event) {
    e.command != Incr ==> s.pending
  }

  function Step(s: State, e: Event, window: nat): State {
    match e.command
    case Incr =>
      var key := Incremented(s.key, e.now);
      if key.count == 1 then State(key, true, s.windows + 1, e.now) else s.(key := key)
    case Expire => s.(key := Expiring(s.key, e.now, window), pending := false)
    case ExpireLost => s.(pending := false)
  }

  ghost predicate IsRun(ss: seq<State>, es: seq<Event>, window: nat) {
    && |ss| == |es| + 1
    && ss[0] == State(Missing, false, 0, 0)
    && (forall i :: 0 <= i < |es| ==> Enabled(ss[i], es[i]) && ss[i + 1] == Step(ss[i], es[i], window))
    && (forall i, j :: 0 <= i <= j < |es| ==> es[i].now <= es[j].now)
  }

  ghost predicate NoLoss(es: seq<Event>) {
    forall i :: 0 <= i < |es| ==> es[i].command != ExpireLost
  }

  /** The event is a call, and the window it falls in. */
  predicate CallsIn(s: State, e: Event, window: nat, w: nat) {
    e.command == Incr && Step(s, e, window).windows == w
  }

  /**
   The event at which a call is let through: its INCR, unless it got count 1; then the answer waits for its
   EXPIRE.
   */
  predicate Accepted(s: State, e: Event, window: nat, limit: nat, failClosed: bool) {
    match e.command
    case Incr => Step(s, e, window).key.count > 1 && LetThrough(Step(s, e, window).key.count, limit, false, failClosed)
    case Expire => LetThrough(1, limit, false, failClosed)
    case ExpireLost => LetThrough(1, limit, true, failClosed)
  }

  /** Calls, and accepted calls, of window w among the first k events. */
  function Calls(ss: seq<State>, es: seq<Event>, window: nat, w: nat, k: nat): nat
    requires k <= |es| <= |ss|
  {
    if k == 0 then 0
    else Calls(ss, es, window, w, k - 1) + (if CallsIn(ss[k - 1], es[k - 1], window, w) then 1 else 0)
  }

  predicate AcceptedIn(s: State, e: Event, window: nat, limit: nat, failClosed: bool, w: nat) {
    Step(s, e, window).windows == w && Accepted(s, e, window, limit, failClosed)
  }

  function AcceptedCalls(ss: seq<State>, es: seq<Event>, window: nat, limit: nat, failClosed: bool, w: nat, k: nat): nat
    requires k <= |es| <= |ss|
  {
    if k == 0 then 0
    else AcceptedCalls(ss, es, window, limit, failClosed, w, k - 1)
         + (if AcceptedIn(ss[k - 1], es[k - 1], window, limit, failClosed, w) then 1 else 0)
  }

  /** The EXPIRE of window w was lost among the first k events. */
  predicate Lost(ss: seq<State>, es: seq<Event>, w: nat, k: nat)
    requires k <= |es| <= |ss|
  {
    k > 0 && (Lost(ss, es, w, k - 1) || (es[k - 1].command == ExpireLost && ss[k - 1].windows == w))
  }

  /** The call that opened window w has not been answered yet. */
  predicate Waiting(s: State, w: nat) { s.pending && s.windows == w }

  function Min(a: nat, b: nat): nat { if a <= b then a else b }

  ghost predicate Inv(s: State, window: nat) {
    && (s.windows == 0 <==> s.key.Missing?)
    && (s.key.Key? ==> s.key.count >= 1)
    && (s.pending ==> s.key.Key? && s.key.expiresAt.None?)
    && (s.key.Key? && s.key.expiresAt.Some? ==> s.key.expiresAt.value >= s.openedAt + window)
  }

  lemma {:induction false} RunKeepsInv(ss: seq<State>, es: seq<Event>, window: nat, k: nat)
    requires IsRun(ss, es, window) && k < |ss|
    ensures Inv(ss[k], window)
    ensures k > 0 && ss[k].windows > 0 ==> ss[k].openedAt <= es[k - 1].now
  {
    if k > 0 {
      RunKeepsInv(ss, es, window, k - 1);
      if k > 1 {
        assert es[k - 2].now <= es[k - 1].now;
      }
    }
  }

  /** The counter counts the calls of the current window, and no later window has any. */
  lemma {:induction false} CounterCountsCalls(ss: seq<State>, es: seq<Event>, window: nat, w: nat, k: nat)
    requires IsRun(ss, es, window) && k < |ss| && w >= ss[k].windows
    ensures Calls(ss, es, window, w, k) == if w == ss[k].windows && ss[k].key.Key? then ss[k].key.count else 0
  {
    if k > 0 {
      RunKeepsInv(ss, es, window, k - 1);
      CounterCountsCalls(ss, es, window, w, k - 1);
    }
  }

  /** Only the current window can have lost its EXPIRE: it never ends. */
  lemma {:induction false} LostStays(ss: seq<State>, es: seq<Event>, window: nat, w: nat, k: nat)
    requires IsRun(ss, es, window) && k < |ss| && Lost(ss, es, w, k)
    ensures ss[k].windows == w && ss[k].key.Key? && ss[k].key.expiresAt.None? && !ss[k].pending
  {
    RunKeepsInv(ss, es, window, k - 1);
    if Lost(ss, es, w, k - 1) {
      LostStays(ss, es, window, w, k - 1);
    }
  }

  /** Whether the call that opened window w has been let through by now. */
  function OpenersAccepted(ss: seq<State>, es: seq<Event>, limit: nat, failClosed: bool, w: nat, k: nat): nat
    requires k <= |es| && |ss| == |es| + 1
  {
    if !Waiting(ss[k], w) && LetThrough(1, limit, Lost(ss, es, w, k), failClosed) then 1 else 0
  }

  /** What window w has accepted: the call that opened it by its own rule, and of the others those up to the limit. */
  lemma {:induction false} WindowAccepts(ss: seq<State>, es: seq<Event>, window: nat, limit: nat, failClosed: bool,
                                         w: nat, k: nat)
    requires IsRun(ss, es, window) && k < |ss|
    ensures var calls := Calls(ss, es, window, w, k);
            AcceptedCalls(ss, es, window, limit, failClosed, w, k) ==
            if calls == 0 then 0
            else OpenersAccepted(ss, es, limit, failClosed, w, k) + (if limit == 0 then 0 else Min(calls, limit) - 1)
  {
    if k > 0 {
      WindowAccepts(ss, es, window, limit, failClosed, w, k - 1);
      RunKeepsInv(ss, es, window, k - 1);
      RunKeepsInv(ss, es, window, k);
      if w >= ss[k].windows {
        CounterCountsCalls(ss, es, window, w, k);
      }
      if w >= ss[k - 1].windows {
        CounterCountsCalls(ss, es, window, w, k - 1);
      }
      if Lost(ss, es, w, k - 1) {
        LostStays(ss, es, window, w, k - 1);
      }
    }
  }

  /**
   Exactly when a window has accepted min(calls, limit) of its calls: when the call that opened it is not still
   waiting for a place below the limit, and no lost EXPIRE has turned its answer around.
   */
  lemma {:induction false} WindowAcceptsMinIff(ss: seq<State>, es: seq<Event>, window: nat, limit: nat,
                                               failClosed: bool, w: nat, k: nat)
    requires IsRun(ss, es, window) && k < |ss|
    ensures AcceptedCalls(ss, es, window, limit, failClosed, w, k) == Min(Calls(ss, es, window, w, k), limit) <==>
            && !(Waiting(ss[k], w) && limit >= 1)
            && !(Lost(ss, es, w, k) && (failClosed <==> limit >= 1))
  {
    WindowAccepts(ss, es, window, limit, failClosed, w, k);
    OpenedWindowHasCalls(ss, es, window, w, k);
  }

  lemma {:induction false} OpenedWindowHasCalls(ss: seq<State>, es: seq<Event>, window: nat, w: nat, k: nat)
    requires IsRun(ss, es, window) && k < |ss|
    ensures Waiting(ss[k], w) || Lost(ss, es, w, k) ==> Calls(ss, es, window, w, k) > 0
    ensures !(Waiting(ss[k], w) && Lost(ss, es, w, k))
  {
    RunKeepsInv(ss, es, window, k);
    if Lost(ss, es, w, k) {
      LostStays(ss, es, window, w, k);
    }
    if w == ss[k].windows {
      CounterCountsCalls(ss, es, window, w, k);
    }
  }

  lemma {:induction false} WindowsGrow(ss: seq<State>, es: seq<Event>, window: nat, i: nat, j: nat)
    requires IsRun(ss, es, window) && i <= j < |ss|
    ensures ss[i].windows <= ss[j].windows
    ensures ss[i].windows == ss[j].windows ==> ss[j].openedAt == ss[i].openedAt
    decreases j
  {
    if i < j {
      WindowsGrow(ss, es, window, i, j - 1);
    }
  }

  /** Windows are disjoint: a call of a later window comes at least one length after the earlier one opened. */
  lemma {:induction false} WindowsAreDisjoint(ss: seq<State>, es: seq<Event>, window: nat, i: nat, j: nat)
    requires IsRun(ss, es, window) && i < j < |ss|
    requires 0 < ss[i].windows < ss[j].windows
    ensures es[j - 1].now >= ss[i].openedAt + window
    decreases j
  {
    RunKeepsInv(ss, es, window, j - 1);
    if i < j - 1 && ss[i].windows < ss[j - 1].windows {
      WindowsAreDisjoint(ss, es, window, i, j - 1);
      assert es[j - 2].now <= es[j - 1].now;
    } else {
      WindowsGrow(ss, es, window, i, j - 1);
    }
  }

  /** The EXPIRE of a window fixes when its key ends, whatever calls the window still gets. */
  lemma {:induction false} ExpiryIsFixed(ss: seq<State>, es: seq<Event>, window: nat, i: nat, m: nat)
    requires IsRun(ss, es, window) && i < m < |ss| && es[i].command == Expire && ss[m].windows == ss[i].windows
    ensures ss[m].key.Key? && ss[m].key.expiresAt == Some(es[i].now + window) && !ss[m].pending
    decreases m
  {
    RunKeepsInv(ss, es, window, m - 1);
    if i + 1 < m {
      WindowsGrow(ss, es, window, i, m - 1);
      WindowsGrow(ss, es, window, m - 1, m);
      ExpiryIsFixed(ss, es, window, i, m - 1);
    }
  }

  /**
   A window lasts exactly its length from its EXPIRE on: the first INCR that opens another one is the first at or
   after that moment.
   */
  lemma {:induction false} WindowEndsIff(ss: seq<State>, es: seq<Event>, window: nat, i: nat, j: nat)
    requires IsRun(ss, es, window) && i < j < |es| && es[i].command == Expire && es[j].command == Incr
    requires ss[j].windows == ss[i].windows
    ensures ss[j + 1].windows == ss[j].windows + 1 <==> es[j].now >= es[i].now + window
    ensures ss[j + 1].windows == ss[j].windows <==> es[j].now < es[i].now + window
    ensures ss[j + 1].key == if es[j].now >= es[i].now + window then Key(1, None)
                             else Key(ss[j].key.count + 1, Some(es[i].now + window))
  {
    ExpiryIsFixed(ss, es, window, i, j);
    RunKeepsInv(ss, es, window, j);
  }

  /** Within its window a key is still there at any earlier moment of the window. */
  lemma {:induction false} KeyStays(ss: seq<State>, es: seq<Event>, window: nat, i: nat, m: nat)
    requires IsRun(ss, es, window) && window >= 1 && i < m < |ss| && ss[m].windows == ss[i + 1].windows
    ensures Exists(ss[m].key, es[i].now)
    decreases m
  {
    RunKeepsInv(ss, es, window, i);
    if i + 1 < m {
      WindowsGrow(ss, es, window, i + 1, m - 1);
      WindowsGrow(ss, es, window, m - 1, m);
      KeyStays(ss, es, window, i, m - 1);
      RunKeepsInv(ss, es, window, m - 1);
      assert es[i].now <= es[m - 1].now;
    }
  }

  /** The call that opened the window after the one at i; it came strictly later than any event of that window. */
  lemma {:induction false} OpeningOf(ss: seq<State>, es: seq<Event>, window: nat, i: nat, j: nat) returns (p: nat)
    requires IsRun(ss, es, window) && window >= 1 && i + 1 < j < |ss| && ss[j].windows == ss[i + 1].windows + 1
    ensures i < p < j && ss[p + 1].windows == ss[j].windows && ss[p + 1].openedAt == es[p].now > es[i].now
    decreases j
  {
    WindowsGrow(ss, es, window, i + 1, j - 1);
    WindowsGrow(ss, es, window, j - 1, j);
    if ss[j - 1].windows == ss[j].windows {
      p := OpeningOf(ss, es, window, i, j - 1);
    } else {
      p := j - 1;
      KeyStays(ss, es, window, i, p);
      RunKeepsInv(ss, es, window, p);
      assert es[i].now <= es[p].now;
    }
  }

  /** The accepted calls among events i..j. */
  function AcceptedBetween(ss: seq<State>, es: seq<Event>, window: nat, limit: nat, failClosed: bool, i: nat,
                           j: nat): nat
    requires i <= j <= |es| <= |ss|
  {
    if i == j then 0
    else AcceptedBetween(ss, es, window, limit, failClosed, i, j - 1)
         + (if Accepted(ss[j - 1], es[j - 1], window, limit, failClosed) then 1 else 0)
  }

  /** The events of one window length fall into at most two windows. */
  lemma {:induction false} TwoWindows(ss: seq<State>, es: seq<Event>, window: nat, i: nat, j: nat)
    requires IsRun(ss, es, window) && window >= 1 && i < j <= |es| && es[j - 1].now <= es[i].now + window
    ensures ss[i + 1].windows <= ss[j].windows <= ss[i + 1].windows + 1
  {
    WindowsGrow(ss, es, window, i + 1, j);
    if ss[j].windows > ss[i + 1].windows + 1 {
      var m := FirstAfter(ss, es, window, i + 1, j);
      var p := OpeningOf(ss, es, window, i, m);
      WindowsGrow(ss, es, window, p + 1, j);
      RunKeepsInv(ss, es, window, p + 1);
      WindowsAreDisjoint(ss, es, window, p + 1, j);
    }
  }

  lemma {:induction false} FirstAfter(ss: seq<State>, es: seq<Event>, window: nat, i: nat, j: nat) returns (m: nat)
    requires IsRun(ss, es, window) && i < j < |ss| && ss[j].windows > ss[i].windows
    ensures i < m <= j && ss[m].windows == ss[i].windows + 1
    decreases j
  {
    WindowsGrow(ss, es, window, i, j - 1);
    if ss[j - 1].windows > ss[i].windows {
      m := FirstAfter(ss, es, window, i, j - 1);
    } else {
      m := j;
    }
  }

  lemma {:induction false} TwoWindowsBetween(ss: seq<State>, es: seq<Event>, window: nat, limit: nat,
                                             failClosed: bool, i: nat, j: nat)
    requires IsRun(ss, es, window) && window >= 1 && i < j <= |es| && es[j - 1].now <= es[i].now + window
    ensures var w := ss[i + 1].windows;
            var here, next := AcceptedCalls(ss, es, window, limit, failClosed, w, j),
                              AcceptedCalls(ss, es, window, limit, failClosed, w + 1, j);
            AcceptedBetween(ss, es, window, limit, failClosed, i, j) <= here + next
    decreases j
  {
    hide Accepted;
    TwoWindows(ss, es, window, i, j);
    if i < j - 1 {
      assert es[j - 2].now <= es[j - 1].now;
      TwoWindowsBetween(ss, es, window, limit, failClosed, i, j - 1);
    }
  }

  /**
   Any closed interval of one window length holds at most 2 * limit accepted calls, in every run; with a limit
   of zero and `fail_closed` off, one lost EXPIRE lets one call through.
   */
  lemma {:induction false} AtMostTwiceTheLimit(ss: seq<State>, es: seq<Event>, window: nat, limit: nat,
                                               failClosed: bool, i: nat, j: nat)
    requires IsRun(ss, es, window) && window >= 1 && i < j <= |es| && es[j - 1].now <= es[i].now + window
    ensures AcceptedBetween(ss, es, window, limit, failClosed, i, j)
         <= if limit >= 1 || failClosed then 2 * limit else 1
  {
    var w := ss[i + 1].windows;
    TwoWindowsBetween(ss, es, window, limit, failClosed, i, j);
    WindowAccepts(ss, es, window, limit, failClosed, w, j);
    WindowAccepts(ss, es, window, limit, failClosed, w + 1, j);
    hide IsRun;
    assert !(Lost(ss, es, w, j) && Lost(ss, es, w + 1, j)) by {
      if Lost(ss, es, w, j) && Lost(ss, es, w + 1, j) {
        LostStays(ss, es, window, w, j);
        LostStays(ss, es, window, w + 1, j);
      }
    }
  }

  /** While no EXPIRE is lost, every key ends up with an expiry: it lacks one only while its EXPIRE is on the way. */
  lemma {:induction false} KeysExpire(ss: seq<State>, es: seq<Event>, window: nat, k: nat)
    requires IsRun(ss, es, window) && NoLoss(es) && k < |ss|
    ensures ss[k].key.Key? && ss[k].key.expiresAt.None? ==> ss[k].pending
  {
    if k > 0 {
      KeysExpire(ss, es, window, k - 1);
      RunKeepsInv(ss, es, window, k - 1);
    }
  }

  lemma {:induction false} NothingLost(ss: seq<State>, es: seq<Event>, w: nat, k: nat)
    requires |ss| == |es| + 1 && NoLoss(es) && k < |ss|
    ensures !Lost(ss, es, w, k)
  {
    if k > 0 {
      NothingLost(ss, es, w, k - 1);
    }
  }

  /**
   While no EXPIRE is lost, a window has accepted exactly min(calls, limit) of its calls, except exactly while its
   counter has no expiry yet and its first call waits for a place below the limit.
   */
  lemma {:induction false} WindowAcceptsMin(ss: seq<State>, es: seq<Event>, window: nat, limit: nat, failClosed: bool,
                                            w: nat, k: nat)
    requires IsRun(ss, es, window) && NoLoss(es) && k < |ss|
    ensures AcceptedCalls(ss, es, window, limit, failClosed, w, k) == Min(Calls(ss, es, window, w, k), limit) <==>
            !(limit >= 1 && w == ss[k].windows && ss[k].key.Key? && ss[k].key.expiresAt.None?)
  {
    NothingLost(ss, es, w, k);
    KeysExpire(ss, es, window, k);
    RunKeepsInv(ss, es, window, k);
    WindowAcceptsMinIff(ss, es, window, limit, failClosed, w, k);
  }

  /** A lost EXPIRE makes the window endless: once the limit is reached no later call is ever accepted. */
  lemma {:induction false} LostExpiryLocksOut(ss: seq<State>, es: seq<Event>, window: nat, limit: nat,
                                              failClosed: bool, i: nat, j: nat)
    requires IsRun(ss, es, window) && i < j < |ss| && es[i].command == ExpireLost
    ensures ss[j].windows == ss[i].windows && ss[j].key.Key? && ss[j].key.expiresAt.None? && !ss[j].pending
    ensures ss[i + 1].key.Key? && ss[j].key.count >= ss[i + 1].key.count
    ensures j < |es| && ss[j].key.count >= limit ==> !Accepted(ss[j], es[j], window, limit, failClosed)
    decreases j
  {
    RunKeepsInv(ss, es, window, i);
    if i + 1 < j {
      LostExpiryLocksOut(ss, es, window, limit, failClosed, i, j - 1);
    }
  }
}
