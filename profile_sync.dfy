/**
 * `extension/profile-sync.js`: on the web app, the page's
 * `profileToken` is copied into the extension storage's `authToken`.
 * A token that differs from the last one seen is pushed through a
 * 150 ms debounce; when the debounce timer fires the storage is set
 * (truthy token) or cleared. A 3-second interval polls the page, and
 * starting the poll first stops a running one.
 *
 * The state is a value (`SyncState`, `Timers`) with one step function
 * per event; the class `Sync` holds the same state in fields that its
 * methods update, each proved to perform the step.
 */
module ProfileSync {
  import opened Wrappers

  const DebounceMs := 150
  const PollIntervalMs := 3000

  /**
   * `lastToken`, the token waiting in the debounce timer (None when no
   * timer is pending), the extension storage's `authToken`, and the
   * number of storage writes issued.
   */
  datatype SyncState = SyncState(
    lastToken: Option<string>,
    pending: Option<Option<string>>,
    stored: Option<string>,
    writes: nat)

  /** The interval handle `pollTimer`, the intervals still running, and the next handle. */
  datatype Timers = Timers(pollTimer: Option<nat>, live: set<nat>, next: nat)

  /** The state when the script starts: nothing seen, nothing pending. */
  function Initial(stored: Option<string>): SyncState {
    SyncState(None, None, stored, 0)
  }

  /** `maybeSync(token)`: a new token replaces `lastToken` and (re)arms the debounce timer. */
  function MaybeSyncStep(s: SyncState, token: Option<string>): SyncState {
    if token == s.lastToken then s
    else s.(lastToken := token, pending := Some(token))
  }

  /**
   * The debounce timer fires: without storage nothing is written;
   * otherwise a truthy token is stored and a falsy one removed.
   */
  function FireStep(s: SyncState, storageAvailable: bool): SyncState {
    match s.pending
    case None => s
    case Some(token) =>
      if !storageAvailable then s.(pending := None)
      else s.(pending := None, stored := if Truthy(token) then token else None, writes := s.writes + 1)
  }

  /** `maybeSync` for each token in turn, with no timer firing in between. */
  function Burst(s: SyncState, tokens: seq<Option<string>>): SyncState
    decreases |tokens|
  {
    if tokens == [] then s else Burst(MaybeSyncStep(s, tokens[0]), tokens[1..])
  }

  /** `stopPolling`: a running interval is cleared and the handle dropped. */
  function StopStep(t: Timers): Timers {
    match t.pollTimer
    case None => t
    case Some(id) => Timers(None, t.live - {id}, t.next)
  }

  /** `startPolling`: stop any running interval, then start a fresh one. */
  function StartStep(t: Timers): Timers {
    var u := StopStep(t);
    Timers(Some(u.next), u.live + {u.next}, u.next + 1)
  }

  /** The only interval that may run is the one `pollTimer` holds; handles are fresh. */
  predicate TimersValid(t: Timers) {
    && (t.pollTimer.None? ==> t.live == {})
    && (t.pollTimer.Some? ==> t.live == {t.pollTimer.value} && t.pollTimer.value < t.next)
  }

  /** The script's state, in fields the handlers update. */
  class Sync {
    const storageAvailable: bool
    var lastToken: Option<string>
    var pending: Option<Option<string>>
    var stored: Option<string>
    var writes: nat
    var pollTimer: Option<nat>
    var live: set<nat>
    var nextTimer: nat

    function State(): SyncState
      reads this
    {
      SyncState(lastToken, pending, stored, writes)
    }

    function TimerState(): Timers
      reads this
    {
      Timers(pollTimer, live, nextTimer)
    }

    constructor(storageAvailable: bool, stored: Option<string>)
      ensures this.storageAvailable == storageAvailable
      ensures State() == Initial(stored)
      ensures TimerState() == Timers(None, {}, 1) && TimersValid(TimerState())
    {
      this.storageAvailable := storageAvailable;
      lastToken := None;
      pending := None;
      this.stored := stored;
      writes := 0;
      pollTimer := None;
      live := {};
      nextTimer := 1;
    }

    /** `maybeSync`, with `pushTokenToExtension` arming the debounce timer. */
    method MaybeSync(token: Option<string>)
      modifies this
      ensures State() == MaybeSyncStep(old(State()), token)
      ensures TimerState() == old(TimerState())
    {
      if token == lastToken {
        return;
      }
      lastToken := token;
      pending := Some(token);
    }

    /** The debounce timer elapses and the pushed token is written. */
    method Fire()
      modifies this
      ensures State() == FireStep(old(State()), storageAvailable)
      ensures TimerState() == old(TimerState())
    {
      if pending.None? {
        return;
      }
      var token := pending.value;
      pending := None;
      if !storageAvailable {
        return;
      }
      if Truthy(token) {
        stored := token;
      } else {
        stored := None;
      }
      writes := writes + 1;
    }

    /** `stopPolling`. */
    method StopPolling()
      modifies this
      ensures TimerState() == StopStep(old(TimerState()))
      ensures State() == old(State())
    {
      if pollTimer.Some? {
        live := live - {pollTimer.value};
        pollTimer := None;
      }
    }

    /** `startPolling`. */
    method StartPolling()
      modifies this
      ensures TimerState() == StartStep(old(TimerState()))
      ensures State() == old(State())
    {
      StopPolling();
      pollTimer := Some(nextTimer);
      live := live + {nextTimer};
      nextTimer := nextTimer + 1;
    }

    /** `init`: the first sync with the page's token, then polling. */
    method Init(pageToken: Option<string>)
      modifies this
      ensures State() == MaybeSyncStep(old(State()), pageToken)
      ensures TimerState() == StartStep(old(TimerState()))
    {
      MaybeSync(pageToken);
      StartPolling();
    }
  }

  // ---------------------------------------------------------------------
  // Properties
  // ---------------------------------------------------------------------

  /** Seeing the token already seen changes nothing and arms no timer. */
  lemma SameTokenIsIgnored(s: SyncState, token: Option<string>)
    ensures token == s.lastToken ==> MaybeSyncStep(s, token) == s
    ensures token != s.lastToken ==>
      MaybeSyncStep(s, token).lastToken == token && MaybeSyncStep(s, token).pending == Some(token)
    ensures MaybeSyncStep(s, token).stored == s.stored && MaybeSyncStep(s, token).writes == s.writes
  {
  }

  /**
   * A burst of tokens seen before the debounce timer fires writes
   * nothing; afterwards the last token is the one remembered, and the
   * timer carries it unless every token equalled the one already seen.
   */
  lemma {:induction false} BurstIsDebounced(s: SyncState, tokens: seq<Option<string>>)
    ensures Burst(s, tokens).stored == s.stored && Burst(s, tokens).writes == s.writes
    ensures tokens != [] ==> Burst(s, tokens).lastToken == tokens[|tokens| - 1]
    ensures tokens == [] ==> Burst(s, tokens) == s
    ensures (forall k :: 0 <= k < |tokens| ==> tokens[k] == s.lastToken) ==> Burst(s, tokens) == s
    ensures (exists k :: 0 <= k < |tokens| && tokens[k] != s.lastToken) ==>
      Burst(s, tokens).pending == Some(tokens[|tokens| - 1])
    decreases |tokens|
  {
    if tokens != [] {
      var s' := MaybeSyncStep(s, tokens[0]);
      var rest := tokens[1..];
      BurstIsDebounced(s', rest);
      assert forall k :: 1 <= k < |tokens| ==> tokens[k] == rest[k - 1];
      if tokens[0] != s.lastToken && rest != [] && (forall k :: 0 <= k < |rest| ==> rest[k] == s'.lastToken) {
        assert tokens[|tokens| - 1] == rest[|rest| - 1];
      }
      if tokens[0] == s.lastToken && (exists k :: 0 <= k < |tokens| && tokens[k] != s.lastToken) {
        var k :| 0 <= k < |tokens| && tokens[k] != s.lastToken;
        assert rest[k - 1] != s'.lastToken;
      }
    }
  }

  /**
   * However many tokens a burst holds, when the debounce timer then
   * fires the storage is written at most once, with the last token: set
   * when it is truthy, removed when it is not.
   */
  lemma BurstWritesOnce(s: SyncState, tokens: seq<Option<string>>, storageAvailable: bool)
    requires s.pending.None?
    ensures var t := FireStep(Burst(s, tokens), storageAvailable);
      && t.pending.None?
      && s.writes <= t.writes <= s.writes + 1
      && (t.writes == s.writes + 1 <==>
            storageAvailable && exists k :: 0 <= k < |tokens| && tokens[k] != s.lastToken)
      && (t.writes == s.writes + 1 ==>
            var last := tokens[|tokens| - 1];
            t.stored == (if Truthy(last) then last else None))
      && (t.writes == s.writes ==> t.stored == s.stored)
  {
    BurstIsDebounced(s, tokens);
  }

  /** Stopping leaves no interval running, and stopping twice is stopping once. */
  lemma StopIsIdempotent(t: Timers)
    requires TimersValid(t)
    ensures StopStep(t).pollTimer.None? && StopStep(t).live == {}
    ensures StopStep(StopStep(t)) == StopStep(t)
  {
  }

  /**
   * Starting the poll keeps one interval running, the new one, whatever
   * ran before: starting twice does not leave two intervals.
   */
  lemma StartKeepsOneInterval(t: Timers)
    requires TimersValid(t)
    ensures TimersValid(StartStep(t))
    ensures StartStep(t).live == {StartStep(t).pollTimer.value}
    ensures t.pollTimer.Some? ==> t.pollTimer.value !in StartStep(t).live
    ensures |StartStep(StartStep(t)).live| == 1
  {
  }
}
