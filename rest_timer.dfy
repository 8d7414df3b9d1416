/**
 * The rest countdown of src/components/workouts/active/RestTimer.tsx: a
 * local `timeLeft` / `initialTime` / `isPaused` that ticks once a second
 * while the store is resting, writes every new value back to the store,
 * ends the rest at the store when it runs out, and re-synchronises with the
 * store whenever the store's rest fields change.
 */
module RestTimer {
  import opened Wrappers
  import opened JsText
  import opened WorkoutStore

  /** The component's local state. */
  datatype RestView = RestView(timeLeft: int, initialTime: int, isPaused: bool)

  /** The store fields the component reads and writes. */
  datatype RestStore = RestStore(isResting: bool, remaining: int)

  function Abs(x: int): int {
    if x < 0 then -x else x
  }

  /** The synchronisation effect (lines 33-51): while resting, adopt the
      store's value only when it is more than 2 seconds away, and raise
      `initialTime` to it; otherwise reset everything. */
  function SyncView(v: RestView, st: RestStore): (r: RestView)
    ensures st.isResting ==> r.isPaused == v.isPaused
    ensures st.isResting ==> r.initialTime == (if st.remaining > v.initialTime then st.remaining else v.initialTime)
    ensures st.isResting ==> Abs(r.timeLeft - st.remaining) <= 2
    ensures st.isResting ==> (r.timeLeft != v.timeLeft ==> r.timeLeft == st.remaining)
    ensures !st.isResting ==> r == RestView(0, 0, false)
  {
    if st.isResting then
      var t := if Abs(st.remaining - v.timeLeft) > 2 then st.remaining else v.timeLeft;
      var i := if st.remaining > v.initialTime then st.remaining else v.initialTime;
      RestView(t, i, v.isPaused)
    else
      RestView(0, 0, false)
  }

  /** No interval runs while the store is not resting or the view is paused. */
  predicate Ticking(v: RestView, st: RestStore) {
    st.isResting && !v.isPaused
  }

  /** One interval callback (lines 60-73): at 1 second or less the store is
      set to 0 and the rest completed; else one second less, locally and at
      the store. */
  function TickRest(v: RestView, st: RestStore): (r: (RestView, RestStore))
    ensures !Ticking(v, st) ==> r == (v, st)
    ensures Ticking(v, st) && v.timeLeft <= 1 ==> r == (v, RestStore(false, 0))
    ensures Ticking(v, st) && v.timeLeft > 1 ==>
              r.0 == v.(timeLeft := v.timeLeft - 1) && r.1 == RestStore(true, v.timeLeft - 1)
  {
    if !Ticking(v, st) then (v, st)
    else if v.timeLeft <= 1 then (v, RestStore(false, 0))
    else (v.(timeLeft := v.timeLeft - 1), st.(remaining := v.timeLeft - 1))
  }

  /** addTime(seconds) (lines 93-98). */
  function AddTime(v: RestView, st: RestStore, seconds: int): (r: (RestView, RestStore))
    ensures r.0.timeLeft == v.timeLeft + seconds && r.0.initialTime == v.initialTime + seconds
    ensures r.0.isPaused == v.isPaused
    ensures r.1 == st.(remaining := r.0.timeLeft)
  {
    (RestView(v.timeLeft + seconds, v.initialTime + seconds, v.isPaused), st.(remaining := v.timeLeft + seconds))
  }

  /** A tick followed by the synchronisation it triggers. */
  function Second(v: RestView, st: RestStore): (RestView, RestStore) {
    var (v1, st1) := TickRest(v, st);
    (SyncView(v1, st1), st1)
  }

  /** `n` seconds of an undisturbed rest. */
  function Seconds(v: RestView, st: RestStore, n: nat): (RestView, RestStore)
    decreases n
  {
    if n == 0 then (v, st)
    else
      var (v1, st1) := Second(v, st);
      Seconds(v1, st1, n - 1)
  }

  /** A running rest whose view agrees with the store at T >= 1 seconds
      counts down in step with the store and ends after exactly T seconds:
      the store is then not resting with 0 remaining and the view is reset. */
  lemma {:induction false} RestRunsOut(v: RestView, st: RestStore, n: nat)
    requires Ticking(v, st) && v.timeLeft == st.remaining && v.initialTime >= v.timeLeft >= 1
    requires n <= v.timeLeft
    ensures var (v', st') := Seconds(v, st, n);
            && (n < v.timeLeft ==> && st' == RestStore(true, v.timeLeft - n)
                                   && v' == v.(timeLeft := v.timeLeft - n))
            && (n == v.timeLeft ==> st' == RestStore(false, 0) && v' == RestView(0, 0, false))
    decreases n
  {
    if n > 0 {
      if v.timeLeft == 1 {
        assert Second(v, st) == (RestView(0, 0, false), RestStore(false, 0));
        assert n == 1;
      } else {
        var (v1, st1) := Second(v, st);
        assert v1 == v.(timeLeft := v.timeLeft - 1) && st1 == RestStore(true, v.timeLeft - 1);
        RestRunsOut(v1, st1, n - 1);
      }
    }
  }

  /** While paused nothing changes, second after second. */
  lemma {:induction false} PausedRestHolds(v: RestView, st: RestStore, n: nat)
    requires st.isResting && v.isPaused && SyncView(v, st) == v
    ensures Seconds(v, st, n) == (v, st)
    decreases n
  {
    if n > 0 {
      PausedRestHolds(v, st, n - 1);
    }
  }

  /** The component is mounted only while the store is resting, with both
      counters at the store's value: its first synchronisation changes
      nothing, and from there the rest runs out as RestRunsOut says. */
  lemma MountedInAgreement(st: RestStore)
    requires st.isResting
    ensures var v := RestView(st.remaining, st.remaining, false);
            SyncView(v, st) == v && Ticking(v, st) && v.timeLeft == st.remaining
  {
  }

  /** The drift tolerance: a store value within 2 seconds of the view is not
      adopted; one further away is. */
  lemma DriftTolerance(v: RestView, st: RestStore)
    requires st.isResting
    ensures Abs(st.remaining - v.timeLeft) <= 2 <==> SyncView(v, st).timeLeft == v.timeLeft
  {
  }

  /** Adding time keeps the view and the store in agreement. */
  lemma AddTimeAgrees(v: RestView, st: RestStore, seconds: int)
    requires st.isResting && v.initialTime >= v.timeLeft
    ensures var (v1, st1) := AddTime(v, st, seconds);
            && v1.timeLeft == st1.remaining
            && SyncView(v1, st1) == v1
  {
  }

  /** `formatTime` (lines 87-91): minutes, a colon, seconds padded to two. */
  function FormatRest(seconds: int): string {
    IntToString(FloorDiv(seconds, 60)) + ":" + PadStart2(IntToString(JsRem(seconds, 60)))
  }

  /** Reads `m:ss` back: the digits before the colon are minutes, the two
      after it seconds. */
  function ParseMinSec(t: string): Option<int> {
    if |t| >= 4 && t[|t| - 3] == ':' && AllDigits(t[..|t| - 3]) && IsDigit(t[|t| - 2]) && IsDigit(t[|t| - 1])
    then Some(60 * ParseDigits(t[..|t| - 3]) + 10 * DigitValue(t[|t| - 2]) + DigitValue(t[|t| - 1]))
    else None
  }

  /** A text of digits, a colon and two digits reads as the minutes
      times sixty plus the seconds, here `total`. */
  lemma MinSecValue(t: string, total: int)
    requires |t| >= 4 && t[|t| - 3] == ':' && AllDigits(t[..|t| - 3]) && IsDigit(t[|t| - 2]) && IsDigit(t[|t| - 1])
    requires total == 60 * ParseDigits(t[..|t| - 3]) + 10 * DigitValue(t[|t| - 2]) + DigitValue(t[|t| - 1])
    ensures ParseMinSec(t) == Some(total)
  {
  }

  /** Digits, a colon and two digits read back piece by piece. */
  lemma ParseMinSecPieces(ms: string, ss: string, total: int)
    requires 1 <= |ms| && AllDigits(ms)
    requires |ss| == 2 && IsDigit(ss[0]) && IsDigit(ss[1])
    requires total == 60 * ParseDigits(ms) + 10 * DigitValue(ss[0]) + DigitValue(ss[1])
    ensures ParseMinSec(ms + ":" + ss) == Some(total)
  {
    ColonSplit(ms, ss);
    var t := ms + ":" + ss;
    assert t[|t| - 2] == ss[0] && t[|t| - 1] == ss[1];
    MinSecValue(t, total);
  }

  /** Every non-negative duration prints as `m:ss` and reads back to itself. */
  lemma FormatRestRoundTrip(seconds: int)
    requires seconds >= 0
    ensures ParseMinSec(FormatRest(seconds)) == Some(seconds)
  {
    var m, s := seconds / 60, seconds % 60;
    assert FloorDiv(seconds, 60) == m && JsRem(seconds, 60) == s;
    var ms, ss := NatToString(m), PadStart2(IntToString(s));
    assert IntToString(m) == ms;
    TwoDigits(s);
    ParseNatToString(m);
    ParseMinSecPieces(ms, ss, seconds);
  }

  /** The seconds field of a non-negative duration is below 60: its tens
      digit is at most 5. */
  lemma FormatRestSecondsField(seconds: int)
    requires seconds >= 0
    ensures var t := FormatRest(seconds); |t| >= 4 && '0' <= t[|t| - 2] <= '5'
  {
    var s := seconds % 60;
    assert JsRem(seconds, 60) == s;
    var ms, ss := IntToString(FloorDiv(seconds, 60)), PadStart2(IntToString(s));
    TwoDigits(s);
    var t := ms + ":" + ss;
    assert t[|t| - 2] == ss[0];
  }

  /** The mounted component: its local state and the store it drives. */
  class RestCountdown {
    var timeLeft: int
    var initialTime: int
    var isPaused: bool
    const store: Store

    function View(): RestView
      reads this
    {
      RestView(timeLeft, initialTime, isPaused)
    }

    function StoreView(): RestStore
      reads this, store
    {
      RestStore(store.isResting, store.restTimeRemaining)
    }

    /** Mounting: both counters start at the store's remaining rest. */
    constructor (store: Store)
      ensures this.store == store
      ensures timeLeft == store.restTimeRemaining && initialTime == store.restTimeRemaining && !isPaused
    {
      this.store := store;
      timeLeft, initialTime := store.restTimeRemaining, store.restTimeRemaining;
      isPaused := false;
    }

    /** The synchronisation effect, run after the store's rest fields change. */
    method Sync()
      modifies this
      ensures View() == SyncView(old(View()), StoreView())
    {
      if store.isResting {
        var t := timeLeft;
        if Abs(store.restTimeRemaining - t) > 2 {
          timeLeft := store.restTimeRemaining;
        }
        if store.restTimeRemaining > initialTime {
          initialTime := store.restTimeRemaining;
        }
      } else {
        initialTime, timeLeft, isPaused := 0, 0, false;
      }
    }

    /** One interval callback. */
    method Tick()
      modifies this, store`isResting, store`restTimeRemaining
      ensures (View(), StoreView()) == TickRest(old(View()), old(StoreView()))
    {
      if !store.isResting || isPaused {
        return;
      }
      var current := timeLeft;
      if current <= 1 {
        store.UpdateRestTime(0);
        store.CompleteRest();
      } else {
        var newTime := current - 1;
        timeLeft := newTime;
        store.UpdateRestTime(newTime);
      }
    }

    /** addTime(seconds), behind the +10 s and +30 s buttons. */
    method AddTimeBy(seconds: int)
      modifies this, store`restTimeRemaining
      ensures (View(), StoreView()) == AddTime(old(View()), old(StoreView()), seconds)
    {
      var newTime := timeLeft + seconds;
      timeLeft := newTime;
      initialTime := initialTime + seconds;
      store.UpdateRestTime(newTime);
    }

    /** The pause button. */
    method TogglePause()
      modifies this`isPaused
      ensures isPaused == !old(isPaused)
    {
      isPaused := !isPaused;
    }
  }
}
