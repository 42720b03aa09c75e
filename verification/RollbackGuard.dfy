/** The rollback guard: the depth of a rewind is measured from the highest tip held before the first rewind of
    a streak, so a deep rewind split into shallow ones does not pass a per-event limit.
 */
module RollbackDepth {

  import opened Hashing

  /** `peak` and `low`, NULL together outside a streak. */
  datatype Guard = Calm | Streak(peak: int, low: int)

  const MAX_SAFE_INTEGER: int := 0x1F_FFFF_FFFF_FFFF

  // ---------------------------------------------------------------------------
  // The operations as functions of the fields
  // ---------------------------------------------------------------------------

  function Expired(g: Guard, maxDepth: int, tip: int): Guard {
    if g.Streak? && (tip >= g.peak || tip - g.low >= maxDepth) then Calm else g
  }

  function Depth(g: Guard, maxDepth: int, tip: int, target: int): int {
    var e := Expired(g, maxDepth, tip);
    (if e.Calm? then tip else e.peak) - target + 1
  }

  function TooDeep(g: Guard, maxDepth: int, tip: int, target: int): bool {
    Depth(g, maxDepth, tip, target) > maxDepth
  }

  function Recorded(g: Guard, maxDepth: int, tip: int, target: int): Guard {
    match Expired(g, maxDepth, tip)
    case Calm => Streak(tip, target)
    case Streak(peak, low) => Streak(peak, if target < low then target else low)
  }

  /** What `restoreState` accepts: a pair of NULLs or a coherent streak. */
  predicate Coherent(peak: Option<int>, low: Option<int>) {
    peak.Some? && low.Some? && 0 <= low.value <= peak.value <= MAX_SAFE_INTEGER
  }

  class RollbackGuard {
    const maxDepth: int
    var peak: Option<int>
    var low: Option<int>

    ghost predicate Valid()
      reads this
    {
      peak.Some? <==> low.Some?
    }

    ghost function Value(): Guard
      requires Valid()
      reads this
    {
      if peak.None? then Calm else Streak(peak.value, low.value)
    }

    constructor (maxDepth: int)
      ensures Valid() && Value() == Calm && this.maxDepth == maxDepth
    {
      this.maxDepth := maxDepth;
      peak, low := None, None;
    }

    method Reset()
      modifies this
      ensures Valid() && Value() == Calm
    {
      peak, low := None, None;
    }

    method Expire(tip: int)
      requires Valid()
      modifies this
      ensures Valid() && Value() == Expired(old(Value()), maxDepth, tip)
    {
      if peak.None? {
        return;
      }
      if tip >= peak.value || tip - low.value >= maxDepth {
        Reset();
      }
    }

    /** The cumulative depth a rewind would have; only a finished streak is forgotten. */
    method DepthFor(tip: int, target: int) returns (depth: int)
      requires Valid()
      modifies this
      ensures Valid() && Value() == Expired(old(Value()), maxDepth, tip)
      ensures depth == Depth(old(Value()), maxDepth, tip, target)
    {
      Expire(tip);
      var top := if peak.None? then tip else peak.value;
      depth := top - target + 1;
    }

    method Exceeds(tip: int, target: int) returns (refused: bool)
      requires Valid()
      modifies this
      ensures Valid() && Value() == Expired(old(Value()), maxDepth, tip)
      ensures refused == TooDeep(old(Value()), maxDepth, tip, target)
    {
      var depth := DepthFor(tip, target);
      refused := depth > maxDepth;
    }

    method Record(tip: int, target: int)
      requires Valid()
      modifies this
      ensures Valid() && Value() == Recorded(old(Value()), maxDepth, tip, target)
    {
      Expire(tip);
      if peak.None? {
        peak := Some(tip);
      }
      low := Some(if low.None? || target < low.value then target else low.value);
    }

    method ToState() returns (savedPeak: Option<int>, savedLow: Option<int>)
      ensures savedPeak == peak && savedLow == low
    {
      savedPeak, savedLow := peak, low;
    }

    /** Anything but a coherent streak restores as no streak. */
    method RestoreState(savedPeak: Option<int>, savedLow: Option<int>)
      modifies this
      ensures Valid()
      ensures Value() == if savedPeak.Some? && savedLow.Some?
                            && 0 <= savedLow.value <= savedPeak.value <= 9_007_199_254_740_991
                         then Streak(savedPeak.value, savedLow.value) else Calm
    {
      Reset();
      if Coherent(savedPeak, savedLow) {
        peak, low := savedPeak, savedLow;
      }
    }
  }

  // ---------------------------------------------------------------------------
  // Runs
  // ---------------------------------------------------------------------------

  /** `Admit` is a rewind beyond the limit admitted on quorum evidence; `Restart` saves and restores. */
  datatype Event = Advance(tip: int) | Rewind(target: int) | Admit(target: int) | Restart

  /** The replica's tip, the guard, and the highest tip ever held. */
  datatype State = State(tip: int, guard: Guard, highest: int)

  ghost function Restored(g: Guard): Guard {
    if g.Streak? && !Coherent(Some(g.peak), Some(g.low)) then Calm else g
  }

  /** A new process restores what the old one saved. */
  method RestartGuard(guard: RollbackGuard) returns (next: RollbackGuard)
    requires guard.Valid()
    ensures fresh(next) && next.Valid() && next.maxDepth == guard.maxDepth
    ensures next.Value() == Restored(guard.Value())
  {
    var savedPeak, savedLow := guard.ToState();
    next := new RollbackGuard(guard.maxDepth);
    next.RestoreState(savedPeak, savedLow);
  }

  /** Tips only rise between rewinds; a rewind names a block at or below the tip, and passes the guard unless
      it is admitted beyond the limit. */
  ghost predicate Possible(s: State, maxDepth: int, e: Event) {
    match e
    case Advance(tip) => s.tip <= tip <= MAX_SAFE_INTEGER
    case Rewind(target) => 0 <= target <= s.tip && !TooDeep(s.guard, maxDepth, s.tip, target)
    case Admit(target) => 0 <= target <= s.tip && TooDeep(s.guard, maxDepth, s.tip, target)
    case Restart => true
  }

  ghost function Step(s: State, maxDepth: int, e: Event): State {
    match e
    case Advance(tip) => State(tip, s.guard, if tip > s.highest then tip else s.highest)
    case Rewind(target) => State(target - 1, Recorded(s.guard, maxDepth, s.tip, target), s.highest)
    case Admit(target) => State(target - 1, Recorded(s.guard, maxDepth, s.tip, target), s.highest)
    case Restart => s.(guard := Restored(s.guard))
  }

  ghost predicate Run(states: seq<State>, maxDepth: int, events: seq<Event>) {
    && |states| == |events| + 1
    && forall i :: 0 <= i < |events| ==>
         Possible(states[i], maxDepth, events[i]) && states[i + 1] == Step(states[i], maxDepth, events[i])
  }

  /** A replica that has never rewound. */
  ghost predicate Start(s: State) {
    s.guard == Calm && s.highest == s.tip && s.tip <= MAX_SAFE_INTEGER
  }

  /** A streak is always one `restoreState` accepts. */
  ghost predicate Saveable(s: State) {
    && s.tip <= MAX_SAFE_INTEGER
    && (s.guard.Streak? ==> 0 <= s.guard.low <= s.guard.peak <= MAX_SAFE_INTEGER)
  }

  /** No rewind of the streak went beyond the limit, and the streak's peak or the tip is the highest ever. */
  ghost predicate WithinLimit(s: State, maxDepth: int) {
    match s.guard
    case Calm => s.highest == s.tip
    case Streak(peak, low) =>
      && s.highest == (if s.tip > peak then s.tip else peak)
      && peak - low + 1 <= maxDepth
  }

  lemma {:induction false} AlwaysSaveable(states: seq<State>, maxDepth: int, events: seq<Event>, i: nat)
    requires Run(states, maxDepth, events) && Start(states[0]) && i <= |events|
    ensures Saveable(states[i])
  {
    if i > 0 {
      AlwaysSaveable(states, maxDepth, events, i - 1);
      assert states[i - 1 + 1] == Step(states[i - 1], maxDepth, events[i - 1]);
    }
  }

  /** Saving and restoring at any point of any run gives the guard back, so no later verdict changes. */
  lemma RestartChangesNothing(states: seq<State>, maxDepth: int, events: seq<Event>, i: nat)
    requires Run(states, maxDepth, events) && Start(states[0]) && i <= |events|
    ensures Step(states[i], maxDepth, Restart) == states[i]
  {
    AlwaysSaveable(states, maxDepth, events, i);
  }

  /** `highest` is the maximum of all tips held so far, and a rewind removes its target and everything above. */
  lemma {:induction false} HighestIsMaximum(states: seq<State>, maxDepth: int, events: seq<Event>, i: nat)
    requires Run(states, maxDepth, events) && Start(states[0]) && i <= |events|
    ensures forall k :: 0 <= k <= i ==> states[k].tip <= states[i].highest
    ensures exists k :: 0 <= k <= i && states[k].tip == states[i].highest
    ensures forall k :: 0 <= k < i && Rewinds(events[k]) ==> states[k + 1].tip == events[k].target - 1
  {
    if i > 0 {
      var n := i - 1;
      HighestIsMaximum(states, maxDepth, events, n);
      assert Possible(states[n], maxDepth, events[n]) && states[n + 1] == Step(states[n], maxDepth, events[n]);
      var k :| 0 <= k <= n && states[k].tip == states[n].highest;
      assert states[i].highest == states[k].tip || states[i].highest == states[i].tip;
    }
  }

  ghost predicate Rewinds(e: Event) {
    e.Rewind? || e.Admit?
  }

  /** The streak in force at i began with the rewind at j: its peak is the tip that rewind left, and its low the
      least target since. */
  ghost predicate BeganAt(states: seq<State>, maxDepth: int, events: seq<Event>, j: nat, i: nat)
    requires Run(states, maxDepth, events) && j < i <= |events| && states[i].guard.Streak?
  {
    && Rewinds(events[j]) && Expired(states[j].guard, maxDepth, states[j].tip) == Calm
    && states[i].guard.peak == states[j].tip
    && (forall k :: j < k < i && Rewinds(events[k]) ==> Expired(states[k].guard, maxDepth, states[k].tip).Streak?)
    && (forall k :: j <= k < i && Rewinds(events[k]) ==> states[i].guard.low <= events[k].target)
    && (exists k :: j <= k < i && Rewinds(events[k]) && states[i].guard.low == events[k].target)
  }

  /** In every run the guard in a streak remembers the tip before the streak's first rewind and the least target
      of its rewinds. */
  lemma {:induction false} StreakIsRemembered(states: seq<State>, maxDepth: int, events: seq<Event>, i: nat)
    requires Run(states, maxDepth, events) && Start(states[0]) && i <= |events| && states[i].guard.Streak?
    ensures exists j :: 0 <= j < i && BeganAt(states, maxDepth, events, j, i)
  {
    var n := i - 1;
    assert Possible(states[n], maxDepth, events[n]) && states[n + 1] == Step(states[n], maxDepth, events[n]);
    AlwaysSaveable(states, maxDepth, events, n);
    if Rewinds(events[n]) && Expired(states[n].guard, maxDepth, states[n].tip) == Calm {
      assert BeganAt(states, maxDepth, events, n, i);
    } else {
      StreakIsRemembered(states, maxDepth, events, n);
      var j :| 0 <= j < n && BeganAt(states, maxDepth, events, j, n);
      var k :| j <= k < n && Rewinds(events[k]) && states[n].guard.low == events[k].target;
      if Rewinds(events[n]) && events[n].target < states[n].guard.low {
        assert states[i].guard.low == events[n].target;
      } else {
        assert states[i].guard.low == events[k].target;
      }
      assert BeganAt(states, maxDepth, events, j, i);
    }
  }

  lemma {:induction false} AlwaysWithinLimit(states: seq<State>, maxDepth: int, events: seq<Event>, i: nat)
    requires Run(states, maxDepth, events) && Start(states[0]) && i <= |events|
    requires forall k :: 0 <= k < i ==> !events[k].Admit?
    ensures WithinLimit(states[i], maxDepth)
  {
    if i > 0 {
      AlwaysWithinLimit(states, maxDepth, events, i - 1);
      AlwaysSaveable(states, maxDepth, events, i - 1);
      assert states[i - 1 + 1] == Step(states[i - 1], maxDepth, events[i - 1]);
      assert !events[i - 1].Admit?;
    }
  }

  /** While no rewind was admitted beyond the limit, the guard refines a running maximum: it refuses a rewind
      exactly when the highest tip ever held minus the target, plus one, is over the limit. No way of
      splitting a deep rewind gets through. */
  lemma RefinesRunningMaximum(states: seq<State>, maxDepth: int, events: seq<Event>, i: nat, target: int)
    requires Run(states, maxDepth, events) && Start(states[0]) && i <= |events|
    requires forall k :: 0 <= k < i ==> !events[k].Admit?
    ensures TooDeep(states[i].guard, maxDepth, states[i].tip, target) <==> states[i].highest - target + 1 > maxDepth
  {
    AlwaysWithinLimit(states, maxDepth, events, i);
  }

  /** What the guard measures depth from: the peak, or the tip once the streak has expired. */
  ghost function Reference(s: State, maxDepth: int): int {
    var e := Expired(s.guard, maxDepth, s.tip);
    if e.Calm? then s.tip else e.peak
  }

  /** The guard agrees with the running maximum on every target if and only if its reference is the highest tip
      ever held; otherwise the reference is lower, and exactly the targets in the gap are let through. */
  lemma AgreesExactly(states: seq<State>, maxDepth: int, events: seq<Event>, i: nat)
    requires Run(states, maxDepth, events) && Start(states[0]) && i <= |events|
    ensures Reference(states[i], maxDepth) <= states[i].highest
    ensures (forall target :: TooDeep(states[i].guard, maxDepth, states[i].tip, target) <==>
             states[i].highest - target + 1 > maxDepth)
            <==> Reference(states[i], maxDepth) == states[i].highest
    ensures forall target ::
              (states[i].highest - target + 1 > maxDepth
               && !TooDeep(states[i].guard, maxDepth, states[i].tip, target)) <==>
              Reference(states[i], maxDepth) - maxDepth + 1 <= target < states[i].highest - maxDepth + 1
  {
    NeverAboveHighest(states, maxDepth, events, i);
    var s := states[i];
    var gap := Reference(s, maxDepth) - maxDepth + 1;
    if Reference(s, maxDepth) < s.highest {
      assert !TooDeep(s.guard, maxDepth, s.tip, gap) && s.highest - gap + 1 > maxDepth;
    }
  }

  lemma {:induction false} NeverAboveHighest(states: seq<State>, maxDepth: int, events: seq<Event>, i: nat)
    requires Run(states, maxDepth, events) && Start(states[0]) && i <= |events|
    ensures states[i].tip <= states[i].highest
    ensures (states[i].guard.Streak? ==> states[i].guard.peak <= states[i].highest)
  {
    if i > 0 {
      NeverAboveHighest(states, maxDepth, events, i - 1);
      assert states[i - 1 + 1] == Step(states[i - 1], maxDepth, events[i - 1]);
      assert Possible(states[i - 1], maxDepth, events[i - 1]);
    }
  }

  /** The climb-out clause ends a streak below its peak only if a rewind was admitted beyond the limit. */
  lemma ClimbOutNeedsAdmission(states: seq<State>, maxDepth: int, events: seq<Event>, i: nat)
    requires Run(states, maxDepth, events) && Start(states[0]) && i <= |events|
    requires var s := states[i]; s.guard.Streak? && s.tip < s.guard.peak && Expired(s.guard, maxDepth, s.tip) == Calm
    ensures exists k :: 0 <= k < i && events[k].Admit?
  {
    if forall k :: 0 <= k < i ==> !events[k].Admit? {
      AlwaysWithinLimit(states, maxDepth, events, i);
    }
  }

  /** Once a rewind beyond the limit left the guard at `low`, every reference depth is measured from at least
      a full limit above it. */
  ghost predicate Above(s: State, maxDepth: int, low: int) {
    match s.guard
    case Calm => s.tip >= low + maxDepth
    case Streak(peak, l) => peak >= low + maxDepth && l >= low
  }

  lemma {:induction false} StaysAbove(states: seq<State>, maxDepth: int, events: seq<Event>, j: nat, i: nat)
    requires Run(states, maxDepth, events) && Start(states[0]) && j < i <= |events| && events[j].Admit?
    requires forall k :: j < k < i ==> !events[k].Admit?
    ensures states[j + 1].guard.Streak? && Above(states[i], maxDepth, states[j + 1].guard.low)
  {
    assert states[j + 1] == Step(states[j], maxDepth, events[j]);
    if i > j + 1 {
      StaysAbove(states, maxDepth, events, j, i - 1);
      AlwaysSaveable(states, maxDepth, events, i - 1);
      assert states[i - 1 + 1] == Step(states[i - 1], maxDepth, events[i - 1]);
      assert !events[i - 1].Admit?;
    }
  }

  /** After a rewind beyond the limit, every rewind the guard accepts, until another is admitted, names a
      target strictly above the low that rewind left. */
  lemma LaterTargetsStayAbove(states: seq<State>, maxDepth: int, events: seq<Event>, j: nat, i: nat)
    requires Run(states, maxDepth, events) && Start(states[0]) && j < i < |events| && events[j].Admit?
    requires forall k :: j < k < i ==> !events[k].Admit?
    requires events[i].Rewind?
    ensures states[j + 1].guard.Streak? && events[i].target > states[j + 1].guard.low
  {
    StaysAbove(states, maxDepth, events, j, i);
    assert Possible(states[i], maxDepth, events[i]);
  }

  /** With the climb-out clause an admitted rewind does let later ones reach below what the highest tip ever
      held would allow: limit 10, tip 100, an admitted rewind to 50, a climb to 60, and a rewind to 51. */
  lemma AdmissionBreaksTheMaximum()
    ensures exists states: seq<State>, events: seq<Event> ::
              && Run(states, 10, events) && Start(states[0]) && |events| == 3 && events[2] == Rewind(51)
              && states[2].highest - 51 + 1 > 10
  {
    var s0 := State(100, Calm, 100);
    var s1 := Step(s0, 10, Admit(50));
    var s2 := Step(s1, 10, Advance(60));
    var s3 := Step(s2, 10, Rewind(51));
    var states, events := [s0, s1, s2, s3], [Admit(50), Advance(60), Rewind(51)];
    assert Run(states, 10, events);
  }
}
