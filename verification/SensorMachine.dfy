/**
 The measurement sensor as a state machine: visibility entries, timers, form submits, clicks and API
 calls arrive in any order, and the queue says what was reported.
 */
module SensorMachine {
  import opened Basics

  type Key = string
  type Element = nat

  const EXPOSURE := "element_exposure"
  const INTERACTION := "element_interaction"
  const START := "process_start"
  const SUCCESS := "process_success"
  const EXPOSURE_DELAY := 1000
  const ALLOWED_EVIDENCE := {"click_proxy", "thank_you_url", "success_state", "application_event"}

  /** Manifest tells the sensor's own reports from those the page pushes through observe(). */
  datatype Event = Event(name: string, subject: Key, manifest: bool)

  datatype Pending = Pending(key: Key, due: nat)

  /** live holds the timers the browser will still fire; timers is the sensor's own record of them. */
  datatype State = State(
    targets: map<Element, Key>, processKeys: set<Key>, clickKeys: set<Key>,
    started: set<Key>, succeeded: set<Key>, exposed: set<Key>, timers: map<Key, nat>,
    live: map<nat, Pending>, nextTimer: nat, now: nat, listening: bool, queue: seq<Event>)

  datatype Step =
    | Entry(element: Element, half: bool)
    | Fire(id: nat)
    | Submit(key: Key)
    | Click(key: Key)
    | Succeed(key: Key, evidence: string)
    | Observe(name: string, subject: Key)
    | Destroy
    | Wait(ms: nat)

  /** What the browser can do next; entries may also arrive late, after an element was let go. */
  predicate Enabled(s: State, step: Step) {
    match step
    case Fire(id) => id in s.live && s.live[id].due <= s.now
    case Submit(key) => s.listening && key in s.processKeys
    case Click(key) => s.listening && key in s.clickKeys
    case _ => true
  }

  function AfterEntry(s: State, element: Element, half: bool): State {
    if element !in s.targets || s.targets[element] in s.exposed then s else
      var key := s.targets[element];
      if half && key !in s.timers then
        s.(timers := s.timers[key := s.nextTimer],
           live := s.live[s.nextTimer := Pending(key, s.now + EXPOSURE_DELAY)],
           nextTimer := s.nextTimer + 1)
      else if !half && key in s.timers then
        s.(timers := s.timers - {key}, live := s.live - {s.timers[key]})
      else s
  }

  function AfterFire(s: State, id: nat): State
    requires id in s.live
  {
    var key := s.live[id].key;
    s.(timers := s.timers - {key}, live := s.live - {id}, exposed := s.exposed + {key},
       queue := s.queue + [Event(EXPOSURE, key, true)])
  }

  function AfterSubmit(s: State, key: Key): State {
    if key in s.started then s
    else s.(started := s.started + {key}, queue := s.queue + [Event(START, key, true)])
  }

  predicate Acceptable(s: State, key: Key, evidence: string) {
    key in s.processKeys && key !in s.succeeded && evidence in ALLOWED_EVIDENCE
  }

  function AfterSucceed(s: State, key: Key, evidence: string): State {
    if Acceptable(s, key, evidence)
    then s.(succeeded := s.succeeded + {key}, queue := s.queue + [Event(SUCCESS, key, true)])
    else s
  }

  /** Clears the recorded timers and removes the listeners; the record itself stays. */
  function AfterDestroy(s: State): State {
    s.(live := s.live - s.timers.Values, listening := false)
  }

  function Next(s: State, step: Step): State
    requires Enabled(s, step)
  {
    match step
    case Entry(element, half) => AfterEntry(s, element, half)
    case Fire(id) => AfterFire(s, id)
    case Submit(key) => AfterSubmit(s, key)
    case Click(key) => s.(queue := s.queue + [Event(INTERACTION, key, true)])
    case Succeed(key, evidence) => AfterSucceed(s, key, evidence)
    case Observe(name, subject) => s.(queue := s.queue + [Event(name, subject, false)])
    case Destroy => AfterDestroy(s)
    case Wait(ms) => s.(now := s.now + ms)
  }

  /** The states of a run, one more than its steps. */
  ghost predicate IsRun(states: seq<State>, steps: seq<Step>) {
    && |states| == |steps| + 1
    && forall i :: 0 <= i < |steps| ==> Enabled(states[i], steps[i]) && states[i + 1] == Next(states[i], steps[i])
  }

  // ---------- what every step keeps ----------

  ghost predicate TimersSound(s: State) {
    && (forall id :: id in s.live ==> s.live[id].key in s.timers && s.timers[s.live[id].key] == id)
    && (forall id :: id in s.live ==> s.live[id].key !in s.exposed)
    && (forall k :: k in s.timers ==> s.timers[k] < s.nextTimer)
    && (forall k, l :: k in s.timers && l in s.timers && k != l ==> s.timers[k] != s.timers[l])
  }

  ghost function Count(queue: seq<Event>, name: string, key: Key): nat {
    multiset(queue)[Event(name, key, true)]
  }

  /** Each key is reported exactly as often as the sensor's sets say: once or never. */
  ghost predicate ReportedOnce(s: State) {
    && (forall k :: Count(s.queue, EXPOSURE, k) == One(k in s.exposed))
    && (forall k :: Count(s.queue, START, k) == One(k in s.started))
    && (forall k :: Count(s.queue, SUCCESS, k) == One(k in s.succeeded))
    && s.succeeded <= s.processKeys
  }

  ghost predicate Invariant(s: State) {
    TimersSound(s) && ReportedOnce(s)
  }

  ghost predicate Initial(s: State) {
    && s.live == map[] && s.timers == map[]
    && s.exposed == {} && s.started == {} && s.succeeded == {}
    && forall e :: e in s.queue ==> e.name != EXPOSURE && e.name != START && e.name != SUCCESS
  }

  lemma InitialHolds(s: State)
    requires Initial(s)
    ensures Invariant(s)
  {
  }

  lemma TimersStaySound(s: State, step: Step)
    requires TimersSound(s) && Enabled(s, step)
    ensures TimersSound(Next(s, step))
  {
  }

  lemma CountMore(queue: seq<Event>, e: Event, name: string, key: Key)
    ensures Count(queue + [e], name, key) == Count(queue, name, key) + One(e == Event(name, key, true))
  {
  }

  lemma ReportsStaySingle(s: State, step: Step)
    requires TimersSound(s) && ReportedOnce(s) && Enabled(s, step)
    ensures ReportedOnce(Next(s, step))
  {
    hide Count;
    forall e, name, key { CountMore(s.queue, e, name, key); }
  }

  lemma {:induction false} RunKeeps(states: seq<State>, steps: seq<Step>)
    requires IsRun(states, steps) && Invariant(states[0])
    ensures Invariant(states[|steps|])
  {
    if steps != [] {
      hide TimersSound, ReportedOnce, Next, Enabled;
      var last := |steps| - 1;
      assert IsRun(states[..|steps|], steps[..last]);
      RunKeeps(states[..|steps|], steps[..last]);
      TimersStaySound(states[last], steps[last]);
      ReportsStaySingle(states[last], steps[last]);
    }
  }

  // ---------- once ----------

  /** Over any run each key has at most one exposure, one start and one accepted success. */
  lemma ReportedAtMostOnce(states: seq<State>, steps: seq<Step>, key: Key)
    requires IsRun(states, steps) && Initial(states[0])
    ensures
      var s := states[|steps|];
      && Count(s.queue, EXPOSURE, key) <= 1
      && Count(s.queue, START, key) <= 1
      && Count(s.queue, SUCCESS, key) <= 1
      && (Count(s.queue, SUCCESS, key) == 1 ==> key in s.processKeys)
  {
    hide Initial, TimersSound, Next, Enabled, Count;
    InitialHolds(states[0]);
    RunKeeps(states, steps);
  }

  /** Only a firing timer reports an exposure. */
  lemma OnlyTimersExpose(s: State, step: Step, key: Key)
    requires Enabled(s, step) && Count(Next(s, step).queue, EXPOSURE, key) > Count(s.queue, EXPOSURE, key)
    ensures step.Fire? && s.live[step.id].key == key
  {
    hide Count;
    forall e { CountMore(s.queue, e, EXPOSURE, key); }
  }

  /** Timers, exposures and starts are of keys that are watched or are processes. */
  ghost predicate Bound(s: State) {
    && (forall id :: id in s.live ==> s.live[id].key in s.targets.Values)
    && s.exposed <= s.targets.Values
    && s.started <= s.processKeys
  }

  lemma BoundStep(s: State, step: Step)
    requires Bound(s) && Enabled(s, step)
    ensures Bound(Next(s, step))
    ensures Next(s, step).targets == s.targets && Next(s, step).processKeys == s.processKeys
  {
  }

  lemma {:induction false} BoundRun(states: seq<State>, steps: seq<Step>, n: nat)
    requires IsRun(states, steps) && Bound(states[0]) && n <= |steps|
    ensures Bound(states[n])
    ensures states[n].targets == states[0].targets && states[n].processKeys == states[0].processKeys
  {
    if n > 0 {
      hide Next, Enabled, Bound, IsRun;
      RunStep(states, steps, n - 1);
      BoundRun(states, steps, n - 1);
      BoundStep(states[n - 1], steps[n - 1]);
    }
  }

  // ---------- long enough in view ----------

  predicate Shows(s: State, step: Step, key: Key) {
    step.Entry? && step.half && step.element in s.targets && s.targets[step.element] == key
  }

  predicate Hides(s: State, step: Step, key: Key) {
    step.Entry? && !step.half && step.element in s.targets && s.targets[step.element] == key
  }

  /** Timer id was set by step i and nothing before step n called it off. */
  ghost predicate SetAndKept(states: seq<State>, steps: seq<Step>, i: nat, n: nat, key: Key, due: nat)
    requires i < n <= |steps| < |states|
  {
    && Shows(states[i], steps[i], key)
    && due == states[i].now + EXPOSURE_DELAY
    && forall j :: i < j < n ==> !Hides(states[j], steps[j], key) && steps[j] != Destroy
  }

  /** A live timer was there before, and not called off, or was set just now. */
  lemma LiveBefore(s: State, step: Step, id: nat)
    requires TimersSound(s) && Enabled(s, step) && id in Next(s, step).live
    ensures
      var p := Next(s, step).live[id];
      if id in s.live then p == s.live[id] && !Hides(s, step, p.key) && step != Destroy
      else Shows(s, step, p.key) && p.due == s.now + EXPOSURE_DELAY
  {
  }

  lemma {:induction false} LiveWasSet(states: seq<State>, steps: seq<Step>, n: nat, id: nat) returns (i: nat)
    requires IsRun(states, steps) && Initial(states[0]) && n <= |steps|
    requires id in states[n].live
    ensures i < n && SetAndKept(states, steps, i, n, states[n].live[id].key, states[n].live[id].due)
    decreases n
  {
    hide TimersSound, ReportedOnce, Next, Enabled, Shows, Hides;
    InvariantAt(states, steps, n);
    NotYetSet(states, steps, n, id);
    InvariantAt(states, steps, n - 1);
    LiveBefore(states[n - 1], steps[n - 1], id);
    if id in states[n - 1].live {
      i := LiveWasSet(states, steps, n - 1, id);
    } else {
      i := n - 1;
    }
  }

  lemma InvariantAt(states: seq<State>, steps: seq<Step>, n: nat)
    requires IsRun(states, steps) && Initial(states[0]) && n <= |steps|
    ensures Invariant(states[n])
  {
    hide TimersSound, ReportedOnce, Next, Enabled;
    InitialHolds(states[0]);
    assert IsRun(states[..n + 1], steps[..n]);
    RunKeeps(states[..n + 1], steps[..n]);
  }

  lemma NotYetSet(states: seq<State>, steps: seq<Step>, n: nat, id: nat)
    requires IsRun(states, steps) && Initial(states[0]) && n <= |steps| && id in states[n].live
    ensures n > 0
  {
  }

  /** An exposure is reported only after its element came half into view, stayed so as far as the
      browser said, for the full delay, with no destroy in between. */
  lemma ExposureJustified(states: seq<State>, steps: seq<Step>, n: nat, key: Key) returns (i: nat)
    requires IsRun(states, steps) && Initial(states[0]) && n < |steps|
    requires Count(states[n + 1].queue, EXPOSURE, key) > Count(states[n].queue, EXPOSURE, key)
    ensures i < n && Shows(states[i], steps[i], key)
    ensures forall j :: i < j < n ==> !Hides(states[j], steps[j], key) && steps[j] != Destroy
    ensures states[n].now >= states[i].now + 1000
  {
    hide TimersSound, ReportedOnce, Shows, Hides, Count;
    OnlyTimersExpose(states[n], steps[n], key);
    i := LiveWasSet(states, steps, n, steps[n].id);
  }

  /** The key was reported, or its timer will fire by the given time. */
  predicate Due(s: State, key: Key, latest: nat) {
    key in s.exposed ||
      (key in s.timers && s.timers[key] in s.live && s.live[s.timers[key]].key == key &&
       s.live[s.timers[key]].due <= latest)
  }

  predicate TimerLive(s: State, k: Key)
    requires k in s.timers
  {
    s.timers[k] in s.live && s.live[s.timers[k]].key == k && s.live[s.timers[k]].due <= s.now + EXPOSURE_DELAY
  }

  /** Until destroy, every recorded timer is a live one. */
  ghost predicate NoLostTimer(s: State) {
    s.listening ==> forall k :: k in s.timers ==> TimerLive(s, k)
  }

  lemma NoneLost(s: State, step: Step)
    requires TimersSound(s) && NoLostTimer(s) && Enabled(s, step)
    ensures NoLostTimer(Next(s, step))
  {
    if s.listening && step != Destroy {
      forall k | k in Next(s, step).timers ensures TimerLive(Next(s, step), k) {
        hide TimerLive, Next;
        KeptTimer(s, step, k);
      }
    }
  }

  lemma KeptTimer(s: State, step: Step, k: Key)
    requires k in s.timers ==> TimerLive(s, k) && s.timers[k] < s.nextTimer
    requires k in s.timers ==> forall l :: l in s.timers && l != k ==> s.timers[l] != s.timers[k]
    requires Enabled(s, step) && step != Destroy && k in Next(s, step).timers
    ensures TimerLive(Next(s, step), k)
  {
  }

  lemma {:induction false} NoneLostInRun(states: seq<State>, steps: seq<Step>, n: nat)
    requires IsRun(states, steps) && Initial(states[0]) && n <= |steps|
    ensures NoLostTimer(states[n])
  {
    if n > 0 {
      hide TimersSound, ReportedOnce, NoLostTimer, Next, Enabled;
      NoneLostInRun(states, steps, n - 1);
      InvariantAt(states, steps, n - 1);
      NoneLost(states[n - 1], steps[n - 1]);
    } else {
      hide Next, Enabled;
    }
  }

  lemma ShownBecomesDue(s: State, step: Step, key: Key)
    requires TimersSound(s) && NoLostTimer(s) && s.listening && Enabled(s, step) && Shows(s, step, key)
    ensures Due(Next(s, step), key, s.now + EXPOSURE_DELAY)
  {
  }

  lemma DueStays(s: State, step: Step, key: Key, latest: nat)
    requires TimersSound(s) && Enabled(s, step) && Due(s, key, latest)
    requires !Hides(s, step, key) && step != Destroy
    ensures Due(Next(s, step), key, latest)
  {
  }

  /** Conversely, what came half into view and stayed so is reported or has a timer that will. */
  lemma {:induction false} ShownIsDue(states: seq<State>, steps: seq<Step>, i: nat, n: nat, key: Key)
    requires IsRun(states, steps) && Initial(states[0]) && i < n <= |steps|
    requires states[i].listening && Shows(states[i], steps[i], key)
    requires forall j :: i < j < n ==> !Hides(states[j], steps[j], key) && steps[j] != Destroy
    ensures Due(states[n], key, states[i].now + 1000)
    decreases n
  {
    hide TimersSound, ReportedOnce, NoLostTimer, Next, Enabled, Shows, Hides, Due, Initial;
    InvariantAt(states, steps, n - 1);
    if n == i + 1 {
      NoneLostInRun(states, steps, i);
      ShownBecomesDue(states[i], steps[i], key);
    } else {
      ShownIsDue(states, steps, i, n - 1, key);
      DueStays(states[n - 1], steps[n - 1], key, states[i].now + EXPOSURE_DELAY);
    }
    assert states[n - 1 + 1] == Next(states[n - 1], steps[n - 1]);
  }

  // ---------- after destroy ----------

  /** So an exposure after destroy needs an entry that was still delivered after it. */
  lemma ExposureAfterDestroy(states: seq<State>, steps: seq<Step>, d: nat, n: nat, key: Key)
    requires IsRun(states, steps) && Initial(states[0]) && d < n < |steps| && steps[d] == Destroy
    requires Count(states[n + 1].queue, EXPOSURE, key) > Count(states[n].queue, EXPOSURE, key)
    ensures exists i :: d < i < n && Shows(states[i], steps[i], key)
  {
    hide IsRun, Initial, Hides, Count;
    var i := ExposureJustified(states, steps, n, key);
    assert i != d;
  }

  lemma {:induction false} ListenersStayOff(states: seq<State>, steps: seq<Step>, d: nat, n: nat)
    requires IsRun(states, steps) && d < n <= |steps| && steps[d] == Destroy
    ensures !states[n].listening
    decreases n
  {
    if d < n - 1 {
      ListenersStayOff(states, steps, d, n - 1);
    }
    assert states[n - 1 + 1] == Next(states[n - 1], steps[n - 1]);
  }

  /** No process starts after destroy. */
  lemma NoStartAfterDestroy(states: seq<State>, steps: seq<Step>, d: nat, n: nat, key: Key)
    requires IsRun(states, steps) && d < n < |steps| && steps[d] == Destroy
    ensures Count(states[n + 1].queue, START, key) == Count(states[n].queue, START, key)
  {
    hide Count;
    ListenersStayOff(states, steps, d, n);
    forall e { CountMore(states[n].queue, e, START, key); }
  }

  /** A watched key that was not reported and has no timer on record. */
  predicate Exposable(s: State, key: Key) {
    key in s.targets.Values && key !in s.exposed && key !in s.timers
  }

  /** A run from s that reports key, without a below-half entry for it. */
  ghost predicate ExposesUnhidden(s: State, states: seq<State>, steps: seq<Step>, key: Key) {
    && Exposes(s, states, steps, key)
    && forall i :: 0 <= i < |steps| ==> !Hides(states[i], steps[i], key)
  }

  ghost predicate Exposes(s: State, states: seq<State>, steps: seq<Step>, key: Key) {
    && IsRun(states, steps) && states[0] == s
    && Count(states[|steps|].queue, EXPOSURE, key) > Count(s.queue, EXPOSURE, key)
  }

  /** No timer for key is live, and none can be set. */
  ghost predicate Blocked(s: State, key: Key) {
    && TimersSound(s)
    && (forall id :: id in s.live ==> s.live[id].key != key)
    && !Exposable(s, key)
  }

  lemma RunStep(states: seq<State>, steps: seq<Step>, i: nat)
    requires IsRun(states, steps) && i < |steps|
    ensures Enabled(states[i], steps[i]) && states[i + 1] == Next(states[i], steps[i])
  {
  }

  lemma QuietWithoutTimer(s: State, step: Step, key: Key)
    requires Enabled(s, step) && forall id :: id in s.live ==> s.live[id].key != key
    ensures Count(Next(s, step).queue, EXPOSURE, key) == Count(s.queue, EXPOSURE, key)
  {
    hide Count;
    forall e { CountMore(s.queue, e, EXPOSURE, key); }
  }

  lemma BlockedStep(s: State, step: Step, key: Key)
    requires Blocked(s, key) && Enabled(s, step) && !Hides(s, step, key)
    ensures Blocked(Next(s, step), key)
  {
    TimersStaySound(s, step);
    hide TimersSound;
  }

  lemma {:induction false} BlockedRun(states: seq<State>, steps: seq<Step>, key: Key, n: nat)
    requires IsRun(states, steps) && Blocked(states[0], key) && n <= |steps|
    requires forall i :: 0 <= i < |steps| ==> !Hides(states[i], steps[i], key)
    ensures Blocked(states[n], key) && Count(states[n].queue, EXPOSURE, key) == Count(states[0].queue, EXPOSURE, key)
  {
    if n > 0 {
      hide IsRun, Next, Enabled, Hides, Count, TimersSound, Exposable;
      RunStep(states, steps, n - 1);
      BlockedRun(states, steps, key, n - 1);
      BlockedStep(states[n - 1], steps[n - 1], key);
      QuietWithoutTimer(states[n - 1], steps[n - 1], key);
    }
  }

  lemma DestroyedIsBlocked(s: State, key: Key)
    requires TimersSound(s) && !Exposable(s, key)
    ensures Blocked(Next(s, Destroy), key)
  {
  }

  /** One late entry, and the delay, suffice. */
  lemma LateEntryExposes(s: State, key: Key) returns (states: seq<State>, steps: seq<Step>)
    requires TimersSound(s) && Exposable(s, key)
    ensures ExposesUnhidden(s, states, steps, key)
  {
    var element :| element in s.targets && s.targets[element] == key;
    steps := [Entry(element, true), Wait(EXPOSURE_DELAY), Fire(s.nextTimer)];
    var s1 := Next(s, steps[0]);
    var s2 := Next(s1, steps[1]);
    var s3 := Next(s2, steps[2]);
    states := [s, s1, s2, s3];
    CountMore(s.queue, Event(EXPOSURE, key, true), EXPOSURE, key);
  }

  /**
   The sensor does not remember that it was destroyed. After it, some run without a below-half entry
   for key reports key exactly if key is watched, was not reported, and had no timer on record.
   */
  lemma ExposableAfterDestroyIff(s: State, key: Key)
    requires TimersSound(s)
    ensures (exists states, steps :: ExposesUnhidden(Next(s, Destroy), states, steps, key)) <==> Exposable(s, key)
  {
    TimersStaySound(s, Destroy);
    if Exposable(s, key) {
      var states, steps := LateEntryExposes(Next(s, Destroy), key);
    } else {
      DestroyedIsBlocked(s, key);
      hide Next, Count, Hides, Blocked;
      forall states, steps ensures !ExposesUnhidden(Next(s, Destroy), states, steps, key) {
        if ExposesUnhidden(Next(s, Destroy), states, steps, key) {
          BlockedRun(states, steps, key, |steps|);
          assert false;
        }
      }
    }
  }

  /** key has no live timer and is unwatched or reported. */
  ghost predicate Over(s: State, key: Key) {
    && TimersSound(s)
    && (forall id :: id in s.live ==> s.live[id].key != key)
    && (key !in s.targets.Values || key in s.exposed)
  }

  lemma OverStep(s: State, step: Step, key: Key)
    requires Over(s, key) && Enabled(s, step)
    ensures Over(Next(s, step), key)
  {
    TimersStaySound(s, step);
  }

  lemma OverIsQuiet(s: State, step: Step, key: Key)
    requires Over(s, key) && Enabled(s, step)
    ensures Count(Next(s, step).queue, EXPOSURE, key) == Count(s.queue, EXPOSURE, key)
  {
    hide Next, Enabled, Count, TimersSound;
    QuietWithoutTimer(s, step, key);
  }

  lemma {:induction false} OverRun(states: seq<State>, steps: seq<Step>, key: Key, n: nat)
    requires IsRun(states, steps) && Over(states[0], key) && n <= |steps|
    ensures Over(states[n], key) && Count(states[n].queue, EXPOSURE, key) == Count(states[0].queue, EXPOSURE, key)
  {
    if n > 0 {
      hide IsRun, Next, Enabled, Count, Over;
      RunStep(states, steps, n - 1);
      OverRun(states, steps, key, n - 1);
      OverStep(states[n - 1], steps[n - 1], key);
      OverIsQuiet(states[n - 1], steps[n - 1], key);
    }
  }

  lemma RunFrom(s: State, step: Step, states: seq<State>, steps: seq<Step>)
    requires IsRun(states, steps) && Enabled(s, step) && states[0] == Next(s, step)
    ensures IsRun([s] + states, [step] + steps) && ([s] + states)[|steps| + 1] == states[|steps|]
  {
    hide Next, Enabled;
    var all, taken := [s] + states, [step] + steps;
    forall i | 0 <= i < |taken| ensures Enabled(all[i], taken[i]) && all[i + 1] == Next(all[i], taken[i]) {
      if i > 0 { RunStep(states, steps, i - 1); }
    }
  }

  lemma HiddenIsExposable(s: State, element: Element, key: Key)
    requires element in s.targets && s.targets[element] == key && key !in s.exposed
    ensures Exposable(Next(s, Entry(element, false)), key) && Next(s, Entry(element, false)).queue == s.queue
  {
  }

  /** A below-half entry clears a recorded timer, and then a late entry exposes as well. */
  lemma HiddenThenShown(s: State, key: Key) returns (states: seq<State>, steps: seq<Step>)
    requires TimersSound(s) && key in s.targets.Values && key !in s.exposed
    ensures Exposes(s, states, steps, key)
  {
    hide TimersSound, Next, Count, IsRun, Exposable;
    var element :| element in s.targets && s.targets[element] == key;
    var hidden := Next(s, Entry(element, false));
    TimersStaySound(s, Entry(element, false));
    HiddenIsExposable(s, element, key);
    var more, rest := LateEntryExposes(hidden, key);
    RunFrom(s, Entry(element, false), more, rest);
    states, steps := [s] + more, [Entry(element, false)] + rest;
  }

  /** Over all runs after destroy, a key can be reported exactly if it is watched and was not reported. */
  lemma ReportableAfterDestroyIff(s: State, key: Key)
    requires TimersSound(s)
    ensures (exists states, steps :: Exposes(Next(s, Destroy), states, steps, key)) <==>
            key in s.targets.Values && key !in s.exposed
  {
    TimersStaySound(s, Destroy);
    NothingLive(s);
    if key in s.targets.Values && key !in s.exposed {
      var states, steps := HiddenThenShown(Next(s, Destroy), key);
    } else {
      forall states, steps ensures !Exposes(Next(s, Destroy), states, steps, key) {
        hide Count;
        if Exposes(Next(s, Destroy), states, steps, key) {
          OverRun(states, steps, key, |steps|);
          assert false;
        }
      }
    }
  }

  lemma NothingLive(s: State)
    requires TimersSound(s)
    ensures Next(s, Destroy).live == map[]
  {
    forall id | id in s.live ensures id in s.timers.Values {
      assert s.timers[s.live[id].key] == id;
    }
  }
}
