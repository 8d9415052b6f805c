/**
 The sensor's callbacks and API over its mutable fields, each proved to be a step of the machine.
 */
module Sensors {
  import opened Basics
  import opened SensorMachine

  datatype Kind = Exposure | Interaction | Process

  /** matches are the elements on the page that carry the locator. */
  datatype Observation = Observation(key: Key, kind: Kind, matches: seq<Element>)

  const MAX_OBSERVATIONS := 20

  predicate ValidManifest(observations: seq<Observation>) {
    && 1 <= |observations| <= MAX_OBSERVATIONS
    && forall i, j :: 0 <= i < j < |observations| ==> observations[i].key != observations[j].key
  }

  predicate Found(o: Observation) { |o.matches| == 1 }

  predicate Binds(o: Observation, e: Element) { Found(o) && o.kind == Exposure && o.matches[0] == e }

  /** Every element to watch has the key of the last exposure bound to it. */
  ghost predicate TargetsOf(observations: seq<Observation>, targets: map<Element, Key>) {
    && (forall i :: 0 <= i < |observations| && Found(observations[i]) && observations[i].kind == Exposure ==>
        observations[i].matches[0] in targets)
    && forall e :: e in targets ==> LastBound(observations, e, targets[e])
  }

  ghost predicate LastBound(observations: seq<Observation>, e: Element, key: Key) {
    exists i :: 0 <= i < |observations| && Binds(observations[i], e) && observations[i].key == key &&
      NotRebound(observations, e, i)
  }

  ghost predicate NotRebound(observations: seq<Observation>, e: Element, i: nat) {
    forall j :: i < j < |observations| ==> !Binds(observations[j], e)
  }

  ghost function ProcessKeys(observations: seq<Observation>): set<Key> {
    set o | o in observations && Found(o) && o.kind == Process :: o.key
  }

  ghost function ClickKeys(observations: seq<Observation>): set<Key> {
    set o | o in observations && Found(o) && o.kind != Process :: o.key
  }

  lemma KeysNext(observations: seq<Observation>, o: Observation)
    ensures ProcessKeys(observations + [o]) ==
      ProcessKeys(observations) + (if Found(o) && o.kind == Process then {o.key} else {})
    ensures ClickKeys(observations + [o]) ==
      ClickKeys(observations) + (if Found(o) && o.kind != Process then {o.key} else {})
  {
    var more := observations + [o];
    assert forall x :: x in more <==> x in observations || x == o;
  }

  lemma TargetsNext(observations: seq<Observation>, o: Observation, targets: map<Element, Key>)
    requires TargetsOf(observations, targets)
    ensures TargetsOf(observations + [o],
                      if Found(o) && o.kind == Exposure then targets[o.matches[0] := o.key] else targets)
  {
    var more := observations + [o];
    var next := if Found(o) && o.kind == Exposure then targets[o.matches[0] := o.key] else targets;
    forall e | e in next ensures LastBound(more, e, next[e]) {
      if Binds(o, e) {
        assert Binds(more[|observations|], e) && NotRebound(more, e, |observations|);
      } else {
        KeptBound(observations, o, e, targets[e]);
      }
    }
    assert forall i :: 0 <= i < |observations| ==> more[i] == observations[i];
  }

  /** The locator of the exposure finds the element and nothing else. */
  ghost predicate FindsOnly(o: Observation, e: Element) {
    o.matches == [e] && o.kind == Exposure
  }

  /** Each element is watched for the last exposure whose locator finds it and nothing else. */
  ghost predicate WatchesLast(observations: seq<Observation>, targets: map<Element, Key>) {
    && (forall e :: e in targets <==> exists i :: 0 <= i < |observations| && FindsOnly(observations[i], e))
    && forall i, e :: 0 <= i < |observations| && FindsOnly(observations[i], e) ==>
         (forall j :: i < j < |observations| ==> !FindsOnly(observations[j], e)) ==>
         e in targets && targets[e] == observations[i].key
  }

  lemma BoundPlainly(observations: seq<Observation>, targets: map<Element, Key>)
    requires TargetsOf(observations, targets)
    ensures WatchesLast(observations, targets)
  {
    forall i, e | 0 <= i < |observations| && FindsOnly(observations[i], e) ensures e in targets {
      assert observations[i].matches[0] == e;
    }
    forall i, e |
      && 0 <= i < |observations| && FindsOnly(observations[i], e)
      && forall j :: i < j < |observations| ==> !FindsOnly(observations[j], e)
      ensures targets[e] == observations[i].key
    {
      var m :| 0 <= m < |observations| && Binds(observations[m], e) && observations[m].key == targets[e] &&
        NotRebound(observations, e, m);
      assert FindsOnly(observations[m], e);
      assert Binds(observations[i], e);
      assert m == i;
    }
    forall e | e in targets
      ensures exists i :: 0 <= i < |observations| && FindsOnly(observations[i], e)
    {
      var i :| 0 <= i < |observations| && Binds(observations[i], e) && observations[i].key == targets[e] &&
        NotRebound(observations, e, i);
      assert FindsOnly(observations[i], e);
    }
  }

  lemma KeptBound(observations: seq<Observation>, o: Observation, e: Element, key: Key)
    requires LastBound(observations, e, key) && !Binds(o, e)
    ensures LastBound(observations + [o], e, key)
  {
    var i :| 0 <= i < |observations| && Binds(observations[i], e) && observations[i].key == key &&
      NotRebound(observations, e, i);
    var more := observations + [o];
    assert Binds(more[i], e) && more[i].key == key;
    assert NotRebound(more, e, i);
  }

  /** A batch of entries is handled one by one. */
  ghost function AfterEntries(s: State, entries: seq<(Element, bool)>): State {
    if entries == [] then s
    else AfterEntry(AfterEntries(s, entries[..|entries| - 1]), entries[|entries| - 1].0, entries[|entries| - 1].1)
  }

  class Sensor {
    var targets: map<Element, Key>
    var processKeys: set<Key>
    var clickKeys: set<Key>
    var started: set<Key>
    var succeeded: set<Key>
    var exposed: set<Key>
    var timers: map<Key, nat>
    var live: map<nat, Pending>
    var nextTimer: nat
    var now: nat
    var listening: bool
    var queue: seq<Event>

    ghost function View(): State
      reads this
    {
      State(targets, processKeys, clickKeys, started, succeeded, exposed, timers, live, nextTimer, now, listening,
            queue)
    }

    constructor ()
      ensures Initial(View()) && View().queue == [] && View().targets == map[] && !View().listening
      ensures View().processKeys == {} && View().clickKeys == {}
    {
      targets, processKeys, clickKeys := map[], {}, {};
      started, succeeded, exposed, timers := {}, {}, {}, map[];
      live, nextTimer, now, listening, queue := map[], 0, 0, false, [];
    }

    method Enqueue(name: string, subject: Key, manifest: bool)
      modifies this`queue
      ensures queue == old(queue) + [Event(name, subject, manifest)]
    {
      queue := queue + [Event(name, subject, manifest)];
    }

    /** Binds the observations that match one element, each to the set its kind asks for. */
    method Bind(observations: seq<Observation>)
      requires targets == map[] && processKeys == {} && clickKeys == {}
      modifies this`targets, this`processKeys, this`clickKeys
      ensures TargetsOf(observations, targets)
      ensures processKeys == ProcessKeys(observations) && clickKeys == ClickKeys(observations)
    {
      for i := 0 to |observations|
        invariant TargetsOf(observations[..i], targets)
        invariant processKeys == ProcessKeys(observations[..i]) && clickKeys == ClickKeys(observations[..i])
      {
        hide TargetsOf, ProcessKeys, ClickKeys;
        var o := observations[i];
        assert observations[..i + 1] == observations[..i] + [o];
        KeysNext(observations[..i], o);
        TargetsNext(observations[..i], o, targets);
        if Found(o) {
          match o.kind
          case Exposure =>
            targets := targets[o.matches[0] := o.key];
            clickKeys := clickKeys + {o.key};
          case Interaction =>
            clickKeys := clickKeys + {o.key};
          case Process =>
            processKeys := processKeys + {o.key};
        }
      }
      assert observations[..|observations|] == observations;
    }

    /** An invalid manifest changes nothing; a valid one is bound, and its page view reported. */
    method ApplyManifest(observations: seq<Observation>) returns (accepted: bool)
      requires targets == map[] && processKeys == {} && clickKeys == {}
      modifies this`targets, this`processKeys, this`clickKeys, this`listening, this`queue
      ensures accepted <==>
              && 1 <= |observations| <= 20
              && forall i, j :: 0 <= i < j < |observations| ==> observations[i].key != observations[j].key
      ensures !accepted ==> View() == old(View())
      ensures accepted ==> WatchesLast(observations, targets)
      ensures accepted ==>
                && processKeys == (set o | o in observations && |o.matches| == 1 && o.kind == Process :: o.key)
                && clickKeys == set o | o in observations && |o.matches| == 1 && o.kind != Process :: o.key
      ensures accepted ==> TargetsOf(observations, targets) && listening
      ensures accepted ==> processKeys == ProcessKeys(observations) && clickKeys == ClickKeys(observations)
      ensures accepted ==> queue == old(queue) + [Event("page_view", "", true)]
      ensures accepted && Initial(old(View())) ==> Applied(observations, View())
    {
      hide TargetsOf, WatchesLast, Initial;
      accepted := ValidManifest(observations);
      if !accepted { return; }
      Bind(observations);
      BoundPlainly(observations, targets);
      listening := true;
      Enqueue("page_view", "", true);
      if Initial(old(View())) { AppliedIsInitial(old(View()), View()); }
    }

    /** One visibility entry. */
    method OnEntry(element: Element, half: bool)
      modifies this`timers, this`live, this`nextTimer
      ensures View() == AfterEntry(old(View()), element, half)
    {
      if element !in targets || targets[element] in exposed { return; }
      var key := targets[element];
      if half {
        if key !in timers {
          timers := timers[key := nextTimer];
          live := live[nextTimer := Pending(key, now + EXPOSURE_DELAY)];
          nextTimer := nextTimer + 1;
        }
      } else if key in timers {
        live := live - {timers[key]};
        timers := timers - {key};
      }
    }

    /** The observer's callback. */
    method OnEntries(entries: seq<(Element, bool)>)
      modifies this`timers, this`live, this`nextTimer
      ensures View() == AfterEntries(old(View()), entries)
    {
      for i := 0 to |entries|
        invariant View() == AfterEntries(old(View()), entries[..i])
      {
        hide AfterEntry;
        assert entries[..i + 1][..i] == entries[..i];
        OnEntry(entries[i].0, entries[i].1);
      }
      assert entries[..|entries|] == entries;
    }

    /** A timer fires. */
    method OnTimer(id: nat)
      requires Enabled(View(), Fire(id))
      modifies this`timers, this`live, this`exposed, this`queue
      ensures View() == Next(old(View()), Fire(id))
    {
      var key := live[id].key;
      live := live - {id};
      timers := timers - {key};
      exposed := exposed + {key};
      Enqueue(EXPOSURE, key, true);
    }

    method OnSubmit(key: Key)
      requires Enabled(View(), Submit(key))
      modifies this`started, this`queue
      ensures View() == Next(old(View()), Submit(key))
    {
      if key in started { return; }
      started := started + {key};
      Enqueue(START, key, true);
    }

    method OnClick(key: Key)
      requires Enabled(View(), Click(key))
      modifies this`queue
      ensures View() == Next(old(View()), Click(key))
    {
      Enqueue(INTERACTION, key, true);
    }

    /** A rejected call reports nothing and changes nothing. */
    method ProcessSuccess(key: Key, evidence: string) returns (accepted: bool)
      modifies this`succeeded, this`queue
      ensures accepted == Acceptable(old(View()), key, evidence)
      ensures View() == Next(old(View()), Succeed(key, evidence))
    {
      accepted := key in processKeys && key !in succeeded && evidence in ALLOWED_EVIDENCE;
      if !accepted { return; }
      succeeded := succeeded + {key};
      Enqueue(SUCCESS, key, true);
    }

    /** Disconnects, clears the recorded timers and removes the listeners. */
    method Destroy()
      modifies this`live, this`listening
      ensures View() == Next(old(View()), SensorMachine.Step.Destroy)
    {
      var rest := timers.Values;
      ghost var all := live;
      while rest != {}
        invariant rest <= timers.Values
        invariant live == all - (timers.Values - rest)
      {
        var id :| id in rest;
        live := live - {id};
        rest := rest - {id};
      }
      listening := false;
    }
  }

  /** A sensor whose manifest was just applied starts a run with nothing reported. */
  lemma AppliedIsInitial(before: State, s: State)
    requires Initial(before)
    requires s == before.(targets := s.targets, processKeys := s.processKeys, clickKeys := s.clickKeys,
                          listening := true, queue := before.queue + [Event("page_view", "", true)])
    ensures Initial(s)
  {
  }

  lemma ShadowedIsNoTarget(observations: seq<Observation>, i: nat, j: nat, targets: map<Element, Key>)
    requires i < j < |observations| && ValidManifest(observations) && TargetsOf(observations, targets)
    requires Found(observations[i]) && Binds(observations[j], observations[i].matches[0])
    ensures observations[i].key !in targets.Values
  {
    forall e | e in targets ensures targets[e] != observations[i].key {
      assert LastBound(observations, e, targets[e]);
      var m :| 0 <= m < |observations| && Binds(observations[m], e) && observations[m].key == targets[e] &&
        NotRebound(observations, e, m);
    }
  }

  /** The state in which an accepted manifest leaves a new sensor. */
  ghost predicate Applied(observations: seq<Observation>, s: State) {
    && Initial(s) && TargetsOf(observations, s.targets) && s.listening
    && s.processKeys == ProcessKeys(observations) && s.clickKeys == ClickKeys(observations)
  }

  lemma AppliedRun(observations: seq<Observation>, states: seq<State>, steps: seq<Step>)
    requires IsRun(states, steps) && Applied(observations, states[0])
    ensures Bound(states[|steps|]) && ReportedOnce(states[|steps|])
    ensures TargetsOf(observations, states[|steps|].targets) && states[|steps|].processKeys == ProcessKeys(observations)
  {
    hide Initial, Bound, TimersSound, ReportedOnce, TargetsOf, ProcessKeys, ClickKeys, Enabled, Next;
    InitialHolds(states[0]);
    assert Bound(states[0]) by { InitialIsBound(states[0]); }
    RunKeeps(states, steps);
    BoundRun(states, steps, |steps|);
  }

  lemma InitialIsBound(s: State)
    requires Initial(s)
    ensures Bound(s)
  {
  }

  /**
   Over any run from an applied manifest, only an exposure that is the last one bound to its element is
   reported, and only a process whose element was found starts or succeeds; each at most once.
   */
  lemma ReportedFromManifest(observations: seq<Observation>, states: seq<State>, steps: seq<Step>, key: Key)
    requires IsRun(states, steps) && Applied(observations, states[0])
    ensures
      var queue := states[|steps|].queue;
      && Count(queue, EXPOSURE, key) == One(key in states[|steps|].exposed)
      && (key in states[|steps|].exposed ==> exists e :: LastBound(observations, e, key))
      && Count(queue, START, key) <= One(key in ProcessKeys(observations))
      && Count(queue, SUCCESS, key) <= One(key in ProcessKeys(observations))
  {
    hide Applied, ProcessKeys, Count, LastBound;
    AppliedRun(observations, states, steps);
    var s := states[|steps|];
    if key in s.exposed {
      var e :| e in s.targets && s.targets[e] == key;
    }
  }

  /** If two exposures share an element, the earlier key is never reported. */
  lemma ShadowedNeverExposed(observations: seq<Observation>, i: nat, j: nat, states: seq<State>, steps: seq<Step>)
    requires i < j < |observations| && ValidManifest(observations)
    requires Found(observations[i]) && Binds(observations[j], observations[i].matches[0])
    requires IsRun(states, steps) && Applied(observations, states[0])
    ensures Count(states[|steps|].queue, EXPOSURE, observations[i].key) == 0
  {
    hide Applied, Count, TargetsOf, ProcessKeys;
    AppliedRun(observations, states, steps);
    ShadowedIsNoTarget(observations, i, j, states[|steps|].targets);
  }

  lemma WatchedIffLastBound(observations: seq<Observation>, targets: map<Element, Key>, key: Key)
    requires TargetsOf(observations, targets)
    ensures key in targets.Values <==> exists e :: LastBound(observations, e, key)
  {
    if key in targets.Values {
      var e :| e in targets && targets[e] == key;
    }
    if e :| LastBound(observations, e, key) {
      LastBoundIsTarget(observations, targets, e, key);
    }
  }

  lemma LastBoundIsTarget(observations: seq<Observation>, targets: map<Element, Key>, e: Element, key: Key)
    requires TargetsOf(observations, targets) && LastBound(observations, e, key)
    ensures e in targets && targets[e] == key
  {
    var i :| 0 <= i < |observations| && Binds(observations[i], e) && observations[i].key == key &&
      NotRebound(observations, e, i);
    var j :| 0 <= j < |observations| && Binds(observations[j], e) && observations[j].key == targets[e] &&
      NotRebound(observations, e, j);
  }

  /** From an applied manifest some run reports an exposure exactly if it is the last one bound to its element. */
  lemma ReportableIffLastBound(observations: seq<Observation>, s: State, key: Key)
    requires Applied(observations, s)
    ensures (exists states, steps :: Exposes(s, states, steps, key)) <==> exists e :: LastBound(observations, e, key)
  {
    WatchedIffLastBound(observations, s.targets, key);
    hide TargetsOf, LastBound, Count, Next, Enabled;
    InitialHolds(s);
    if key in s.targets.Values {
      var states, steps := LateEntryExposes(s, key);
    } else {
      forall states, steps ensures !Exposes(s, states, steps, key) {
        if Exposes(s, states, steps, key) {
          OverRun(states, steps, key, |steps|);
          assert false;
        }
      }
    }
  }

  /** A run from s after which an event of the name is reported for key. */
  ghost predicate Reports(s: State, states: seq<State>, steps: seq<Step>, name: string, key: Key) {
    IsRun(states, steps) && states[0] == s && Count(states[|steps|].queue, name, key) > 0
  }

  lemma OneStepReports(s: State, step: Step, name: string, key: Key) returns (states: seq<State>, steps: seq<Step>)
    requires Enabled(s, step) && Count(Next(s, step).queue, name, key) > 0
    ensures Reports(s, states, steps, name, key)
  {
    states, steps := [s, Next(s, step)], [step];
  }

  /** From an applied manifest some run starts a process, or reports its success, exactly if its element was found. */
  lemma ProcessReportableIff(observations: seq<Observation>, s: State, key: Key)
    requires Applied(observations, s)
    ensures (exists states, steps :: Reports(s, states, steps, START, key)) <==> key in ProcessKeys(observations)
    ensures (exists states, steps :: Reports(s, states, steps, SUCCESS, key)) <==> key in ProcessKeys(observations)
  {
    if key in ProcessKeys(observations) {
      CountMore(s.queue, Event(START, key, true), START, key);
      CountMore(s.queue, Event(SUCCESS, key, true), SUCCESS, key);
      hide Count, ProcessKeys, TargetsOf;
      var states, steps := OneStepReports(s, Submit(key), START, key);
      states, steps := OneStepReports(s, Succeed(key, "click_proxy"), SUCCESS, key);
    } else {
      hide Count, ProcessKeys, Applied, IsRun;
      forall states, steps ensures !Reports(s, states, steps, START, key) && !Reports(s, states, steps, SUCCESS, key) {
        if IsRun(states, steps) && states[0] == s { ReportedFromManifest(observations, states, steps, key); }
      }
    }
  }

  /** Two exposures whose locators find the same element. */
  const SHARED_ELEMENT := [Observation("first", Exposure, [0]), Observation("second", Exposure, [0])]

  ghost function SharedElementState(): State {
    State(map[0 := "second"], {}, {"first", "second"}, {}, {}, {}, map[], map[], 0, 0, true,
          [Event("page_view", "", true)])
  }

  /** A valid manifest of which one exposure can be reported and the other never. */
  lemma SharedElementExample()
    ensures ValidManifest(SHARED_ELEMENT) && Applied(SHARED_ELEMENT, SharedElementState())
    ensures !exists states, steps :: Exposes(SharedElementState(), states, steps, "first")
    ensures exists states, steps :: Exposes(SharedElementState(), states, steps, "second")
  {
    var s := SharedElementState();
    SharedElementApplied();
    assert 0 in s.targets && s.targets[0] == "second";
    assert "first" !in s.targets.Values && "second" in s.targets.Values;
    WatchedIffLastBound(SHARED_ELEMENT, s.targets, "first");
    WatchedIffLastBound(SHARED_ELEMENT, s.targets, "second");
    hide *;
    ReportableIffLastBound(SHARED_ELEMENT, SharedElementState(), "first");
    ReportableIffLastBound(SHARED_ELEMENT, SharedElementState(), "second");
  }

  /** A late entry exposes the watched one of them after destroy. */
  lemma LateExposureExample()
    ensures exists states, steps :: ExposesUnhidden(Next(SharedElementState(), Destroy), states, steps, "second")
  {
    var s := SharedElementState();
    assert 0 in s.targets && s.targets[0] == "second";
    assert Exposable(s, "second") && TimersSound(s);
    hide *;
    ExposableAfterDestroyIff(SharedElementState(), "second");
  }

  lemma SharedElementApplied()
    ensures ValidManifest(SHARED_ELEMENT) && Applied(SHARED_ELEMENT, SharedElementState())
    ensures TargetsOf(SHARED_ELEMENT, SharedElementState().targets)
  {
    var first, second := SHARED_ELEMENT[0], SHARED_ELEMENT[1];
    assert SHARED_ELEMENT == [first] + [second] && [first] == [] + [first];
    KeysNext([], first);
    KeysNext([first], second);
    assert TargetsOf([], map[]);
    TargetsNext([], first, map[]);
    TargetsNext([first], second, map[0 := "first"]);
    assert map[0 := "first"][0 := "second"] == map[0 := "second"];
  }
}
