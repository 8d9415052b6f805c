/**
 What a run of the sensor reports, read off its steps alone: every click, the first submit of a process,
 its first proven success, and the first timer of an element that fires.
 */
module SensorReports {
  import opened Basics
  import opened SensorMachine

  ghost function Clicks(steps: seq<Step>, key: Key): nat {
    if steps == [] then 0
    else Clicks(steps[..|steps| - 1], key) + One(steps[|steps| - 1] == Click(key))
  }

  ghost predicate Submitted(steps: seq<Step>, key: Key) {
    exists i :: 0 <= i < |steps| && steps[i] == Submit(key)
  }

  ghost predicate Proves(step: Step, key: Key) {
    && step.Succeed? && step.key == key
    && step.evidence in {"click_proxy", "thank_you_url", "success_state", "application_event"}
  }

  ghost predicate Proven(steps: seq<Step>, key: Key) {
    exists i :: 0 <= i < |steps| && Proves(steps[i], key)
  }

  /** The timer that fires was set for key. */
  ghost predicate Fires(s: State, step: Step, key: Key) {
    step.Fire? && step.id in s.live && s.live[step.id].key == key
  }

  ghost predicate Fired(states: seq<State>, steps: seq<Step>, key: Key)
    requires |states| == |steps| + 1
  {
    exists i :: 0 <= i < |steps| && Fires(states[i], steps[i], key)
  }

  ghost function Reported(queue: seq<Event>, name: string, key: Key): nat {
    multiset(queue)[Event(name, key, true)]
  }

  /** One step, for one key. */
  lemma StepReports(s: State, step: Step, key: Key)
    requires Enabled(s, step)
    ensures
      var t := Next(s, step);
      && (key in t.started <==> key in s.started || step == Submit(key))
      && (key in t.succeeded <==> key in s.succeeded || (Proves(step, key) && key in s.processKeys))
      && (key in t.exposed <==> key in s.exposed || Fires(s, step, key))
      && t.processKeys == s.processKeys
  {
  }

  lemma StepClicks(s: State, step: Step, key: Key)
    requires Enabled(s, step)
    ensures
      Reported(Next(s, step).queue, "element_interaction", key) ==
      Reported(s.queue, "element_interaction", key) + One(step == Click(key))
  {
  }

  /** Only the sensor's own four kinds of report are made in the name of the manifest. */
  lemma StepNames(s: State, step: Step, e: Event)
    requires Enabled(s, step) && e in Next(s, step).queue && e !in s.queue
    ensures
      || (step == Click(e.subject) && e == Event("element_interaction", e.subject, true))
      || (step == Submit(e.subject) && e == Event("process_start", e.subject, true))
      || (Proves(step, e.subject) && e == Event("process_success", e.subject, true))
      || (Fires(s, step, e.subject) && e == Event("element_exposure", e.subject, true))
      || step == Observe(e.name, e.subject)
  {
  }

  lemma {:induction false} RunReports(states: seq<State>, steps: seq<Step>, key: Key)
    requires IsRun(states, steps) && Initial(states[0])
    ensures
      var s := states[|steps|];
      && (key in s.started <==> Submitted(steps, key))
      && (key in s.succeeded <==> Proven(steps, key) && key in states[0].processKeys)
      && (key in s.exposed <==> Fired(states, steps, key))
      && s.processKeys == states[0].processKeys
  {
    if steps != [] {
      hide Next, Enabled, Proves, Fires, Initial;
      var last := |steps| - 1;
      assert IsRun(states[..|steps|], steps[..last]);
      RunReports(states[..|steps|], steps[..last], key);
      StepReports(states[last], steps[last], key);
      SomeStep(states, steps, key);
    }
  }

  lemma SomeStep(states: seq<State>, steps: seq<Step>, key: Key)
    requires |states| == |steps| + 1 && steps != []
    ensures
      var last := |steps| - 1;
      && (Submitted(steps, key) <==> Submitted(steps[..last], key) || steps[last] == Submit(key))
      && (Proven(steps, key) <==> Proven(steps[..last], key) || Proves(steps[last], key))
      && (Fired(states, steps, key) <==>
          Fired(states[..|steps|], steps[..last], key) || Fires(states[last], steps[last], key))
  {
    hide Proves, Fires;
    var last := |steps| - 1;
    assert forall i | 0 <= i < last :: steps[..last][i] == steps[i] && states[..|steps|][i] == states[i];
    if Submitted(steps[..last], key) {
      var i :| 0 <= i < last && steps[..last][i] == Submit(key);
      assert steps[i] == Submit(key);
    }
    if Proven(steps[..last], key) {
      var i :| 0 <= i < last && Proves(steps[..last][i], key);
      assert Proves(steps[i], key);
    }
    if Proven(steps, key) && !Proves(steps[last], key) {
      var i :| 0 <= i < |steps| && Proves(steps[i], key);
      assert Proves(steps[..last][i], key);
    }
    if Fired(states[..|steps|], steps[..last], key) {
      var i :| 0 <= i < last && Fires(states[..|steps|][i], steps[..last][i], key);
      assert Fires(states[i], steps[i], key);
    }
    if Fired(states, steps, key) && !Fires(states[last], steps[last], key) {
      var i :| 0 <= i < |steps| && Fires(states[i], steps[i], key);
      assert Fires(states[..|steps|][i], steps[..last][i], key);
    }
  }

  lemma {:induction false} RunClicks(states: seq<State>, steps: seq<Step>, key: Key)
    requires IsRun(states, steps)
    ensures Reported(states[|steps|].queue, "element_interaction", key) ==
            Reported(states[0].queue, "element_interaction", key) + Clicks(steps, key)
  {
    if steps != [] {
      hide Next, Enabled, Reported;
      var last := |steps| - 1;
      assert IsRun(states[..|steps|], steps[..last]);
      RunClicks(states[..|steps|], steps[..last], key);
      StepClicks(states[last], steps[last], key);
    }
  }

  /** Over any run: a report for every click, and one for the first submit, proven success and fired timer. */
  lemma QueueFollowsSteps(states: seq<State>, steps: seq<Step>, key: Key)
    requires IsRun(states, steps) && Initial(states[0])
    ensures
      var queue := states[|steps|].queue;
      && Reported(queue, "element_interaction", key) ==
         Reported(states[0].queue, "element_interaction", key) + Clicks(steps, key)
      && Reported(queue, "process_start", key) == One(Submitted(steps, key))
      && Reported(queue, "process_success", key) == One(Proven(steps, key) && key in states[0].processKeys)
      && Reported(queue, "element_exposure", key) == One(Fired(states, steps, key))
  {
    hide Next, Enabled, Initial, TimersSound, Clicks, Submitted, Proven, Fired, ReportedOnce, Count, Reported;
    RunClicks(states, steps, key);
    RunReports(states, steps, key);
    InitialHolds(states[0]);
    RunKeeps(states, steps);
    CountsAreReports(states[|steps|], key);
  }

  lemma CountsAreReports(s: State, key: Key)
    requires ReportedOnce(s)
    ensures Reported(s.queue, "process_start", key) == One(key in s.started)
    ensures Reported(s.queue, "process_success", key) == One(key in s.succeeded)
    ensures Reported(s.queue, "element_exposure", key) == One(key in s.exposed)
  {
    assert Count(s.queue, EXPOSURE, key) == One(key in s.exposed);
    assert Count(s.queue, START, key) == One(key in s.started);
    assert Count(s.queue, SUCCESS, key) == One(key in s.succeeded);
  }
}
