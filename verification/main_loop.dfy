/** One iteration of the controller's endless polling loop as a pure step
    function: the hardware reads become inputs and the street-light pin an
    output.  The 50 ms delay that ends each iteration is not modelled. */
module MainLoop {
  import opened MachineInts
  import opened TrafficLight
  import opened LightCycle

  /** Below this light-sensor reading it is dark and the street light is on. */
  const STREETLIGHT_THRESHOLD: u16 := 150

  /** What survives from one iteration to the next: the light and the
      button level seen on the previous iteration. */
  datatype LoopState = LoopState(light: Light, wasPressed: bool)

  /** The hardware reads of one iteration: the light-sensor conversion and
      the pedestrian-button level. */
  datatype Reading = Reading(ldr: u16, pressed: bool)

  datatype StepResult = StepResult(next: LoopState, streetLight: bool)

  datatype RunResult = RunResult(final: LoopState, streetLights: seq<bool>)

  /** The state before the first iteration: a light built on freshly
      configured output pins (all low) and a released button. */
  function Start(): (s: LoopState)
    ensures WellFormed(s.light) && PhaseOf(s.light) == Green
    ensures s.light.animTimer == GREEN_TIME && !s.wasPressed
  {
    LoopState(New(false, false), false)
  }

  predicate RisingEdge(was: bool, now: bool)
  {
    !was && now
  }

  /** One iteration: street light from the threshold, speed-up on a rising
      edge of the button, remember the button level, tick the light. */
  function Step(s: LoopState, input: Reading): (r: StepResult)
    ensures r.streetLight <==> input.ldr < STREETLIGHT_THRESHOLD
    ensures r.next.wasPressed == input.pressed
    ensures RisingEdge(s.wasPressed, input.pressed) ==>
              r.next.light.animTimer == RESET_TIME - 4 && SameLamps(r.next.light, s.light)
    ensures !RisingEdge(s.wasPressed, input.pressed) ==> r.next.light == Process(s.light)
    ensures WellFormed(s.light) ==> WellFormed(r.next.light)
  {
    var streetLight := input.ldr < STREETLIGHT_THRESHOLD;
    var light := if !s.wasPressed && input.pressed then ForceSpeedup(s.light) else s.light;
    StepResult(LoopState(Process(light), input.pressed), streetLight)
  }

  /** The loop run over a finite sequence of readings: the final state and
      the street-light level written on each iteration. */
  function Run(s: LoopState, inputs: seq<Reading>): (r: RunResult)
    ensures |r.streetLights| == |inputs|
    ensures forall i | 0 <= i < |inputs| ::
              r.streetLights[i] <==> inputs[i].ldr < STREETLIGHT_THRESHOLD
    ensures |inputs| > 0 ==> r.final.wasPressed == inputs[|inputs| - 1].pressed
    ensures |inputs| == 0 ==> r.final == s
    ensures WellFormed(s.light) ==> WellFormed(r.final.light)
    decreases |inputs|
  {
    if |inputs| == 0 then
      RunResult(s, [])
    else
      var step := Step(s, inputs[0]);
      var rest := Run(step.next, inputs[1..]);
      RunResult(rest.final, [step.streetLight] + rest.streetLights)
  }

  /** No reading in the sequence is a rising edge of the button relative to
      the reading before it (the first relative to `was`). */
  predicate NoRisingEdge(was: bool, inputs: seq<Reading>)
    decreases |inputs|
  {
    |inputs| == 0 ||
    (!RisingEdge(was, inputs[0].pressed) && NoRisingEdge(inputs[0].pressed, inputs[1..]))
  }

  /** Without a rising edge the button has no effect: the light is ticked
      exactly as by `Process` alone, once per iteration. */
  lemma {:induction false} RunWithoutRisingEdge(s: LoopState, inputs: seq<Reading>)
    requires NoRisingEdge(s.wasPressed, inputs)
    ensures Run(s, inputs).final.light == ProcessN(s.light, |inputs|)
    decreases |inputs|
  {
    if |inputs| > 0 {
      RunWithoutRisingEdge(Step(s, inputs[0]).next, inputs[1..]);
    }
  }

  /** A button held down over many iterations speeds the light up once,
      on the iteration where it was first seen pressed. */
  lemma HeldButtonSpeedsUpOnce(s: LoopState, inputs: seq<Reading>)
    requires !s.wasPressed && |inputs| > 0
    requires forall i | 0 <= i < |inputs| :: inputs[i].pressed
    ensures Run(s, inputs).final.light == ProcessN(ForceSpeedup(s.light), |inputs|)
  {
    var step := Step(s, inputs[0]);
    assert step.next == LoopState(Process(ForceSpeedup(s.light)), true);
    HeldNoRisingEdge(inputs[1..]);
    RunWithoutRisingEdge(step.next, inputs[1..]);
  }

  /** Readings with the button held throughout contain no rising edge. */
  lemma {:induction false} HeldNoRisingEdge(inputs: seq<Reading>)
    requires forall i | 0 <= i < |inputs| :: inputs[i].pressed
    ensures NoRisingEdge(true, inputs)
    decreases |inputs|
  {
    if |inputs| > 0 {
      HeldNoRisingEdge(inputs[1..]);
    }
  }

  /** From the start state, after any run, the counter is within
      0 ..= RESET_TIME, so the `+= 1` in `Process` never overflows, the 0xff
      early return is never taken, and exactly one lamp is on. */
  lemma RunNeverReachesGuard(inputs: seq<Reading>)
    ensures var l := Run(Start(), inputs).final.light;
            WellFormed(l) && l.animTimer != 0xff
  {
  }

  /** With the button never pressed, after n >= 1 iterations the light from
      the start state is on the schedule at counter n mod PERIOD: green for
      counters 1 ..= 80, yellow for 81 ..= 100 and red for 101 ..= 160 and 0.
      The start state itself (green at counter 0) is off the schedule. */
  lemma IdleRunFollowsSchedule(inputs: seq<Reading>)
    requires |inputs| > 0
    requires forall i | 0 <= i < |inputs| :: !inputs[i].pressed
    ensures Run(Start(), inputs).final.light == CycleState(Advance(GREEN_TIME, |inputs|))
  {
    ReleasedNoRisingEdge(inputs);
    RunWithoutRisingEdge(Start(), inputs);
    NewFollowsSchedule(false, false, |inputs|);
  }

  /** Readings with the button released throughout contain no rising edge. */
  lemma {:induction false} ReleasedNoRisingEdge(inputs: seq<Reading>)
    requires forall i | 0 <= i < |inputs| :: !inputs[i].pressed
    ensures NoRisingEdge(false, inputs)
    decreases |inputs|
  {
    if |inputs| > 0 {
      ReleasedNoRisingEdge(inputs[1..]);
    }
  }

  /** A press is answered within seven iterations: with no further rising
      edge, the iteration that sees the press and the six after it bring the
      light to green at counter 1, and from then on it follows the schedule. */
  lemma PressRejoinsSchedule(s: LoopState, inputs: seq<Reading>)
    requires |inputs| >= 7
    requires RisingEdge(s.wasPressed, inputs[0].pressed)
    requires NoRisingEdge(inputs[0].pressed, inputs[1..])
    ensures Run(s, inputs).final.light == CycleState(Advance(1, |inputs| - 7))
  {
    var f := ForceSpeedup(s.light);
    var n := |inputs|;
    var next := Step(s, inputs[0]).next;
    assert next.light == Process(f) && next.wasPressed == inputs[0].pressed;
    assert Run(next, inputs[1..]).final.light == ProcessN(next.light, n - 1) by {
      RunWithoutRisingEdge(next, inputs[1..]);
    }
    assert ProcessN(f, n) == CycleState(Advance(1, n - 7)) by {
      SpeedupRejoinsSchedule(s.light, n);
    }
    assert Run(s, inputs).final == Run(next, inputs[1..]).final;
  }
}
