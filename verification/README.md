# Traffic-light phase machine

A Dafny model of the single traffic light in `src/main.rs` of an Arduino
(AVR) program, with proofs about it. A `u8` animation counter, `anim_timer`,
decides which of three lamps (red, yellow, green) is on. Each tick of the
controller's polling loop does three things in order:

1. it sets a street light from a light-sensor reading;
2. it jumps the counter near its wrap point on a rising edge of the
   pedestrian button (`force_speedup`);
3. it advances the light by one tick (`process`).

The model is functional. A light is a record of three lamp booleans plus
the counter. `process`, `force_speedup` and `sync_with` are pure functions.
One loop iteration is a pure `Step` from the stored state and the
iteration's hardware readings. The hardware pins are booleans and the ADC
conversion is a `u16` input.

Files:

- `machine_ints.dfy`: module `MachineInts`, holding the `u8` and `u16`
  newtypes. Their arithmetic is checked, so an overflowing `+= 1` would be a
  verification error.
- `traffic_light.dfy`: module `TrafficLight`. It holds the timing constants
  (with `RESET_TIME` derived in `u8` arithmetic as in the source), the
  `Light` record and `New`, `Process`, `ForceSpeedup` and `SyncWith`.
- `light_cycle.dfy`: module `LightCycle`. It holds iterated ticking
  (`ProcessN`) and an independent reference schedule. `CycleState(c)` is
  the lamp an undisturbed light shows at counter `c`: green for 1..=80,
  yellow for 81..=100, and red for 101..=160 and 0. The module proves the
  period, the lamp order and where a speed-up lands against that schedule.
  The power-on light is not on the schedule: it is green at counter 0,
  where the schedule has red. It joins the schedule on its first tick.
- `main_loop.dfy`: module `MainLoop`. It holds one loop iteration (`Step`),
  a run over a finite sequence of readings (`Run`), and the edge-triggered
  behaviour of the button.

Two behaviours of the code, proved as stated, are worth knowing:

- **Speed-up ignores the phase.** Line 95 is unconditional, because the
  guard "only in red" on lines 92-94 is commented out. A press while yellow
  is on therefore takes the light from yellow straight to green, without red
  (`LightCycle.SpeedupInYellowSkipsRed`). A press during green keeps green on
  through the wrap.
- **The follower is rarely green.** `sync_with` tests
  `master.anim_timer >= YELLOW_TIME` for every master that is not green.
  That test also catches the master's red phase. Against a master on the
  schedule, the follower is green only on the one tick where the master's
  counter is 0. It is red for the rest of the master's red phase too
  (`LightCycle.SyncAgainstSchedule`). The call to `sync_with` is commented
  out in `main`.
- **`pressed` is the pin level, not the physical press.** The model's
  `pressed` is `pedestrian_button.is_high()` (line 136) on a pin configured
  with a pull-up (line 109). If the button switches the pin to ground, the
  pin reads high while the button is released and low while it is held. The
  "rising edge" the code acts on is then the release. Starting from the
  stored state "not pressed", a pin that reads high on the first iteration
  triggers a speed-up at once. Every lemma in `MainLoop` speaks of the pin
  level, as the code does.

## Model

| member | source | states |
|---|---|---|
| TrafficLight.ConstantsOrdered | src/main.rs:13-16 | the derived wrap point is 160, and the thresholds are strictly ordered: 0 < 80 < 100 < 160 < 0xff |
| TrafficLight.Show | src/main.rs:66-80 | drives the pin of the given phase high and the other two low, so exactly one lamp is on, and it leaves the counter alone |
| TrafficLight.New | src/main.rs:27-39 | a new light has green on and its counter at 0; it has exactly one lamp on if and only if its red and yellow pins were low |
| TrafficLight.Process | src/main.rs:60-90 | at counter 0 only green is on afterwards, at 80 only yellow and at 100 only red; at any other counter the lamps are unchanged; at 160 the counter wraps to 0, at 0xff nothing changes, and otherwise it rises by one; a counter at most 160 stays at most 160, so the guard is never hit; exactly one lamp on is preserved |
| TrafficLight.ForceSpeedup | src/main.rs:91-96 | the counter becomes 155 whatever it was, the lamps are untouched, and a light with one lamp on stays well formed |
| TrafficLight.ForceSpeedupIdempotent | src/main.rs:91-96 | speeding up twice equals speeding up once |
| TrafficLight.SyncWith | src/main.rs:41-58 | the follower's counter is unchanged; exactly one lamp is on and it is never yellow; the follower is green if and only if the master's green is off and the master's counter is below 80 |
| LightCycle.ProcessFollowsSchedule | src/main.rs:64-89 | one tick of a light on the reference schedule lands on the schedule one position further on, wrapping from 160 to 0 |
| LightCycle.ProcessNCounter | src/main.rs:60-90 | from any counter at most 160, whatever the lamps, n ticks move the counter n positions around the 161-value cycle |
| LightCycle.ProcessNFollowsSchedule | src/main.rs:60-90 | n ticks of a light on the reference schedule land on the schedule n positions further on |
| LightCycle.ProcessNWellFormed | src/main.rs:60-90 | at every tick the counter stays at most 160, never reaches 0xff, and exactly one lamp is on |
| LightCycle.CounterPeriod | src/main.rs:64-89 | from counter 0 the counter equals k after k ticks for 0 < k < 161, and is 0 again after exactly 161 ticks |
| LightCycle.CyclePeriod | src/main.rs:64-89 | a light on the schedule returns to exactly its own state after 161 ticks, and to no earlier state |
| LightCycle.NewFollowsSchedule | src/main.rs:27-39 | whatever its red and yellow pins held, a new light joins the schedule at counter n after n ticks |
| LightCycle.ProcessLampOrder | src/main.rs:64-89 | on the schedule, a tick changes the lamp exactly at counters 0, 80 and 100, and every change goes to the next phase of green, yellow, red, green |
| LightCycle.ProcessOnlyLampOrder | src/main.rs:111-115 | driven by ticks alone from a new light on low pins, consecutive states each have one lamp on, and that lamp either stays the same or moves to the next phase |
| LightCycle.SpeedupReachesGreen | src/main.rs:91-96 | after a speed-up the lamps stay as they were while the counter runs from 155 to 160 and wraps to 0 on the 6th tick; the 7th tick shows green at counter 1 |
| LightCycle.ProcessNSplit | src/main.rs:143 | ticking a times and then b times equals ticking a + b times |
| LightCycle.SpeedupRejoinsSchedule | src/main.rs:91-96 | from the 7th tick after a speed-up the light follows the reference schedule again, whatever the lamps were at the press |
| LightCycle.SpeedupInYellowSkipsRed | src/main.rs:91-96 | for every yellow state of the schedule (counters 81 to 100), after a speed-up only yellow is on for ticks 0 to 6 and green is on at tick 7, so red is never shown |
| LightCycle.SyncAgainstSchedule | src/main.rs:41-58 | against a master on the schedule, the follower is green exactly when the master's counter is 0; it is red while the master is green or yellow; both are never green together |
| LightCycle.SyncIdempotent | src/main.rs:41-58 | syncing again with the same master changes nothing, because the follower's lamps depend only on the master |
| MainLoop.Start | src/main.rs:111-123 | before the first iteration the light shows only green at counter 0, and the stored button state is released |
| MainLoop.Step | src/main.rs:125-147 | the street light is on exactly when the reading is below 150; the stored button state becomes the current reading; on a rising edge the counter ends at 156 with the lamps unchanged; without one the light just ticks; the invariant is kept |
| MainLoop.Run | src/main.rs:125-147 | over any sequence of readings, one street-light output per iteration, each on exactly when that reading is below 150; the stored button state is the last reading; the invariant is kept |
| MainLoop.RunWithoutRisingEdge | src/main.rs:136-143 | if no reading is a rising edge of the button, the light ticks exactly as it would with no button |
| MainLoop.HeldButtonSpeedsUpOnce | src/main.rs:136-143 | a button pressed and held over many iterations speeds the light up only once |
| MainLoop.HeldNoRisingEdge | src/main.rs:137 | readings with the button held throughout contain no rising edge |
| MainLoop.ReleasedNoRisingEdge | src/main.rs:137 | readings with the button released throughout contain no rising edge |
| MainLoop.RunNeverReachesGuard | src/main.rs:61-63 | from the start, after any run, the light is well formed and its counter is never 0xff, so the early return is dead code and `+= 1` never overflows |
| MainLoop.IdleRunFollowsSchedule | src/main.rs:125-147 | with the button never pressed, the light after n ≥ 1 iterations from the start is the reference schedule at counter n mod 161 (the start itself is green at counter 0, off the schedule) |
| MainLoop.PressRejoinsSchedule | src/main.rs:136-143 | after a press with no further rising edge, the light shows green at counter 1 on the 7th iteration, counting the one that saw the press, and follows the schedule from then on |

## Left out

- Hardware access is not modelled: the `arduino_hal` peripherals, pin-mode
  setup and `downgrade`. Pins are booleans, and `is_set_high` on the
  master's green pin reads that boolean.
- The ADC sampling (`analog_read`) and the button's `is_high` are not
  modelled. Both are inputs to `Step`, as a `u16` reading and a boolean.
- The 50 ms `delay_ms`, the `panic_halt` handler and the commented-out
  serial logging are not modelled. They have no effect on the logic.
- The endless `loop` is not modelled as such. One iteration is `Step`, and
  its repetition is `Run` over a finite sequence of readings. The periodic
  behaviour is stated over n iterations.
- The commented-out second light `t2` is not modelled, and neither are its
  `force_speedup` and `sync_with` calls. `SyncWith` is modelled as a
  standalone operation on two lights and is not wired into `Step`.
- The pin writes of one call are modelled as one update. `Show` sets all
  three lamps in a single record update, but the source writes the pins one
  after another. So "exactly one lamp on" (in `TrafficLight.Process`,
  `TrafficLight.SyncWith`, `LightCycle.ProcessNWellFormed` and
  `MainLoop.RunNeverReachesGuard`) holds between calls, not during one. Two
  lamps are on together for an instant in three places:
  - in `process` at counter 0 (lines 66-68), once per cycle, green goes high
    while red is still on from counter 100;
  - in the same writes after a speed-up during yellow, green goes high
    (line 66) while yellow is still on, one write before it goes low
    (line 67);
  - in `sync_with`'s green branch (lines 53-55), when the follower was red.
