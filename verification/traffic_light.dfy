/** One three-aspect traffic light driven by a `u8` animation counter.
    The three output pins are plain booleans; the counter decides, at three
    fixed values, which of the lamps is switched on. */
module TrafficLight {
  import opened MachineInts

  /** Counter value at which the yellow lamp is switched on. */
  const YELLOW_TIME: u8 := 80
  /** Counter value at which the red lamp is switched on. */
  const RED_TIME: u8 := 100
  /** Counter value at which the green lamp is switched on. */
  const GREEN_TIME: u8 := 0
  /** Counter value at which the counter wraps back to GREEN_TIME.  It is
      derived from the two other thresholds in `u8` arithmetic, so each
      intermediate result must fit in a byte (Rust rejects an overflowing
      constant at compile time). */
  const RESET_TIME: u8 := (RED_TIME - (RED_TIME - YELLOW_TIME)) * 2

  datatype Phase = Green | Yellow | Red

  /** Cyclic successor of a phase: green, yellow, red, green, ... */
  function Successor(p: Phase): Phase
  {
    match p
    case Green => Yellow
    case Yellow => Red
    case Red => Green
  }

  /** The state of one light: the three output pins and the counter. */
  datatype Light = Light(red: bool, yellow: bool, green: bool, animTimer: u8)

  predicate ExactlyOneLit(l: Light)
  {
    || (l.green && !l.yellow && !l.red)
    || (!l.green && l.yellow && !l.red)
    || (!l.green && !l.yellow && l.red)
  }

  /** The phase a light shows when exactly one lamp is on. */
  function PhaseOf(l: Light): Phase
    requires ExactlyOneLit(l)
  {
    if l.green then Green else if l.yellow then Yellow else Red
  }

  predicate SameLamps(a: Light, b: Light)
  {
    a.red == b.red && a.yellow == b.yellow && a.green == b.green
  }

  /** The invariant every operation keeps: the counter never passes the
      wrap point and exactly one lamp is on. */
  predicate WellFormed(l: Light)
  {
    l.animTimer <= RESET_TIME && ExactlyOneLit(l)
  }

  /** Drives the pin of phase `p` high and the two others low. */
  function Show(l: Light, p: Phase): (r: Light)
    ensures ExactlyOneLit(r) && PhaseOf(r) == p
    ensures r.animTimer == l.animTimer
  {
    l.(green := p == Green, yellow := p == Yellow, red := p == Red)
  }

  /** Builds a light from its three pins: only the green pin is driven high;
      `red` and `yellow` are the levels those pins already had. */
  function New(red: bool, yellow: bool): (l: Light)
    ensures l.green && l.red == red && l.yellow == yellow
    ensures l.animTimer == GREEN_TIME
    ensures WellFormed(l) <==> !red && !yellow
  {
    Light(red, yellow, true, 0)
  }

  /** One tick of the light.  The lamps change only at GREEN_TIME,
      YELLOW_TIME and RED_TIME; at RESET_TIME the counter wraps to
      GREEN_TIME; a counter of 0xff is left alone. */
  function Process(l: Light): (r: Light)
    ensures l.animTimer <= RESET_TIME ==> r.animTimer <= RESET_TIME
    ensures ExactlyOneLit(l) ==> ExactlyOneLit(r)
    ensures WellFormed(l) ==> WellFormed(r)
    ensures l.animTimer == GREEN_TIME ==> ExactlyOneLit(r) && PhaseOf(r) == Green
    ensures l.animTimer == YELLOW_TIME ==> ExactlyOneLit(r) && PhaseOf(r) == Yellow
    ensures l.animTimer == RED_TIME ==> ExactlyOneLit(r) && PhaseOf(r) == Red
    ensures l.animTimer !in {GREEN_TIME, YELLOW_TIME, RED_TIME} ==> SameLamps(r, l)
    ensures l.animTimer == RESET_TIME ==> r.animTimer == GREEN_TIME
    ensures l.animTimer != RESET_TIME && l.animTimer != 0xff ==>
              r.animTimer as int == l.animTimer as int + 1
    ensures l.animTimer == 0xff ==> r == l
  {
    if l.animTimer == 0xff then
      l
    else if l.animTimer == GREEN_TIME then
      Show(l, Green).(animTimer := l.animTimer + 1)
    else if l.animTimer == YELLOW_TIME then
      Show(l, Yellow).(animTimer := l.animTimer + 1)
    else if l.animTimer == RED_TIME then
      Show(l, Red).(animTimer := l.animTimer + 1)
    else if l.animTimer == RESET_TIME then
      l.(animTimer := GREEN_TIME)
    else
      l.(animTimer := l.animTimer + 1)
  }

  /** Pedestrian speed-up: jumps the counter five ticks before the wrap
      point, whatever its value, without touching the lamps. */
  function ForceSpeedup(l: Light): (r: Light)
    ensures r.animTimer == RESET_TIME - 5
    ensures SameLamps(r, l)
    ensures ExactlyOneLit(l) ==> WellFormed(r)
  {
    l.(animTimer := RESET_TIME - 5)
  }

  /** Follower mode: the follower shows red while the master shows green or
      the master's counter has reached YELLOW_TIME, and green otherwise.
      The follower's own counter is not used and not changed. */
  function SyncWith(self: Light, master: Light): (r: Light)
    ensures r.animTimer == self.animTimer
    ensures ExactlyOneLit(r) && !r.yellow
    ensures r.green <==> !master.green && master.animTimer < YELLOW_TIME
    ensures self.animTimer <= RESET_TIME ==> WellFormed(r)
  {
    if master.green then
      Show(self, Red)
    else if master.animTimer >= YELLOW_TIME then
      Show(self, Red)
    else
      Show(self, Green)
  }

  /** The thresholds are strictly ordered and the derived wrap point is 160,
      which leaves room below the 0xff guard. */
  lemma ConstantsOrdered()
    ensures RESET_TIME == 160
    ensures GREEN_TIME < YELLOW_TIME < RED_TIME < RESET_TIME < 0xff
  {
  }

  /** Speeding up twice in a row is the same as speeding up once. */
  lemma ForceSpeedupIdempotent(l: Light)
    ensures ForceSpeedup(ForceSpeedup(l)) == ForceSpeedup(l)
  {
  }
}
