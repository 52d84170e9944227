/** The behaviour of a light driven by `Process` over many ticks, stated
    against an independent schedule: which lamp a light that has been
    running undisturbed shows at each counter value. */
module LightCycle {
  import opened MachineInts
  import opened TrafficLight

  /** Number of `Process` calls after which the counter is back where it
      started: the values 0 ..= RESET_TIME. */
  const PERIOD: nat := RESET_TIME as nat + 1

  /** `n` consecutive ticks. */
  function ProcessN(l: Light, n: nat): Light
    decreases n
  {
    if n == 0 then l else ProcessN(Process(l), n - 1)
  }

  /** The lamp an undisturbed light shows at counter `c`: green was switched
      on at GREEN_TIME, yellow at YELLOW_TIME, red at RED_TIME, and red stays
      on across the wrap to 0 until the next tick switches green on. */
  function ScheduledPhase(c: u8): Phase
  {
    if GREEN_TIME < c <= YELLOW_TIME then Green
    else if YELLOW_TIME < c <= RED_TIME then Yellow
    else Red
  }

  /** The state of an undisturbed light at counter `c`. */
  function CycleState(c: u8): Light
  {
    Show(Light(false, false, false, c), ScheduledPhase(c))
  }

  /** A light whose lamps are the ones the schedule gives for its counter. */
  predicate InCycle(l: Light)
  {
    l.animTimer <= RESET_TIME && l == CycleState(l.animTimer)
  }

  /** The counter position `k` ticks after `c`. */
  function Advance(c: u8, k: nat): (r: u8)
    requires c <= RESET_TIME
    ensures r <= RESET_TIME
  {
    ((c as nat + k) % PERIOD) as u8
  }

  /** One tick moves a scheduled light to the schedule's next position. */
  lemma ProcessFollowsSchedule(c: u8)
    requires c <= RESET_TIME
    ensures Process(CycleState(c)) == CycleState(Advance(c, 1))
  {
  }

  /** However the lamps stand, the counter advances by one position of the
      cycle per tick and never leaves 0 ..= RESET_TIME. */
  lemma {:induction false} ProcessNCounter(l: Light, k: nat)
    requires l.animTimer <= RESET_TIME
    ensures ProcessN(l, k).animTimer == Advance(l.animTimer, k)
    decreases k
  {
    if k > 0 {
      ProcessNCounter(Process(l), k - 1);
    }
  }

  /** `k` ticks of an undisturbed light land on the schedule `k` positions on. */
  lemma {:induction false} ProcessNFollowsSchedule(c: u8, k: nat)
    requires c <= RESET_TIME
    ensures ProcessN(CycleState(c), k) == CycleState(Advance(c, k))
    decreases k
  {
    if k > 0 {
      ProcessFollowsSchedule(c);
      AdvanceStep(c, k);
      ProcessNFollowsSchedule(Advance(c, 1), k - 1);
    }
  }

  /** Advancing one position and then `k - 1` more is advancing `k`. */
  lemma AdvanceStep(c: u8, k: nat)
    requires c <= RESET_TIME && k > 0
    ensures Advance(Advance(c, 1), k - 1) == Advance(c, k)
  {
    if c < RESET_TIME {
      assert Advance(c, 1) as nat == c as nat + 1;
    } else {
      assert Advance(c, 1) == 0;
      assert c as nat + k == (k - 1) + PERIOD;
    }
  }

  /** The invariant is kept over any number of ticks. */
  lemma {:induction false} ProcessNWellFormed(l: Light, k: nat)
    requires WellFormed(l)
    ensures WellFormed(ProcessN(l, k))
    ensures ProcessN(l, k).animTimer != 0xff
    decreases k
  {
    if k > 0 {
      ProcessNWellFormed(Process(l), k - 1);
    }
  }

  /** From counter GREEN_TIME the counter is back at GREEN_TIME after
      exactly PERIOD (161) ticks, and not before. */
  lemma CounterPeriod(l: Light)
    requires l.animTimer == GREEN_TIME
    ensures ProcessN(l, PERIOD).animTimer == GREEN_TIME
    ensures forall k: nat | 0 < k < PERIOD :: ProcessN(l, k).animTimer as nat == k
  {
    ProcessNCounter(l, PERIOD);
    forall k: nat | 0 < k < PERIOD
      ensures ProcessN(l, k).animTimer as nat == k
    {
      ProcessNCounter(l, k);
    }
  }

  /** An undisturbed light repeats with period exactly PERIOD. */
  lemma CyclePeriod(l: Light)
    requires InCycle(l)
    ensures ProcessN(l, PERIOD) == l
    ensures forall k: nat | 0 < k < PERIOD :: ProcessN(l, k) != l
  {
    var c := l.animTimer;
    assert l == CycleState(c);
    assert Advance(c, PERIOD) == c;
    ProcessNFollowsSchedule(c, PERIOD);
    forall k: nat | 0 < k < PERIOD
      ensures ProcessN(l, k) != l
    {
      ProcessNCounter(l, k);
    }
  }

  /** A freshly built light (whatever its red and yellow pins held) joins
      the schedule at its first tick and follows it from then on. */
  lemma NewFollowsSchedule(red: bool, yellow: bool, n: nat)
    requires n > 0
    ensures ProcessN(New(red, yellow), n) == CycleState(Advance(GREEN_TIME, n))
  {
    assert Process(New(red, yellow)) == CycleState(1);
    ProcessNFollowsSchedule(1, n - 1);
  }

  /** On the schedule, a tick changes the lamp exactly at GREEN_TIME,
      YELLOW_TIME and RED_TIME, and a change always goes to the next phase
      in the order green, yellow, red, green. */
  lemma ProcessLampOrder(l: Light)
    requires InCycle(l)
    ensures PhaseOf(Process(l)) != PhaseOf(l) <==>
              l.animTimer in {GREEN_TIME, YELLOW_TIME, RED_TIME}
    ensures PhaseOf(Process(l)) == PhaseOf(l) ||
            PhaseOf(Process(l)) == Successor(PhaseOf(l))
  {
    ProcessFollowsSchedule(l.animTimer);
  }

  /** Driven by `Process` alone from a properly built light, consecutive
      states show the same lamp or the next one in the cycle. */
  lemma ProcessOnlyLampOrder(n: nat)
    ensures var a := ProcessN(New(false, false), n);
            var b := ProcessN(New(false, false), n + 1);
            ExactlyOneLit(a) && ExactlyOneLit(b) &&
            (PhaseOf(b) == PhaseOf(a) || PhaseOf(b) == Successor(PhaseOf(a)))
  {
    var a := ProcessN(New(false, false), n);
    var b := ProcessN(New(false, false), n + 1);
    assert b == Process(a) by {
      ProcessNSplit(New(false, false), n, 1);
    }
    if n == 0 {
      assert b == CycleState(1);
    } else {
      var c := Advance(GREEN_TIME, n);
      assert a == CycleState(c) by {
        NewFollowsSchedule(false, false, n);
      }
      ProcessLampOrder(a);
    }
  }

  /** After a speed-up the lamps stay as they were for six ticks while the
      counter runs from RESET_TIME - 5 over the wrap to GREEN_TIME; the
      seventh tick switches green on and the light is back on the schedule. */
  lemma SpeedupReachesGreen(l: Light)
    ensures var f := ForceSpeedup(l);
            && (forall k: nat | k < 6 ::
                  SameLamps(ProcessN(f, k), l) &&
                  ProcessN(f, k).animTimer as int == RESET_TIME as int - 5 + k)
            && SameLamps(ProcessN(f, 6), l)
            && ProcessN(f, 6).animTimer == GREEN_TIME
            && ProcessN(f, 7) == CycleState(1)
  {
    var f := ForceSpeedup(l);
    assert ProcessN(f, 6) == l.(animTimer := 0) by {
      assert ProcessN(f, 1) == l.(animTimer := 156);
      assert ProcessN(f, 2) == l.(animTimer := 157);
      assert ProcessN(f, 3) == l.(animTimer := 158);
      assert ProcessN(f, 4) == l.(animTimer := 159);
      assert ProcessN(f, 5) == l.(animTimer := 160);
    }
    assert ProcessN(f, 7) == Process(ProcessN(f, 6)) by {
      ProcessNSplit(f, 6, 1);
    }
  }

  /** Ticking `a` then `b` times is ticking `a + b` times. */
  lemma {:induction false} ProcessNSplit(l: Light, a: nat, b: nat)
    ensures ProcessN(ProcessN(l, a), b) == ProcessN(l, a + b)
    decreases a
  {
    if a > 0 {
      ProcessNSplit(Process(l), a - 1, b);
    }
  }

  /** After a speed-up, from the seventh tick on the light follows the
      schedule again, whatever its lamps were when the button was pressed. */
  lemma SpeedupRejoinsSchedule(l: Light, n: nat)
    requires n >= 7
    ensures ProcessN(ForceSpeedup(l), n) == CycleState(Advance(1, n - 7))
  {
    SpeedupReachesGreen(l);
    ProcessNSplit(ForceSpeedup(l), 7, n - 7);
    ProcessNFollowsSchedule(1, n - 7);
  }

  /** The speed-up ignores the phase: pressed at any tick while yellow is
      on, the light keeps yellow (and only yellow) for the next six ticks and
      then goes straight to green, never showing red. */
  lemma SpeedupInYellowSkipsRed(l: Light)
    requires InCycle(l) && PhaseOf(l) == Yellow
    ensures forall k: nat | k <= 6 ::
              ExactlyOneLit(ProcessN(ForceSpeedup(l), k)) &&
              PhaseOf(ProcessN(ForceSpeedup(l), k)) == Yellow
    ensures PhaseOf(ProcessN(ForceSpeedup(l), 7)) == Green
  {
    SpeedupReachesGreen(l);
  }

  /** Against a master on the schedule, the follower is green only while the
      master's counter is GREEN_TIME (master red, just wrapped); it is red
      whenever the master shows green or yellow, and also during the rest of
      the master's red phase. */
  lemma SyncAgainstSchedule(self: Light, master: Light)
    requires InCycle(master)
    ensures SyncWith(self, master).green <==> master.animTimer == GREEN_TIME
    ensures PhaseOf(master) != Red ==> PhaseOf(SyncWith(self, master)) == Red
  {
  }

  /** The follower's lamps depend only on the master: syncing again with the
      same master changes nothing. */
  lemma SyncIdempotent(self: Light, master: Light)
    ensures SyncWith(SyncWith(self, master), master) == SyncWith(self, master)
  {
  }
}
