/** The board as main.c drives it: TIMER1's compare registers and interrupt flags, the
    interrupt handler's flag and the red pin, updated in place by init_pwm, the
    interrupt handler, set_pwm_duty, fade and main. */
module Rainbow {
  import opened Config
  import opened Fade
  import opened SoftwarePwm
  import HardwarePwm

  class Board {
    /** TIMER1's compare registers CH0CV .. CH3CV; channels 1, 2 and 3 hold the
        green, blue and red duties. */
    const cv: array<u16>
    /** Pending update-event interrupt flag. */
    var upFlag: bool
    /** Pending channel 3 compare-event interrupt flag. */
    var ch3Flag: bool
    /** The interrupt handler's static flag: red is logically on. */
    var equalizer: bool
    /** Output level of the red pin (set: high, red off; reset: low, red on). */
    var pinHigh: bool

    ghost predicate Valid()
      reads this
    {
      cv.Length == 4
    }

    /** The red channel's state, as the transition functions see it. */
    function Soft(): RedState
      reads this
    {
      RedState(equalizer, pinHigh)
    }

    /** The compare register snapshot. */
    function Regs(): Registers
      reads this, cv
      requires Valid()
    {
      cv[..]
    }

    /** The state init_pwm leaves: every compare value 0, no interrupt pending, the
        handler's flag 0 and the red pin reset. */
    constructor ()
      ensures Valid() && fresh(cv)
      ensures Regs() == [0, 0, 0, 0]
      ensures !upFlag && !ch3Flag
      ensures Soft() == Startup
    {
      cv := new u16[4](_ => 0);
      upFlag, ch3Flag := false, false;
      equalizer := false;
      pinHigh := false;
      new;
      assert cv[..] == [0, 0, 0, 0];
    }

    /** TIMER1 reaching counter value `count`: it raises the events `TickIrq` gives, the
        update flag on the wrap to 0 and the channel 3 flag when the counter equals the
        red compare value. */
    method CounterTick(count: int)
      requires Valid() && IsCount(count)
      modifies this
      ensures upFlag == (old(upFlag) || TickIrq(count, cv[Channel(Red)] as int).up)
      ensures ch3Flag == (old(ch3Flag) || TickIrq(count, cv[Channel(Red)] as int).ch3)
      ensures Soft() == old(Soft())
    {
      if count == 0 {
        upFlag := true;
      }
      if count == cv[Channel(Red)] as int {
        ch3Flag := true;
      }
    }

    /** TIMER1_IRQHandler: reads the counter (passed in as `count`) and the red compare
        value once, then serves and clears the update event and the compare event
        in that order. */
    method Timer1IrqHandler(count: int)
      requires Valid() && IsCount(count)
      modifies this
      ensures !upFlag && !ch3Flag
      ensures Soft() == Step(old(Soft()), old(upFlag), old(ch3Flag), count, cv[Channel(Red)] as int)
      ensures Regs() == old(Regs())
    {
      var limit := cv[Channel(Red)] as int;
      if upFlag {
        upFlag := false;
        if !equalizer && count < limit {
          equalizer := true;
          pinHigh := false;
        }
      }
      if ch3Flag {
        ch3Flag := false;
        if equalizer && count >= limit {
          equalizer := false;
          pinHigh := true;
        }
      }
    }

    /** set_pwm_duty: writes one compare register. The vendor routine ignores channel
        numbers it does not know. */
    method SetPwmDuty(channel: u16, duty: u16)
      requires Valid()
      modifies cv
      ensures channel < 4 ==> Regs() == old(Regs())[channel := duty]
      ensures channel >= 4 ==> Regs() == old(Regs())
    {
      if channel < 4 {
        cv[channel] := duty;
      }
    }

    /** fade: for i = 0 .. MaxDuty, sets from to MaxDuty - i and to to i. `steps`
        records the registers after each step. */
    method Fade(from: Color, to: Color) returns (ghost steps: seq<Registers>)
      requires Valid()
      modifies cv
      ensures |steps| == MaxDuty as int + 1
      ensures forall i | 0 <= i < |steps| :: steps[i] == FadeAt(old(Regs()), from, to, i)
      ensures Regs() == FadeEnd(old(Regs()), from, to)
    {
      ghost var start := Regs();
      steps := [];
      var i := 0;
      while i <= MaxDuty as int
        invariant 0 <= i <= MaxDuty as int + 1
        invariant |steps| == i
        invariant forall k | 0 <= k < i :: steps[k] == FadeAt(start, from, to, k)
        invariant Regs() == if i == 0 then start else FadeAt(start, from, to, i - 1)
      {
        SetPwmDuty(Channel(from), (MaxDuty as int - i) as u16);
        SetPwmDuty(Channel(to), i as u16);
        assert Regs() == FadeAt(start, from, to, i);
        steps := steps + [Regs()];
        i := i + 1;
      }
    }

    /** `cycles` passes of main's endless loop. */
    method MainLoop(cycles: nat)
      requires Valid()
      modifies cv
      ensures cycles == 0 ==> Regs() == old(Regs())
      ensures cycles > 0 ==> Regs() == Cycle(old(Regs()))
      ensures cycles > 0 ==> Duty(Regs(), Red) == MaxDuty && Duty(Regs(), Green) == 0 && Duty(Regs(), Blue) == 0
    {
      ghost var start := Regs();
      var n := 0;
      while n < cycles
        invariant 0 <= n <= cycles
        invariant n == 0 ==> Regs() == start
        invariant n > 0 ==> Regs() == Cycle(start)
      {
        ghost var before := Regs();
        var _ := Fade(Red, Blue);
        var _ := Fade(Blue, Green);
        var _ := Fade(Green, Red);
        assert Regs() == Cycle(before);
        if n > 0 {
          CycleClosure(start);
        }
        n := n + 1;
      }
    }
  }

  /** The timer running through one period, raising its events at each counter value,
      with the handler serving each tick before the next. `levels` records the handler's
      flag after each tick. */
  method ServePeriod(b: Board) returns (ghost levels: seq<bool>)
    requires b.Valid() && !b.upFlag && !b.ch3Flag
    modifies b
    ensures !b.upFlag && !b.ch3Flag
    ensures b.Regs() == old(b.Regs())
    ensures b.Soft() == TickRun(old(b.Soft()), b.cv[Channel(Red)] as int, MaxDuty as nat)
    ensures levels == HardwarePwm.Waveform(b.cv[Channel(Red)] as int, MaxDuty as nat)
  {
    ghost var s0 := b.Soft();
    var limit := b.cv[Channel(Red)] as int;
    levels := [];
    var t := 0;
    while t < MaxDuty as int
      invariant 0 <= t <= MaxDuty as int
      invariant b.Valid() && !b.upFlag && !b.ch3Flag
      invariant b.Regs() == old(b.Regs())
      invariant b.Soft() == TickRun(s0, limit, t)
      invariant |levels| == t
      invariant forall c | 0 <= c < t :: levels[c] == HardwarePwm.Asserted(c, limit)
    {
      b.CounterTick(t);
      b.Timer1IrqHandler(t);
      TickRunTracksHardware(s0, limit, t + 1);
      levels := levels + [b.equalizer];
      t := t + 1;
    }
  }

  /** main: init_pwm, then `cycles` passes of the fade loop. */
  method RunMain(cycles: nat) returns (board: Board)
    ensures board.Valid() && fresh(board) && fresh(board.cv)
    ensures cycles > 0 ==> board.Regs() == [0, 0, 0, MaxDuty]
    ensures cycles == 0 ==> board.Regs() == [0, 0, 0, 0]
    ensures board.Soft() == Startup
  {
    board := new Board();
    board.MainLoop(cycles);
    if cycles > 0 {
      assert board.Regs()[0] == 0 && board.Regs()[Channel(Red)] == MaxDuty;
    }
  }
}
