/** The software PWM channel (red): the interrupt handler of TIMER1 makes a plain
    GPIO pin imitate a PWM output from two interrupt events, the update (counter
    wrap) event and the channel 3 compare event. This module states one handler
    invocation as a transition on the red channel's state. */
module SoftwarePwm {
  import opened Config
  import opened HardwarePwm

  /** State the handler owns: `equalizer` is its static flag (true: red is logically on);
      `pinHigh` is the output level of the red pin. The LED is active-low, so the handler
      resets the pin (low) to switch red on and sets it (high) to switch red off. */
  datatype RedState = RedState(equalizer: bool, pinHigh: bool)

  /** The pin shows what the flag says: reset <-> on, set <-> off. */
  predicate Agrees(s: RedState)
  {
    s.equalizer == !s.pinHigh
  }

  /** Red on, as the update branch leaves it. */
  const SwitchedOn := RedState(true, false)

  /** Red off, as the compare branch leaves it. */
  const SwitchedOff := RedState(false, true)

  /** The update-event branch: with red logically off and the counter still below the
      compare value, switch red on; otherwise change nothing. */
  function OnUpdate(s: RedState, count: int, limit: int): (r: RedState)
    ensures r.equalizer != s.equalizer <==> !s.equalizer && count < limit
    ensures r.equalizer != s.equalizer ==> r == SwitchedOn
    ensures r.equalizer == s.equalizer ==> r == s
  {
    if !s.equalizer && count < limit then SwitchedOn else s
  }

  /** The compare-event branch: with red logically on and the counter at or past the
      compare value, switch red off; otherwise change nothing. */
  function OnCompare(s: RedState, count: int, limit: int): (r: RedState)
    ensures r.equalizer != s.equalizer <==> s.equalizer && count >= limit
    ensures r.equalizer != s.equalizer ==> r == SwitchedOff
    ensures r.equalizer == s.equalizer ==> r == s
  {
    if s.equalizer && count >= limit then SwitchedOff else s
  }

  /** One handler invocation with the given pending flags. `count` and `limit` are read
      once, before either branch runs. */
  function Step(s: RedState, up: bool, ch3: bool, count: int, limit: int): (r: RedState)
    // the compare branch never undoes a switch-on made by the update branch in the same call
    ensures up && OnUpdate(s, count, limit) != s ==> r == OnUpdate(s, count, limit)
    // only a flip of the flag writes the pin, and afterwards pin and flag agree
    ensures r.equalizer == s.equalizer ==> r == s
    ensures r.equalizer != s.equalizer ==> Agrees(r)
    // why the flag flipped
    ensures r.equalizer && !s.equalizer <==> up && count < limit && !s.equalizer
    ensures !r.equalizer && s.equalizer <==> ch3 && count >= limit && s.equalizer
    ensures Agrees(s) ==> Agrees(r)
  {
    var afterUpdate := if up then OnUpdate(s, count, limit) else s;
    if ch3 then OnCompare(afterUpdate, count, limit) else afterUpdate
  }

  /** One interrupt as the handler sees it: the two pending flags and the counter it reads. */
  datatype Irq = Irq(up: bool, ch3: bool, count: int)

  predicate CountsInRange(irqs: seq<Irq>)
  {
    forall i | 0 <= i < |irqs| :: IsCount(irqs[i].count)
  }

  /** The red channel's state after the handler has served `irqs` in order, the
      compare value staying `limit`. */
  function Run(s: RedState, irqs: seq<Irq>, limit: int): (r: RedState)
    // any change of state comes from a flip, after which pin and flag agree
    ensures r != s ==> Agrees(r)
  {
    if irqs == [] then s
    else
      var last := irqs[|irqs| - 1];
      Step(Run(s, irqs[..|irqs| - 1], limit), last.up, last.ch3, last.count, limit)
  }

  /** Duty 0 is always off: the handler never switches red on. */
  lemma {:induction false} ZeroDutyNeverOn(s: RedState, irqs: seq<Irq>)
    requires CountsInRange(irqs)
    requires !s.equalizer
    ensures !Run(s, irqs, 0).equalizer
    ensures Run(s, irqs, 0) == s
  {
    if irqs != [] {
      ZeroDutyNeverOn(s, irqs[..|irqs| - 1]);
    }
  }

  /** Duty at or above MaxDuty is always on: once on, the handler never switches red off. */
  lemma {:induction false} FullDutyNeverOff(s: RedState, irqs: seq<Irq>, limit: int)
    requires CountsInRange(irqs)
    requires limit >= MaxDuty as int
    requires s.equalizer
    ensures Run(s, irqs, limit) == s
  {
    if irqs != [] {
      FullDutyNeverOff(s, irqs[..|irqs| - 1], limit);
    }
  }

  /** A state whose pin agrees with its flag keeps agreeing, whatever interrupts follow. */
  lemma {:induction false} RunPreservesAgreement(s: RedState, irqs: seq<Irq>, limit: int)
    requires Agrees(s)
    ensures Agrees(Run(s, irqs, limit))
  {
    if irqs != [] {
      RunPreservesAgreement(s, irqs[..|irqs| - 1], limit);
    }
  }

  /** Once any interrupt has flipped the flag, pin and flag agree from then on, even when
      they disagreed at the start. */
  lemma {:induction false} AgreesAfterFlip(s: RedState, irqs: seq<Irq>, limit: int, k: nat)
    requires k < |irqs|
    requires Run(s, irqs[..k + 1], limit).equalizer != Run(s, irqs[..k], limit).equalizer
    ensures Agrees(Run(s, irqs, limit))
  {
    if |irqs| == k + 1 {
      assert irqs[..k + 1] == irqs;
      assert irqs[..k + 1][..k] == irqs[..k];
    } else {
      var init := irqs[..|irqs| - 1];
      assert init[..k + 1] == irqs[..k + 1];
      assert init[..k] == irqs[..k];
      AgreesAfterFlip(s, init, limit, k);
    }
  }

  /** Without a flip the state is unchanged: the handler never writes the pin otherwise. */
  lemma {:induction false} NoFlipNoChange(s: RedState, irqs: seq<Irq>, limit: int)
    requires forall k | 0 <= k < |irqs| :: Run(s, irqs[..k + 1], limit).equalizer == Run(s, irqs[..k], limit).equalizer
    ensures Run(s, irqs, limit) == s
  {
    if irqs != [] {
      var init := irqs[..|irqs| - 1];
      forall k | 0 <= k < |init|
        ensures Run(s, init[..k + 1], limit).equalizer == Run(s, init[..k], limit).equalizer
      {
        assert init[..k + 1] == irqs[..k + 1];
        assert init[..k] == irqs[..k];
      }
      NoFlipNoChange(s, init, limit);
      assert irqs[..|irqs| - 1 + 1] == irqs;
    }
  }

  /** The interrupts TIMER1 raises at counter value t with compare value `limit`: the
      update event when the counter wraps to 0, the channel 3 compare event when the
      counter reaches the compare value. The handler is taken to run within the tick. */
  function TickIrq(t: int, limit: int): (irq: Irq)
    ensures irq.count == t
    // one update event per period, at the wrap
    ensures IsCount(t) ==> (irq.up <==> t == 0)
    // a compare value at or above MaxDuty is never reached within the period
    ensures IsCount(t) && limit >= MaxDuty as int ==> !irq.ch3
    // with compare value 0 both events are pending together at the wrap
    ensures limit == 0 ==> (irq.up <==> irq.ch3)
  {
    Irq(t == 0, t == limit, t)
  }

  /** The red channel's state after the handler has served ticks 0 .. t - 1 of one period. */
  function TickRun(s: RedState, limit: int, t: nat): (r: RedState)
    ensures r != s ==> Agrees(r)
  {
    if t == 0 then s
    else
      var irq := TickIrq(t - 1, limit);
      Step(TickRun(s, limit, t - 1), irq.up, irq.ch3, irq.count, limit)
  }

  /** Whatever the state at the wrap, after tick t - 1 the flag equals the hardware
      channels' PWM0 level for the same compare value: the first wrap re-synchronises
      the channel. */
  lemma {:induction false} TickRunTracksHardware(s: RedState, limit: nat, t: nat)
    requires 0 < t <= MaxDuty as int
    ensures TickRun(s, limit, t).equalizer == Asserted(t - 1, limit)
  {
    if t > 1 {
      TickRunTracksHardware(s, limit, t - 1);
    }
  }

  /** Flag level after each tick of one period. */
  function SoftwareWaveform(s: RedState, limit: nat): seq<bool>
  {
    seq(MaxDuty as int, c requires 0 <= c < MaxDuty as int => TickRun(s, limit, c + 1).equalizer)
  }

  /** Over one period the handler's flag reproduces the hardware waveform exactly, so the
      flag is on for min(duty, MaxDuty) ticks, from any starting state. */
  lemma SoftwareMatchesHardware(s: RedState, limit: nat)
    ensures SoftwareWaveform(s, limit) == Waveform(limit, MaxDuty as nat)
    ensures HighTicks(SoftwareWaveform(s, limit)) == Min(limit, MaxDuty as int)
  {
    forall c | 0 <= c < MaxDuty as int
      ensures SoftwareWaveform(s, limit)[c] == Waveform(limit, MaxDuty as nat)[c]
    {
      TickRunTracksHardware(s, limit, c + 1);
    }
    PeriodHighTicks(limit);
  }

  /** Pin and flag agree after every tick when they agreed at the start, or when the
      first tick flipped the flag. */
  lemma {:induction false} TickRunAgrees(s: RedState, limit: nat, t: nat)
    requires 0 < t <= MaxDuty as int
    requires Agrees(s) || s.equalizer != Asserted(0, limit)
    ensures Agrees(TickRun(s, limit, t))
  {
    if t > 1 {
      TickRunAgrees(s, limit, t - 1);
    }
  }

  /** Pin level (reset = red lit) after each tick of one period. */
  function PinWaveform(s: RedState, limit: nat): seq<bool>
  {
    seq(MaxDuty as int, c requires 0 <= c < MaxDuty as int => !TickRun(s, limit, c + 1).pinHigh)
  }

  /** When pin and flag agree at the wrap, or the first tick flips the flag, the red pin
      itself reproduces the hardware waveform over one period: red is lit for
      min(duty, MaxDuty) ticks. */
  lemma PinMatchesHardware(s: RedState, limit: nat)
    requires Agrees(s) || s.equalizer != Asserted(0, limit)
    ensures PinWaveform(s, limit) == Waveform(limit, MaxDuty as nat)
    ensures HighTicks(PinWaveform(s, limit)) == Min(limit, MaxDuty as int)
  {
    forall c | 0 <= c < MaxDuty as int
      ensures PinWaveform(s, limit)[c] == Waveform(limit, MaxDuty as nat)[c]
    {
      TickRunTracksHardware(s, limit, c + 1);
      TickRunAgrees(s, limit, c + 1);
    }
    PeriodHighTicks(limit);
  }

  /** State at start-up: the flag is 0 and init_pwm has reset the pin, which the
      handler's convention reads as red on. */
  const Startup := RedState(false, false)

  /** From start-up, with red's compare value 0 the flag never flips, so the pin stays
      reset (red lit) while the flag says off; any positive compare value heals this at
      the first wrap. */
  lemma StartupAgreement(limit: nat, t: nat)
    requires 0 < t <= MaxDuty as int
    ensures !Agrees(Startup)
    ensures limit == 0 ==> TickRun(Startup, limit, t) == Startup
    ensures limit > 0 ==> Agrees(TickRun(Startup, limit, t))
  {
    if limit == 0 {
      ZeroDutyTicks(t);
    } else {
      TickRunAgrees(Startup, limit, t);
    }
  }

  lemma {:induction false} ZeroDutyTicks(t: nat)
    ensures TickRun(Startup, 0, t) == Startup
  {
    if t > 0 {
      ZeroDutyTicks(t - 1);
    }
  }
}
