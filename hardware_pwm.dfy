/** The hardware PWM channels (green and blue): TIMER1 in edge-aligned up-counting
    PWM0 mode, where a channel's output is active while the counter is below the
    channel's compare value. */
module HardwarePwm {
  import opened Config

  /** PWM0 rule: at counter value `count` the channel with compare value `duty` is asserted. */
  predicate Asserted(count: int, duty: int)
    ensures IsCount(count) && duty <= 0 ==> !Asserted(count, duty)
    ensures IsCount(count) && duty >= MaxDuty as int ==> Asserted(count, duty)
  {
    count < duty
  }

  /** Output level of a channel over the counter values 0 .. n - 1. */
  function Waveform(duty: int, n: nat): seq<bool>
  {
    seq(n, c => Asserted(c, duty))
  }

  /** Number of asserted ticks in a sequence of output levels. */
  function HighTicks(w: seq<bool>): (k: nat)
    ensures k <= |w|
    ensures k == 0 <==> forall i | 0 <= i < |w| :: !w[i]
    ensures k == |w| <==> forall i | 0 <= i < |w| :: w[i]
  {
    if w == [] then 0
    else
      var init := w[..|w| - 1];
      assert forall i | 0 <= i < |init| :: init[i] == w[i];
      HighTicks(init) + (if w[|w| - 1] then 1 else 0)
  }

  function Min(a: int, b: int): int
  {
    if a < b then a else b
  }

  /** Over the first n counter values a channel with duty d is asserted for min(d, n) ticks. */
  lemma {:induction false} HighTicksOfWaveform(duty: nat, n: nat)
    ensures HighTicks(Waveform(duty, n)) == Min(duty, n)
  {
    if n > 0 {
      HighTicksOfWaveform(duty, n - 1);
      assert Waveform(duty, n)[..n - 1] == Waveform(duty, n - 1);
    }
  }

  /** Over one full period the asserted tick count is min(duty, MaxDuty): duty 0 is always
      off and any duty at or above MaxDuty is always on. */
  lemma PeriodHighTicks(duty: nat)
    ensures HighTicks(Waveform(duty, MaxDuty as nat)) == Min(duty, MaxDuty as int)
    ensures duty == 0 ==> forall c | IsCount(c) :: !Asserted(c, duty)
    ensures duty >= MaxDuty as int ==> forall c | IsCount(c) :: Asserted(c, duty)
  {
    HighTicksOfWaveform(duty, MaxDuty as nat);
  }
}
