/** Constants and identifiers shared by every part of the RGB LED PWM generator. */
module Config {

  /** The C type `uint16_t` of the duty values and channel numbers. */
  newtype u16 = x: int | 0 <= x < 0x1_0000

  /** Timer prescaler: 54 MHz / 540 gives 100 kHz counter ticks. Kept as the source's
      constant only: timing is not modelled, so no member uses it. */
  const Prescale: u16 := 540

  /** Ticks per PWM period, and the duty value meaning "fully on". */
  const MaxDuty: u16 := 1000

  /** The auto-reload value init_pwm programs: the counter runs 0 .. MaxDuty - 1 and wraps. */
  const Period: int := MaxDuty as int - 1

  /** A counter value the timer can hold. */
  predicate IsCount(count: int)
  {
    0 <= count <= Period
  }

  /** The three LED colours. */
  datatype Color = Red | Green | Blue

  /** The timer channel (compare register index) wired to each colour:
      green and blue are hardware channels 1 and 2, red is channel 3,
      whose compare value only the interrupt handler reads. */
  function Channel(c: Color): (ch: u16)
    ensures 1 <= ch <= 3
    ensures ch == 3 <==> c == Red
  {
    match c
    case Red => 3
    case Green => 1
    case Blue => 2
  }

  /** Distinct colours use distinct compare registers, so writing one duty never disturbs another. */
  lemma ChannelInjective(a: Color, b: Color)
    ensures Channel(a) == Channel(b) <==> a == b
  {
  }
}
