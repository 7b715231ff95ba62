/** The fade sequencer's schedule, as values: what the compare registers hold after
    each step of fade(from, to), and after one pass of the main loop. */
module Fade {
  import opened Config

  /** A snapshot of TIMER1's four compare registers CH0CV .. CH3CV. */
  type Registers = r: seq<u16> | |r| == 4 witness [0, 0, 0, 0]

  /** Duty of colour c in a register snapshot. */
  function Duty(regs: Registers, c: Color): u16
  {
    regs[Channel(c)]
  }

  /** The registers after step i of fade(from, to) started from `regs`:
      from gets MaxDuty - i, then to gets i. */
  function FadeAt(regs: Registers, from: Color, to: Color, i: int): (r: Registers)
    requires 0 <= i <= MaxDuty as int
    ensures Duty(r, to) as int == i
    ensures from != to ==> Duty(r, from) as int == MaxDuty as int - i
    ensures from != to ==> Duty(r, from) as int + Duty(r, to) as int == MaxDuty as int
    ensures forall ch | 0 <= ch < 4 && ch != Channel(from) as int && ch != Channel(to) as int :: r[ch] == regs[ch]
  {
    regs[Channel(from) := (MaxDuty as int - i) as u16][Channel(to) := i as u16]
  }

  /** Across the steps of one fade the source duty strictly falls and the target duty
      strictly rises. */
  lemma FadeMonotone(regs: Registers, from: Color, to: Color, i: int, j: int)
    requires from != to
    requires 0 <= i < j <= MaxDuty as int
    ensures Duty(FadeAt(regs, from, to, j), from) < Duty(FadeAt(regs, from, to, i), from)
    ensures Duty(FadeAt(regs, from, to, j), to) > Duty(FadeAt(regs, from, to, i), to)
  {
  }

  /** The registers when fade(from, to) returns. */
  function FadeEnd(regs: Registers, from: Color, to: Color): Registers
  {
    FadeAt(regs, from, to, MaxDuty as int)
  }

  /** A fade ends with its source fully off and its target fully on; the third colour
      and CH0 keep their values. */
  lemma FadeEndState(regs: Registers, from: Color, to: Color)
    requires from != to
    ensures Duty(FadeEnd(regs, from, to), from) == 0
    ensures Duty(FadeEnd(regs, from, to), to) == MaxDuty
    ensures forall c: Color | c != from && c != to :: Duty(FadeEnd(regs, from, to), c) == Duty(regs, c)
    ensures FadeEnd(regs, from, to)[0] == regs[0]
  {
  }

  /** One pass of the main loop: Red to Blue, Blue to Green, Green to Red. Whatever the
      duties before it, a pass ends with red fully on and green and blue off. */
  function Cycle(regs: Registers): (r: Registers)
    ensures Duty(r, Red) == MaxDuty
    ensures Duty(r, Green) == 0
    ensures Duty(r, Blue) == 0
    ensures r[0] == regs[0]
  {
    FadeEnd(FadeEnd(FadeEnd(regs, Red, Blue), Blue, Green), Green, Red)
  }

  /** So every later pass returns the registers to the values they held before it. */
  lemma CycleClosure(regs: Registers)
    ensures Cycle(Cycle(regs)) == Cycle(regs)
  {
    assert Cycle(Cycle(regs))[0] == Cycle(regs)[0];
  }
}
