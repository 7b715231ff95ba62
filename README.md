# Rainbow: hybrid hardware/software PWM for the Longan Nano RGB LED

This project models, in Dafny, the PWM generator that fades the Longan Nano's RGB LED
through a rainbow (`src/main.c`). TIMER1 counts 0 .. MAX_DUTY - 1 (1000 ticks at
100 kHz) and wraps. Green and blue are wired to timer channels 1 and 2 and are driven
by the hardware in PWM0 mode: a channel's output is active while the counter is below
its compare value. Red sits on a plain GPIO pin. Its duty lives in the otherwise
unconnected compare register of channel 3. The interrupt handler `TIMER1_IRQHandler`
imitates the PWM output on that pin from two events: the update event (counter wrap)
and the channel 3 compare event. It keeps a static flag `equalizer` that says whether
red is logically on. The main loop fades red to blue, blue to green and green to red,
one duty step at a time.

Modules:

- `Config` (config.dfy): the constants `Prescale` and `MaxDuty`, the auto-reload
  value, the colours and the timer channel of each colour.
- `HardwarePwm` (hardware_pwm.dfy): the PWM0 rule `Asserted(count, duty) = count < duty`,
  the output waveform over one period, and its count of asserted ticks.
- `SoftwarePwm` (software_pwm.dfy): one handler invocation as a transition `Step` on the
  red channel's state (flag and pin level). `Run` serves a sequence of interrupts and
  `TickRun` serves the ticks of one period. The module also holds the lemmas about them.
- `Fade` (fade.dfy): the register contents after each fade step, after a fade and after a
  main-loop pass, with their lemmas.
- `Rainbow` (rainbow.dfy): class `Board`, which holds the compare registers (an
  `array<u16>` of four), the two interrupt flags, the handler's flag and the red pin level.
  Its methods update this state in place: the state after initialisation, the timer
  raising its flags, the interrupt handler, `set_pwm_duty`, `fade` and a bounded `main`.
  Each method's postcondition states the whole new state. The timer's events, the
  handler, `fade` and the main loop state it through the pure functions of `SoftwarePwm`
  and `Fade` (`TickIrq`, `Step`, `FadeAt`, `Cycle`).

The pin is a boolean level: `pinHigh` means set (red off) and low means reset (red on),
because the LED is active-low. The counter value is a parameter of the handler. In the
source it is a register read.

Two points of the source's own text that the model makes precise:

- The start-up pin level contradicts the handler's convention. `init_pwm` resets the red pin
  with the comment "switch off led" (src/main.c:41), while `equalizer` starts at 0
  (src/main.c:82). The handler itself treats a reset as "red on" (src/main.c:89) and a set
  as "red off" (src/main.c:96). So until the flag first flips, the pin shows red lit while
  the flag says red is off. If red's duty stayed 0 this would last for the whole period
  (`SoftwarePwm.StartupAgreement`). `main` writes red = 1000 in the first fade step, and the
  next wrap heals the disagreement. Agreement is therefore proved as a property that holds
  once the flag has flipped (`SoftwarePwm.AgreesAfterFlip`, `SoftwarePwm.TickRunAgrees`),
  not as an invariant from start-up.
- The main loop (src/main.c:123-127) does not bring the registers back to where `main`
  started. The first pass starts from the all-zero compare values that `init_pwm` leaves
  (src/main.c:24) and ends with red = MAX_DUTY. Every pass ends with red fully on and green
  and blue off, whatever came before (`Fade.Cycle`), so only the later passes return every
  register to its value before the pass (`Fade.CycleClosure`).

## Model

| member | source | states |
|---|---|---|
| `Config.Channel` | src/main.c:6-10 | red maps to compare channel 3 and the other colours to channels 1..2; the body gives green 1, blue 2 |
| `Config.ChannelInjective` | src/main.c:6-10 | distinct colours use distinct compare registers |
| `HardwarePwm.Asserted` | src/main.c:102-106 | the PWM0 rule, asserted while count < duty: for every counter value 0..999, duty 0 is off and duty >= MAX_DUTY is on |
| `HardwarePwm.HighTicks` | src/main.c:103-104 | a count of asserted ticks is at most the number of ticks; it is 0 exactly when no tick is asserted and full exactly when every tick is |
| `HardwarePwm.HighTicksOfWaveform` | src/main.c:22-27 | under the PWM0 rule, over counter values 0 .. n-1 a channel with duty d is asserted for min(d, n) ticks |
| `HardwarePwm.PeriodHighTicks` | src/main.c:102-106 | over one 1000-tick period the asserted ticks are min(duty, MAX_DUTY); duty 0 is never asserted and duty >= MAX_DUTY is always asserted |
| `SoftwarePwm.OnUpdate` | src/main.c:85-91 | the update branch flips the flag exactly when red is off and count < limit; a flip switches red on with the pin reset; otherwise nothing changes |
| `SoftwarePwm.OnCompare` | src/main.c:92-98 | the compare branch flips the flag exactly when red is on and count >= limit; a flip switches red off with the pin set; otherwise nothing changes |
| `SoftwarePwm.Step` | src/main.c:81-99 | one invocation, with count and limit read once, flips the flag at most once: the compare branch never undoes the update branch's switch-on. The pin changes only with a flip and agrees with the flag after it. The flag goes on iff the update event is pending with count < limit, and off iff the compare event is pending with count >= limit |
| `SoftwarePwm.Run` | src/main.c:81-99 | the handler serving a sequence of interrupts with a fixed compare value; any change of state leaves pin and flag agreeing |
| `SoftwarePwm.ZeroDutyNeverOn` | src/main.c:85-98 | with compare value 0, no sequence of interrupts switches red on, and the state stays as it was |
| `SoftwarePwm.FullDutyNeverOff` | src/main.c:92-98 | with compare value >= MAX_DUTY and counts in 0..999, no sequence of interrupts switches red off once it is on |
| `SoftwarePwm.RunPreservesAgreement` | src/main.c:87-97 | if pin and flag agree, they agree after any sequence of interrupts |
| `SoftwarePwm.AgreesAfterFlip` | src/main.c:87-97 | once any interrupt in a sequence has flipped the flag, pin and flag agree at the end, whatever the starting state |
| `SoftwarePwm.NoFlipNoChange` | src/main.c:85-98 | if no interrupt in a sequence flips the flag, the red channel's state (pin included) is unchanged |
| `SoftwarePwm.TickIrq` | src/main.c:46-72 | the events TIMER1 raises at counter value t: within a period the update event comes only at the wrap to 0; a compare value >= MAX_DUTY never raises the compare event; with compare value 0 both events are pending together |
| `SoftwarePwm.TickRun` | src/main.c:81-99 | the handler serving ticks 0..t-1 of one period; any change of state leaves pin and flag agreeing |
| `SoftwarePwm.TickRunTracksHardware` | src/main.c:81-99 | with the update event at the wrap and the compare event at count == limit, after tick t-1 of a period the flag equals the PWM0 level count < limit, from any state at the wrap |
| `SoftwarePwm.SoftwareMatchesHardware` | src/main.c:81-99 | over one period the handler's flag reproduces the hardware waveform for the same compare value, from any state at the wrap, so the flag is on for min(duty, MAX_DUTY) ticks |
| `SoftwarePwm.PinMatchesHardware` | src/main.c:81-99 | when pin and flag agree at the wrap, or the first tick flips the flag, the red pin itself (reset = lit) follows the hardware waveform over one period, so red is lit for min(duty, MAX_DUTY) ticks |
| `SoftwarePwm.TickRunAgrees` | src/main.c:87-97 | pin and flag agree after every tick of a period if they agreed at the wrap or if the first tick flips the flag |
| `SoftwarePwm.StartupAgreement` | src/main.c:39-41 | the start-up state (flag 0, pin reset) disagrees; with red's duty 0 it stays so for the whole period, and with any positive duty pin and flag agree from the first tick on |
| `Fade.FadeAt` | src/main.c:109-116 | after step i of fade(from, to) the target's duty is i and the source's is MAX_DUTY - i, so the two sum to MAX_DUTY; the other registers are untouched |
| `Fade.FadeMonotone` | src/main.c:111-113 | across a fade the source duty strictly decreases and the target duty strictly increases from step to step |
| `Fade.FadeEndState` | src/main.c:109-116 | when a fade returns its source is 0 and its target MAX_DUTY, and the third colour and CH0 are unchanged |
| `Fade.Cycle` | src/main.c:124-126 | a pass Red to Blue, Blue to Green, Green to Red ends with red = MAX_DUTY and green = blue = 0, whatever the starting duties; CH0 is unchanged |
| `Fade.CycleClosure` | src/main.c:123-127 | a second pass returns every register to the value it held before that pass |
| `Rainbow.Board.constructor` | src/main.c:30-77 | initialisation leaves every compare value 0, no interrupt pending, the handler's flag 0 and the red pin reset |
| `Rainbow.Board.CounterTick` | src/main.c:46-72 | the timer raises the update flag when the counter wraps to 0 and the channel 3 flag when the counter equals the red compare value, and touches nothing else |
| `Rainbow.Board.Timer1IrqHandler` | src/main.c:81-99 | both flags cleared; the red state becomes Step of the old state, the old pending flags, the counter and the red compare value; the compare registers are unchanged |
| `Rainbow.Board.SetPwmDuty` | src/main.c:102-106 | exactly the named compare register gets the duty; nothing else changes |
| `Rainbow.Board.Fade` | src/main.c:109-116 | performs MAX_DUTY + 1 steps, and the registers after step i are FadeAt(start, from, to, i); on return they are FadeEnd(start, from, to) |
| `Rainbow.Board.MainLoop` | src/main.c:123-127 | after one or more passes the registers are Cycle of the starting ones, with red = MAX_DUTY and green = blue = 0; zero passes change nothing |
| `Rainbow.ServePeriod` | src/main.c:46-99 | the timer raising its events at each counter value 0..999 with the handler serving each tick: the flags end clear, the registers are unchanged, the red state is TickRun of the old one, and the handler's flag after each tick follows the hardware PWM0 waveform for red's compare value |
| `Rainbow.RunMain` | src/main.c:119-128 | start-up followed by one or more passes leaves the registers at CH3 (red) = MAX_DUTY and all the others 0, with the red channel's state untouched by the main thread |

## Left out

- Serial banner (`init_usart0`, `_put_char`, lib/usart/usart.h): output through a vendor library, with no effect on the PWM state.
- Clock, GPIO mode and timer register configuration in `init_pwm` / `init_pwm_channel`: vendor setup. The model keeps only what they imply: a period of MAX_DUTY ticks, the PWM0 rule, all compare values 0, no pending interrupts, the red pin reset.
- `delay_1us` and the 5 ms step delay of `fade`: timing is not modelled. A fade is its MAX_DUTY + 1 steps.
- Preemption of the main loop by the interrupt handler: each handler call is one atomic step on the shared state, and each duty write is one indivisible register update. Between the two writes of a fade step the handler may see the old target duty; the model does not interleave them.
- Interrupt latency: `TickRun`, `CounterTick` and `ServePeriod` take the handler to run within the tick that raised the event. The transition lemmas (`Step`, `Run` and the lemmas about them) allow any counter value, so they cover late delivery.
- The endless `while(1)` of `main`: modelled as a given number of passes.
- The electrical behaviour and inverted polarity of the LED: the pin is a boolean level.
- `Rainbow.Board.SetPwmDuty`: the vendor routine `timer_channel_output_pulse_value_config` is not part of this model. The model takes it to write CHxCV for channels 0..3 and to ignore other channel numbers.
- The hardware channels' output pins are not state in `Board`. Their level at each counter value is the pure rule `HardwarePwm.Asserted` over the compare registers.
