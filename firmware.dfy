/**
 * main.c as imperative code: the globals it shares between the two
 * interrupt handlers and the main loop, the handlers, the two counter
 * accessors, and one step of the acquisition loop. Each method is proved to
 * do what the matching function of Acquisition says.
 */
module Firmware {
  import opened TickCounter
  import opened Acquisition

  class Mcu {
    /** `ticks_ms` */
    var ticksMs: U32
    /** `ticks_overflowed` */
    var ticksOverflowed: bool
    /** `recording_data` */
    var recordingData: bool
    /** The level last written to the user LED. */
    var userLed: bool
    /** Where the main loop stands. */
    var pc: Pc
    /** The lines printed so far. */
    var uart: seq<Emitted>
    /** SysTick interrupts since power-on, and the time each line was printed. */
    ghost var now: nat
    ghost var stamps: seq<nat>

    ghost function State(): Machine
      reads this
    {
      Machine(Counter(ticksMs, ticksOverflowed), recordingData, userLed, pc, uart, now, stamps)
    }

    /** The globals' initialisers; the LED starts low and the loop starts waiting. */
    constructor ()
      ensures State() == PowerOn
    {
      ticksMs, ticksOverflowed, recordingData := 0, false, false;
      userLed, pc, uart := false, Waiting, [];
      now, stamps := 0, [];
    }

    /** `systick_isr` */
    method SysTickIsr()
      modifies this
      ensures State() == OnTick(old(State()))
      ensures ticksMs == (old(ticksMs) + 1) % WRAP
      ensures ticksOverflowed <==> old(ticksOverflowed) || ticksMs == 0
    {
      ticksMs := (ticksMs + 1) % WRAP;
      if ticksMs == 0 {
        ticksOverflowed := true;
      }
      now := now + 1;
    }

    /** `get_ticks_ms` reads the counter and changes nothing. */
    method GetTicksMs() returns (t: U32)
      ensures t == ticksMs
    {
      t := ticksMs;
    }

    /** `reset_ticks_ms` */
    method ResetTicksMs()
      modifies this`ticksMs
      ensures State() == old(State()).(counter := Reset(old(State()).counter))
    {
      ticksMs := 0;
    }

    /** `gpio_interrupt_handler` */
    method GpioInterruptHandler()
      modifies this`recordingData
      ensures recordingData == !old(recordingData)
      ensures State() == OnEdge(old(State()))
    {
      recordingData := !recordingData;
    }

    method Print(e: Emitted)
      modifies this`uart, this`stamps
      ensures State() == Emit(old(State()), e)
    {
      uart := uart + [e];
      stamps := stamps + [now];
    }

    /**
     * One step of the `for(;;)` loop of `main`; `tdPin` and `pdPin` are what
     * `cyhal_gpio_read` returns for the two radar pins if they are read.
     */
    method LoopStep(tdPin: bool, pdPin: bool)
      modifies this
      ensures State() == Step(old(State()), tdPin, pdPin)
    {
      match pc
      case Waiting =>
        // leaves `while(recording_data == false)` once the flag is set
        if recordingData {
          Print(Sentinel);
          userLed := true;
          ResetTicksMs();
          pc := Sampling;
        }
      case Sampling =>
        if recordingData {
          var t := GetTicksMs();
          if t > SAMPLE_PERIOD {
            ResetTicksMs();
            var td := tdPin;
            var pd := pdPin;
            Print(Sample(td, pd));
          }
        } else {
          userLed := false;
          Print(Sentinel);
          pc := Stopping;
        }
      case Stopping =>
        recordingData := false;
        pc := Waiting;
    }
  }
}
