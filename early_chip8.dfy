/**
 * The earlier, smaller `Chip8` struct of `src/main.rs`: memory, registers,
 * the address register, a stack, two timers and the program counter, with
 * only a constructor and the timer step. Its binary builds one machine and
 * prints a greeting; the greeting is outside the model. Its timer step is
 * the one of the later machine, `Chip8Spec.Countdown` on each timer.
 */
module EarlyChip8 {
  import opened Bits
  import S = Chip8Spec

  const RAM_SIZE: nat := 4096
  const REGISTER_SIZE: nat := 16
  const STACK_SIZE: nat := 16
  const OFFSET_USABLE_MEM: nat := 0x200

  class Chip8 {
    const memory: array<Byte>
    const v: array<Byte>
    var i: nat
    var stack: seq<Byte>
    var delayTimer: Byte
    var soundTimer: Byte
    var pc: nat

    /** `Chip8::new`: everything zero, a stack of 16 zero entries, `pc` at 0x200. */
    constructor ()
      ensures fresh(memory) && fresh(v)
      ensures memory[..] == seq(RAM_SIZE, _ => 0)
      ensures v[..] == seq(REGISTER_SIZE, _ => 0)
      ensures i == 0
      ensures stack == seq(STACK_SIZE, _ => 0)
      ensures delayTimer == 0 && soundTimer == 0
      ensures pc == OFFSET_USABLE_MEM
    {
      memory := new Byte[RAM_SIZE](_ => 0);
      v := new Byte[REGISTER_SIZE](_ => 0);
      i := 0;
      stack := seq(STACK_SIZE, _ => 0);
      delayTimer := 0;
      soundTimer := 0;
      pc := OFFSET_USABLE_MEM;
    }

    /** `timer_countdown`: each timer takes one step on its own; nothing else changes. */
    method TimerCountdown()
      modifies this
      ensures delayTimer == S.Countdown(old(delayTimer))
      ensures soundTimer == S.Countdown(old(soundTimer))
      ensures i == old(i) && stack == old(stack) && pc == old(pc)
    {
      if delayTimer > 0 {
        delayTimer := delayTimer - 1;
      }
      if soundTimer > 0 {
        soundTimer := soundTimer - 1;
      }
    }
  }
}
