/** The CHIP-8 processor state of `src/cpu.rs`: memory, registers, call
    stack, timers, index register, program counter and the processor's own
    byte display array, with the instruction fetch and the timer epilogue of
    one emulation cycle. */
module Cpu {
  import opened Bytes

  /** Address at which programs are loaded and execution starts. */
  const PROGRAM_START: u16 := 0x200

  const MEMORY_SIZE: nat := 4096
  const REGISTER_COUNT: nat := 16
  const STACK_SIZE: nat := 16
  const DISPLAY_SIZE: nat := 64 * 32

  /** One step of a countdown timer: a running timer goes down by one and a
      stopped timer stays at zero; it never wraps round to 255. */
  function Tick(t: u8): (r: u8)
    ensures r <= t
    ensures t > 0 ==> r as int == t as int - 1
  {
    if t > 0 then t - 1 else t
  }

  /** The value of a timer after `n` epilogues. */
  function Ticks(t: u8, n: nat): u8
  {
    if n == 0 then t else Ticks(Tick(t), n - 1)
  }

  /** After `n` cycles a timer started at `t` reads `t - n`, floored at zero. */
  lemma {:induction false} TicksFloor(t: u8, n: nat)
    ensures Ticks(t, n) as int == if n <= t as int then t as int - n else 0
  {
    if n > 0 {
      TicksFloor(Tick(t), n - 1);
    }
  }

  /** Counting down from `t`, the sound timer reads 1 right after cycle
      `n + 1` exactly when `t == n + 2`: the beep observation fires on one
      cycle only, and never for a timer started below 2. */
  lemma BeepsOnce(t: u8, n: nat)
    ensures Ticks(t, n + 1) == 1 <==> t as int == n + 2
  {
    TicksFloor(t, n + 1);
  }

  class Cpu {
    var memory: array<u8>
    var registers: array<u8>
    var stack: array<u16>
    /** `stack_pointers` in the source. */
    var stackPointer: u8
    var delayTimer: u8
    var soundTimer: u8
    var indexRegister: u16
    var programCounter: u16
    /** The processor's own `[u8; 64 * 32]` display array; it is not
        connected to the `Display` framebuffer. */
    var display: array<u8>

    /** The fixed sizes of the source's arrays. */
    ghost predicate Valid()
      reads this
    {
      && memory.Length == MEMORY_SIZE
      && registers.Length == REGISTER_COUNT
      && stack.Length == STACK_SIZE
      && display.Length == DISPLAY_SIZE
    }

    /** `Cpu::new`: everything zero except the program counter, which
        starts at `PROGRAM_START`. */
    constructor ()
      ensures Valid()
      ensures fresh(memory) && fresh(registers) && fresh(stack) && fresh(display)
      ensures forall a | 0 <= a < memory.Length :: memory[a] == 0
      ensures forall r | 0 <= r < registers.Length :: registers[r] == 0
      ensures forall s | 0 <= s < stack.Length :: stack[s] == 0
      ensures forall p | 0 <= p < display.Length :: display[p] == 0
      ensures stackPointer == 0 && delayTimer == 0 && soundTimer == 0
      ensures indexRegister == 0
      ensures programCounter == PROGRAM_START
    {
      memory := new u8[MEMORY_SIZE](_ => 0);
      registers := new u8[REGISTER_COUNT](_ => 0);
      stack := new u16[STACK_SIZE](_ => 0);
      stackPointer := 0;
      delayTimer := 0;
      soundTimer := 0;
      indexRegister := 0;
      programCounter := PROGRAM_START;
      display := new u8[DISPLAY_SIZE](_ => 0);
    }

    /** `read_opcode`: the 16-bit word at the program counter, high byte
        first. Both bytes must lie in memory (the source panics otherwise);
        being a function of `&self`, it changes nothing. */
    function ReadOpcode(): (opcode: u16)
      reads this, memory
      requires programCounter as int + 1 < memory.Length
      ensures HighByte(opcode) == memory[programCounter]
      ensures LowByte(opcode) == memory[programCounter as int + 1]
    {
      Word(memory[programCounter], memory[programCounter as int + 1])
    }

    /** `emulate_cycle`: fetch the instruction word, then run the timer
        epilogue. The execute step between them is not part of this model,
        so the fetched word is handed back to the caller. `beep` is the
        condition under which the source sounds its beep. */
    method EmulateCycle() returns (opcode: u16, beep: bool)
      requires programCounter as int + 1 < memory.Length
      modifies this`delayTimer, this`soundTimer
      ensures HighByte(opcode) == memory[programCounter]
      ensures LowByte(opcode) == memory[programCounter as int + 1]
      ensures delayTimer == Tick(old(delayTimer))
      ensures soundTimer == Tick(old(soundTimer))
      ensures beep <==> soundTimer == 1
      ensures programCounter == old(programCounter)
      ensures indexRegister == old(indexRegister)
      ensures stackPointer == old(stackPointer)
      ensures memory[..] == old(memory[..]) && registers[..] == old(registers[..])
      ensures stack[..] == old(stack[..]) && display[..] == old(display[..])
    {
      opcode := ReadOpcode();
      if delayTimer > 0 {
        delayTimer := delayTimer - 1;
      }
      if soundTimer > 0 {
        soundTimer := soundTimer - 1;
      }
      beep := soundTimer == 1;
    }
  }
}
