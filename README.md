# A CHIP-8 interpreter, modelled in Dafny

This project models the core of a small CHIP-8 interpreter written in Rust.
It follows the code as written, quirks included, and proves what that code
guarantees.

- **The decoder.** `OpCode::execute_opcode` cuts a 16-bit word into its
  fields and dispatches to one of 35 handlers (module `OpCode`). It is a
  pure function from a word to the handlers the word invokes, or `None` for
  the unknown-opcode panic. The result is a sequence, because 00E0 and 00EE
  each invoke their own handler and then the group-0 handler op1. `Encode`
  gives each handler its conventional word, so decoding can be checked
  against it.
- **The machine.** The `Chip8` struct of `src/chip8.rs` appears twice.
  - Module `Chip8Spec` holds it as a value `State`. Each handler, the
    fetch, the pc logic, the timers, one pass of the `run` loop and the
    copy loop of `read` are functions on that value.
  - Module `Interpreter` holds it as a class. `ram` and `v` are arrays,
    the `Vec` stack is a sequence, and methods change the fields in
    place, as the `&mut self` methods do. Every method is proved to leave
    the fields (`Abs()`) equal to what the `Chip8Spec` function its
    contract names computes from the old fields. That function has the
    method's name, except for the constructor, proved against `New`, and
    three methods: `GetOpcode` is proved against
    `Fetch` and changes nothing, `ExecuteCurrentOperation` against `Fetch`
    followed by `ExecuteOpcode`, and `AdvanceAndCountdown` against
    `EndTick` without its flush. A method that can panic returns the fault
    instead.
  - Module `Chip8Properties` states what the handlers, a tick and whole runs
    guarantee, as lemmas about the `Chip8Spec` functions.
- **Arithmetic.** A u8 is a `Byte`, an integer in 0..255. `+=`, `-=` and
  `-` on a u8 panic when the result leaves 0..255, as in a debug build.
  Every panic is a `Fault`. `&`, `|` and `^` are defined bit by bit
  (module `Bits`).
- **The world a tick sees.** Each tick takes an `Env` parameter: the random
  byte of CXNN, the key state of EX9E and EXA1, the key FX0A receives and
  the address FX29 receives. The graphic engine is a log of the calls made
  on it: init, clear, draw with its bytes, and flush.
- **The earlier machine.** The struct of `src/main.rs`, with its
  constructor and timer step, is module `EarlyChip8`.
- **The screen grid.** `get_square_vertices_and_indexes_from_screen` of the
  Vulkano display builds a grid of vertices and two triangles per pixel
  (module `Tessellation`). It is a method with the source's nested loops,
  proved against a row-by-row specification, with lemmas for the counts,
  the layout and the index bounds.

In several places the code departs from conventional CHIP-8 and from the
program's design documentation. The model follows the code:

- 7XNN and 8XY4 add modulo 255.
- 8XYE sets VF to 0x80 rather than 1.
- FX55 and FX65 copy V0 to V(X-1) only. The doc comments on `op34` and
  `op35` say "including VX".
- 5XYN and 9XYN accept any low nibble.
- The stack starts with 16 zero entries.
- 00E0 and 00EE also run op1, which switches the machine off.
- CXNN takes its random byte from 0..254.

## Model

The `Chip8Spec` functions are the reference the class is proved against.
Each `Interpreter.Chip8.X` row below also stands for `Chip8Spec.X` at the
same source lines. `Chip8Spec.Fetch` stands with `GetOpcode`, and
`Chip8Spec.EndTick` with `AdvanceAndCountdown`. `Chip8Spec.New` stands with
the constructor, and `Chip8Spec.ApplyAll` with `ExecuteOpcode`, and `Chip8Spec.RunTicks` with `Run`. What these
functions guarantee is stated by the `Chip8Properties` lemmas.

| member | source | states |
|---|---|---|
| Bits.Bitwise | src/chip8.rs:198-206 | `&`, `\|` and `^` on the low `n` bits give a result below 2^n, so on bytes they give a byte |
| Bits.AndBounded | src/chip8.rs:255 | a mask is at most either operand, so `nn & r` is at most `nn` and at most `r` |
| Bits.AndZero | src/chip8.rs:202 | masking with 0 gives 0 |
| Bits.AndOne | src/chip8.rs:226 | `a & 0b1` is the low bit of `a` |
| Bits.AndTopBit | src/chip8.rs:239 | `a & 0b1000_0000` is 0x80 when the top bit is set and 0 otherwise |
| OpCode.Decode | src/chip8/opcode.rs:2-61 | a word is accepted exactly when the dispatch on its fields finds a handler; it then invokes one or two handlers, the last of them the dispatched one |
| OpCode.NibblesRecombine | src/chip8/opcode.rs:3-7 | the top nibble and the X, Y and N fields make up the whole word |
| OpCode.LowByteRecombines | src/chip8/opcode.rs:3-8 | the top nibble, X and NN make up the whole word |
| OpCode.AddressRecombines | src/chip8/opcode.rs:3-9 | NNN is the low 12 bits: with the top nibble it makes up the word |
| OpCode.PackFields | src/chip8/opcode.rs:3-7 | the masks and shifts recover each nibble a word was built from |
| OpCode.PackByteFields | src/chip8/opcode.rs:3-8 | the masks recover the top nibble, X and NN a word was built from |
| OpCode.PackAddrFields | src/chip8/opcode.rs:3-9 | the masks recover the top nibble and NNN a word was built from |
| OpCode.DispatchEncodeAddr | src/chip8/opcode.rs:19-40 | 1NNN, 2NNN, ANNN and BNNN dispatch to their handler with the same NNN |
| OpCode.DispatchEncodeByte | src/chip8/opcode.rs:21-41 | 3XNN, 4XNN, 6XNN, 7XNN and CXNN dispatch to their handler with the same X and NN |
| OpCode.DispatchEncodeRegs | src/chip8/opcode.rs:23-42 | 5XY0, 9XY0 and DXYN dispatch to their handler with the same fields |
| OpCode.DispatchPack8 | src/chip8/opcode.rs:26 | group 8 dispatches on the low nibble |
| OpCode.DispatchPackF | src/chip8/opcode.rs:48 | group F dispatches on the low byte |
| OpCode.DispatchEncodeLogic | src/chip8/opcode.rs:27-30 | 8XY0 to 8XY3 dispatch to copy, or, and and xor |
| OpCode.DispatchEncodeArith | src/chip8/opcode.rs:31-34 | 8XY4, 8XY5 and 8XY7 dispatch to add, sub and reversed sub |
| OpCode.DispatchEncodeShift | src/chip8/opcode.rs:33-35 | 8XY6 and 8XYE dispatch to the shifts |
| OpCode.DispatchEncodeE | src/chip8/opcode.rs:43-47 | EX9E and EXA1 dispatch to the key skips |
| OpCode.DispatchEncodeInputs | src/chip8/opcode.rs:49-50 | FX07 and FX0A dispatch to their handler |
| OpCode.DispatchEncodeTimers | src/chip8/opcode.rs:51-53 | FX15, FX18 and FX1E dispatch to their handler |
| OpCode.DispatchEncodeMemory | src/chip8/opcode.rs:54-55 | FX29 and FX33 dispatch to their handler |
| OpCode.DispatchEncodeBlock | src/chip8/opcode.rs:56-57 | FX55 and FX65 dispatch to their handler |
| OpCode.DecodeSingle | src/chip8/opcode.rs:11-61 | a word whose dispatch is not op1 invokes that handler alone |
| OpCode.DecodeEncodeSingle | src/chip8/opcode.rs:19-59 | the conventional word of any handler outside group 0 decodes to exactly that handler |
| OpCode.DecodeEncode | src/chip8/opcode.rs:11-61 | decoding inverts encoding, except that 00E0 and 00EE decode to their handler followed by op1 |
| OpCode.GroupZeroEndsInSys | src/chip8/opcode.rs:11-18 | every group-0 word invokes op1 exactly once and last: 00E0 gives clear then op1, 00EE gives return then op1, any other gives op1 alone |
| OpCode.OnlyTwoSpecialWords | src/chip8/opcode.rs:11-16 | a word invokes two handlers if and only if it is 00E0 or 00EE |
| OpCode.SkipRegsIgnoreLowNibble | src/chip8/opcode.rs:23-38 | 5XYN and 9XYN decode to the 5XY0 and 9XY0 skips whatever N is, the same as the word with N cleared |
| OpCode.Group8Accepts | src/chip8/opcode.rs:26-37 | a group-8 word is accepted if and only if its low nibble is 0 to 7 or E |
| OpCode.GroupEAccepts | src/chip8/opcode.rs:43-47 | a group-E word is accepted if and only if its low byte is 9E or A1 |
| OpCode.GroupFAccepts | src/chip8/opcode.rs:48-59 | a group-F word is accepted if and only if its low byte is 07, 0A, 15, 18, 1E, 29, 33, 55 or 65 |
| OpCode.UnknownOnlyInGroups8EF | src/chip8/opcode.rs:17-61 | the unknown-opcode panic is reachable only in groups 8, E and F; the final `_` arm never fires |
| OpCode.Dispatch8Plain | src/chip8/opcode.rs:26-37 | no group-8 handler is a group-0 handler |
| OpCode.DispatchEPlain | src/chip8/opcode.rs:43-47 | no group-E handler is a group-0 handler |
| OpCode.DispatchFPlain | src/chip8/opcode.rs:48-59 | no group-F handler is a group-0 handler |
| OpCode.DirectDispatchPlain | src/chip8/opcode.rs:19-42 | groups 1-7 and 9-D always dispatch, and never to a group-0 handler |
| OpCode.DispatchOutsideGroupZero | src/chip8/opcode.rs:19-59 | no handler outside group 0 is op1, op2 or op3 |
| OpCode.DecodeOutsideGroupZero | src/chip8/opcode.rs:17-61 | outside group 0 an accepted word invokes exactly one handler, and it is none of op1, op2 and op3 |
| Chip8Spec.Sub | src/chip8.rs:216-224 | 8XY5 changes only registers, and its only panic is the u8 overflow |
| Chip8Spec.ShiftRight | src/chip8.rs:225-228 | 8XY6 changes only registers |
| Chip8Spec.SubReversed | src/chip8.rs:229-237 | 8XY7 changes only registers, and its only panic is the u8 underflow |
| Interpreter.Chip8.constructor | src/chip8.rs:38-54 | `new` gives exactly the `Chip8Spec.New` state: fresh memory and registers |
| Interpreter.Chip8.TimerCountdown | src/chip8.rs:56-63 | each timer takes one countdown step; nothing else changes |
| Interpreter.Chip8.GetOpcode | src/chip8.rs:65-67 | returns the word `ram[pc] * 256 + ram[pc + 1]`, or the index panic when `pc + 1` is past the memory; changes nothing |
| Interpreter.Chip8.SkipNextInstruction | src/chip8.rs:69-71 | `pc` goes up by 2; nothing else changes |
| Interpreter.Chip8.NextOperation | src/chip8.rs:85-91 | a blocked `pc` is unblocked and stays; an unblocked one goes up by 2 |
| Interpreter.Chip8.BlockPc | src/chip8.rs:93-95 | sets the block flag; nothing else changes |
| Interpreter.Chip8.Sys | src/chip8.rs:151-154 | op1 switches the machine off and changes nothing else |
| Interpreter.Chip8.Clear | src/chip8.rs:155-157 | op2 logs a clear on the engine and changes nothing else |
| Interpreter.Chip8.Return | src/chip8.rs:158-164 | op3 pops the last stack entry into `pc` without blocking it; on an empty stack it panics |
| Interpreter.Chip8.Jump | src/chip8.rs:165-168 | op4 sets `pc` to NNN and blocks it |
| Interpreter.Chip8.Call | src/chip8.rs:169-172 | op5 pushes the current `pc`, then jumps to NNN |
| Interpreter.Chip8.SkipIfEqual | src/chip8.rs:173-177 | op6 skips when VX equals NN |
| Interpreter.Chip8.SkipIfNotEqual | src/chip8.rs:178-182 | op7 skips when VX differs from NN |
| Interpreter.Chip8.SkipIfRegsEqual | src/chip8.rs:183-187 | op8 skips when VX equals VY |
| Interpreter.Chip8.SetImmediate | src/chip8.rs:188-190 | op9 sets VX to NN |
| Interpreter.Chip8.AddImmediate | src/chip8.rs:191-194 | op10 sets VX to (VX + NN) % 0xFF |
| Interpreter.Chip8.Copy | src/chip8.rs:195-197 | op11 copies VY to VX |
| Interpreter.Chip8.Or | src/chip8.rs:198-200 | op12 ORs VY into VX |
| Interpreter.Chip8.And | src/chip8.rs:201-203 | op13 ANDs VY into VX |
| Interpreter.Chip8.Xor | src/chip8.rs:204-206 | op14 XORs VY into VX |
| Interpreter.Chip8.Add | src/chip8.rs:207-215 | op15 writes the carry to VF, then VX = (VX + VY) % 0xFF on the registers after that write |
| Interpreter.Chip8.Sub | src/chip8.rs:216-224 | op16 writes VF first, then adds 0xFF - VY or subtracts VY, panicking when the u8 result leaves 0..255 |
| Interpreter.Chip8.ShiftRight | src/chip8.rs:225-228 | op17 writes VX & 1 to VF, then halves VX |
| Interpreter.Chip8.SubReversed | src/chip8.rs:229-237 | op18 writes VF first, then VX = VY - VX, panicking on underflow |
| Interpreter.Chip8.ShiftLeft | src/chip8.rs:238-241 | op19 writes VX & 0x80 to VF, then doubles VX modulo 256 |
| Interpreter.Chip8.SkipIfRegsNotEqual | src/chip8.rs:242-246 | op20 skips when VX differs from VY |
| Interpreter.Chip8.SetIndex | src/chip8.rs:247-249 | op21 sets I to NNN |
| Interpreter.Chip8.JumpOffset | src/chip8.rs:250-253 | op22 sets `pc` to NNN + V0 and blocks it |
| Interpreter.Chip8.Random | src/chip8.rs:254-256 | op23 sets VX to NN & r, with r the random byte |
| Interpreter.Chip8.Draw | src/chip8.rs:257-263 | op24 logs a draw of VX, VY and `ram[I .. I + N + 1]`, or panics when that slice leaves the memory |
| Interpreter.Chip8.SkipIfKey | src/chip8.rs:264-268 | op25 skips when the key VX is pressed |
| Interpreter.Chip8.SkipIfNotKey | src/chip8.rs:269-273 | op26 skips when the key VX is not pressed |
| Interpreter.Chip8.GetDelay | src/chip8.rs:274-276 | op27 copies the delay timer to VX |
| Interpreter.Chip8.WaitKey | src/chip8.rs:277-279 | op28 stores the reported key in VX |
| Interpreter.Chip8.SetDelay | src/chip8.rs:280-282 | op29 sets the delay timer to VX |
| Interpreter.Chip8.SetSound | src/chip8.rs:283-285 | op30 sets the sound timer to VX |
| Interpreter.Chip8.AddToIndex | src/chip8.rs:286-288 | op31 adds VX to I and leaves every register, VF included, alone |
| Interpreter.Chip8.SpriteAddress | src/chip8.rs:289-291 | op32 sets I to the reported sprite address of VX |
| Interpreter.Chip8.StoreBcd | src/chip8.rs:292-296 | op33 writes VX / 100, (VX / 10) % 10 and VX % 10 at I, I + 1 and I + 2; a write past the memory panics |
| Interpreter.Chip8.StoreRegisters | src/chip8.rs:297-301 | op34's loop writes V0 .. V(X-1) from I onwards; a write past the memory panics |
| Interpreter.Chip8.LoadRegisters | src/chip8.rs:302-306 | op35's loop loads V0 .. V(X-1) from I onwards; a read past the memory panics |
| Interpreter.Chip8.ApplyGroup0 | src/chip8/opcode.rs:11-18 | the calls of op1, op2 and op3 act as `Chip8Spec.ApplyGroup0` |
| Interpreter.Chip8.ApplyJumps | src/chip8/opcode.rs:19-40 | the calls of op4, op5 and op22 act as `Chip8Spec.ApplyJumps` |
| Interpreter.Chip8.ApplyValueSkips | src/chip8/opcode.rs:21-23 | the calls of op6, op7 and op8 act as `Chip8Spec.ApplyValueSkips` |
| Interpreter.Chip8.ApplyOtherSkips | src/chip8/opcode.rs:38-45 | the calls of op20, op25 and op26 act as `Chip8Spec.ApplyOtherSkips` |
| Interpreter.Chip8.ApplyLoads | src/chip8/opcode.rs:24-41 | the calls of op9, op10, op11 and op23 act as `Chip8Spec.ApplyLoads` |
| Interpreter.Chip8.ApplyLogic | src/chip8/opcode.rs:28-30 | the calls of op12, op13 and op14 act as `Chip8Spec.ApplyLogic` |
| Interpreter.Chip8.ApplyAddAndShiftLeft | src/chip8/opcode.rs:31-35 | the calls of op15 and op19 act as `Chip8Spec.ApplyAddAndShiftLeft` |
| Interpreter.Chip8.ApplySubAndShiftRight | src/chip8/opcode.rs:32-34 | the calls of op16, op17 and op18 act as `Chip8Spec.ApplySubAndShiftRight` |
| Interpreter.Chip8.ApplyIndex | src/chip8/opcode.rs:39-54 | the calls of op21, op31 and op32 act as `Chip8Spec.ApplyIndex` |
| Interpreter.Chip8.ApplyTimers | src/chip8/opcode.rs:49-52 | the calls of op27 to op30 act as `Chip8Spec.ApplyTimers` |
| Interpreter.Chip8.ApplyMemory | src/chip8/opcode.rs:42-57 | the calls of op24, op33, op34 and op35 act as `Chip8Spec.ApplyMemory` |
| Interpreter.Chip8.Apply | src/chip8/opcode.rs:17-61 | one handler call of `execute_opcode` acts as `Chip8Spec.Apply`, or returns its panic |
| Interpreter.Chip8.ExecuteOpcode | src/chip8/opcode.rs:2-61 | decodes the word and runs its handlers in order, stopping at the first panic; an unknown word panics |
| Interpreter.Chip8.ExecuteCurrentOperation | src/chip8.rs:97-101 | fetches the word at `pc` and executes it; a fetch past the memory panics |
| Interpreter.Chip8.Tick | src/chip8.rs:108-125 | one pass of the `run` loop acts as `Chip8Spec.Tick`: when on, save `pc`, execute, advance, halt on an unmoved `pc`, count the timers down; in every case flush |
| Interpreter.Chip8.AdvanceAndCountdown | src/chip8.rs:112-120 | after an opcode ran: advance `pc`, switch off when it is back at `old_pc`, count the timers down; with the flush this is `Chip8Spec.EndTick` |
| Interpreter.Chip8.Run | src/chip8.rs:103-129 | the `run` loop, one pass per element of `envs`, acts as `Chip8Spec.Run` and stops at the first panic |
| Interpreter.Chip8.Read | src/chip8.rs:131-147 | the copy loop puts the ROM at 0x200 onwards, or panics when it does not fit |
| Chip8Properties.NewState | src/chip8.rs:38-54 | `new` zeroes memory, registers, I and timers, sets `pc` to 0x200, is on and unblocked, and has 16 zeros on the stack |
| Chip8Properties.CountdownTimesValue | src/chip8.rs:56-63 | after k countdown steps a timer is t - k, stopping at 0 |
| Chip8Properties.AddImmediateModulo255 | src/chip8.rs:191-194 | 7XNN sets VX to (VX + NN) mod 255, so never to 0xFF; other registers are untouched |
| Chip8Properties.AddCarry | src/chip8.rs:207-215 | for X and Y other than F, 8XY4 sets VF to 1 if and only if VX + VY > 255, and VX to the sum modulo 255 |
| Chip8Properties.AddWithFlagOperand | src/chip8.rs:207-215 | when X or Y is F, the sum reads the freshly written carry, and for X = F the sum overwrites the carry |
| Chip8Properties.SubWithBorrow | src/chip8.rs:216-219 | 8XY5 with VX < VY gives VF = 0 and VX = VX + 255 - VY |
| Chip8Properties.SubWithoutBorrow | src/chip8.rs:220-223 | 8XY5 with VX >= VY gives VF = 1 and VX = VX - VY |
| Chip8Properties.SubBorrow | src/chip8.rs:216-224 | for X and Y other than F, 8XY5 never panics; it gives the flag and result of both branches, and other registers are untouched |
| Chip8Properties.SubFlagOverflows | src/chip8.rs:216-224 | 8XF5 subtracts the flag it has just written, not the old VF: it panics if and only if VX is non-zero and below the old VF, or both are 0 |
| Chip8Properties.ShiftRightHalves | src/chip8.rs:225-228 | 8XY6 gives VF = VX % 2 and VX = VX / 2 |
| Chip8Properties.SubReversedPanics | src/chip8.rs:229-237 | 8XY7 panics if and only if VX > VY; otherwise VF = 1 and VX = VY - VX |
| Chip8Properties.ShiftLeftFlag | src/chip8.rs:238-241 | 8XYE gives VF = 0x80 when the top bit is set and 0 otherwise, and VX = 2 VX mod 256 |
| Chip8Properties.ShiftOnFlagClearsIt | src/chip8.rs:225-241 | shifting VF itself leaves 0 in VF |
| Chip8Properties.RandomMasked | src/chip8.rs:254-256 | CXNN leaves VX at most NN and at most the random byte, so below 0xFF |
| Chip8Properties.StoreBcdDigits | src/chip8.rs:292-296 | FX33 succeeds if and only if I + 2 is in memory; the three digits are below 10 and recombine to VX; no other cell changes |
| Chip8Properties.StoreRegistersCopies | src/chip8.rs:297-301 | FX55 panics if and only if X > 0 and cell I + X - 1 is past the memory; otherwise cells I .. I + X - 1 get V0 .. V(X-1), cell I + X (VX's place) and every other cell are unchanged |
| Chip8Properties.LoadRegistersCopies | src/chip8.rs:302-306 | FX65 panics if and only if X > 0 and cell I + X - 1 is past the memory; otherwise V0 .. V(X-1) get the cells, and VX .. VF are unchanged |
| Chip8Properties.StoreThenLoad | src/chip8.rs:297-306 | FX65 right after FX55 at the same I changes nothing |
| Chip8Properties.LoadThenStore | src/chip8.rs:297-306 | FX55 right after FX65 at the same I changes nothing |
| Chip8Properties.DrawSprite | src/chip8.rs:257-263 | DXYN succeeds if and only if I + N is in memory, and then logs exactly the N + 1 bytes from I with VX and VY; no register changes |
| Chip8Properties.ReadPlacesRom | src/chip8.rs:139-144 | `read` succeeds if and only if the ROM fits above 0x200; byte k goes to 0x200 + k, and no other cell changes |
| Chip8Properties.EffectsOfGroup0 | src/chip8.rs:151-164 | op1, op2 and op3 keep `old_pc`; only op1 switches off; op1 and op2 always succeed, so they never panic and never shorten the stack |
| Chip8Properties.EffectsOfJumps | src/chip8.rs:165-172 | 1NNN, 2NNN and BNNN keep `old_pc` and the power state, never panic on the stack and never shorten it |
| Chip8Properties.EffectsOfValueSkips | src/chip8.rs:173-187 | 3XNN, 4XNN and 5XY0 keep `old_pc` and the power state, never panic on the stack and never shorten it |
| Chip8Properties.EffectsOfOtherSkips | src/chip8.rs:242-273 | 9XY0, EX9E and EXA1 keep `old_pc` and the power state, never panic on the stack and never shorten it |
| Chip8Properties.EffectsOfLoads | src/chip8.rs:188-256 | 6XNN, 7XNN, 8XY0 and CXNN keep `old_pc`, the power state, `pc`, the stack, the block flag and both timers |
| Chip8Properties.EffectsOfLogic | src/chip8.rs:198-206 | 8XY1 to 8XY3 keep `old_pc`, the power state, `pc`, the stack, the block flag and both timers |
| Chip8Properties.EffectsOfAddAndShiftLeft | src/chip8.rs:207-241 | 8XY4 and 8XYE keep `old_pc`, the power state, `pc`, the stack, the block flag and both timers |
| Chip8Properties.EffectsOfSubAndShiftRight | src/chip8.rs:216-237 | 8XY5 to 8XY7 never underflow the stack, and when they succeed keep `old_pc`, the power state, `pc`, the stack, the block flag and both timers |
| Chip8Properties.EffectsOfIndex | src/chip8.rs:247-291 | ANNN, FX1E and FX29 keep `old_pc`, the power state, `pc`, the stack, the block flag and both timers |
| Chip8Properties.EffectsOfTimers | src/chip8.rs:274-285 | FX07, FX0A, FX15 and FX18 keep `old_pc`, the power state, `pc`, the stack and the block flag, and touch only the timer they set |
| Chip8Properties.EffectsOfMemory | src/chip8.rs:257-306 | DXYN, FX33, FX55 and FX65 never underflow the stack, and when they succeed keep `old_pc`, the power state, `pc`, the stack, the block flag and both timers |
| Chip8Properties.ApplyEffects | src/chip8.rs:150-307 | every handler keeps `oldPc`; only op1 switches off; only op3 can underflow or shorten the stack; a sequential handler keeps `pc`, the stack, the block flag and the timers it does not write |
| Chip8Properties.ApplyFrame | src/chip8.rs:150-307 | no handler touches `old_pc`, and the machine goes off under a handler if and only if it is op1 |
| Chip8Properties.ApplyAllFrame | src/chip8/opcode.rs:11-61 | a word's handlers keep `old_pc`, and switch the machine off if and only if one of them is op1 |
| Chip8Properties.ApplySequential | src/chip8.rs:173-306 | a handler that neither jumps nor skips leaves `pc`, the stack, the block flag and every timer it does not set |
| Chip8Properties.TickWhenOff | src/chip8.rs:108-125 | when the machine is off a tick runs nothing and only flushes the engine |
| Chip8Properties.TickRunning | src/chip8.rs:108-118 | after a tick `pc` is never blocked, `old_pc` is the starting `pc`, and the machine is still on if and only if `pc` moved and the word was outside group 0 |
| Chip8Properties.TickOne | src/chip8.rs:108-125 | a tick whose word decodes to one handler runs it and then ends the tick |
| Chip8Properties.SequentialTick | src/chip8.rs:108-125 | an ordinary instruction ends at `pc + 2`, with the machine on, the stack unchanged and each timer counted down unless written |
| Chip8Properties.ApplySkips | src/chip8.rs:69-71 | a skip handler moves `pc` by 2 if and only if its condition holds, and changes nothing else |
| Chip8Properties.SkipTick | src/chip8.rs:108-125 | a tick of a skip never panics and ends at `pc + 4` when the condition holds and `pc + 2` otherwise |
| Chip8Properties.EndTickBlocked | src/chip8.rs:85-95 | after a blocking handler `pc` stays where it was put, the block is cleared, the machine halts if and only if `pc` is back at `old_pc`, and the timers still count down |
| Chip8Properties.ApplyJump | src/chip8.rs:165-168 | 1NNN sets `pc` to NNN and blocks it |
| Chip8Properties.ApplyCall | src/chip8.rs:169-172 | 2NNN pushes the call's own address, sets `pc` to NNN and blocks it |
| Chip8Properties.ApplyJumpOffset | src/chip8.rs:250-253 | BNNN sets `pc` to NNN + V0 and blocks it |
| Chip8Properties.JumpTick | src/chip8.rs:108-125 | a tick of 1NNN ends exactly at NNN, unblocked; a jump to itself halts, and the timers count down on that tick too |
| Chip8Properties.CallTick | src/chip8.rs:169-172 | a tick of 2NNN pushes the call's address and ends at NNN; a call to itself halts |
| Chip8Properties.JumpOffsetTick | src/chip8.rs:250-253 | a tick of BNNN ends exactly at NNN + V0, unblocked |
| Chip8Properties.ClearHalts | src/chip8/opcode.rs:11-18 | a tick of 00E0 logs a clear and a flush, moves to `pc + 2`, and switches the machine off |
| Chip8Properties.ReturnTick | src/chip8.rs:158-164 | a tick of 00EE pops the return address, resumes 2 past it, and switches the machine off |
| Chip8Properties.FetchReturn | src/chip8.rs:65-67 | the bytes 00 EE at `pc` fetch as the word 0x00EE |
| Chip8Properties.CallThenReturn | src/chip8.rs:158-172 | a call, then a 00EE at its target, resumes at the instruction after the call with the stack as before, and the machine is off |
| Chip8Properties.ReturnToCaller | src/chip8.rs:158-164 | from the state a call leaves, the 00EE tick lands on call + 2 with the caller's stack |
| Chip8Properties.ApplyStack | src/chip8.rs:158-172 | no handler but op3 underflows or shortens the stack |
| Chip8Properties.GroupZeroTickPops | src/chip8.rs:151-164 | with 16 or more stack entries a group-0 tick never underflows, and it leaves the machine off |
| Chip8Properties.PlainTickKeepsStack | src/chip8.rs:108-125 | a tick of a word outside group 0 never underflows and never shortens the stack |
| Chip8Properties.TickKeepsStackReady | src/chip8.rs:108-125 | a running machine keeps at least 16 stack entries across a tick, and never underflows |
| Chip8Properties.RunTicksKeepsStackReady | src/chip8.rs:108-128 | no run of ticks from such a state underflows the stack |
| Chip8Properties.RunNeverUnderflows | src/chip8.rs:38-54 | thanks to the 16 initial zeros, no ROM that `read` loads into a fresh machine ever pops an empty stack when run |
| Chip8Properties.RunTicksUnblocked | src/chip8.rs:85-95 | from an unblocked state, every run of ticks that does not panic ends with `pc` unblocked |
| Chip8Properties.RunEndsUnblocked | src/chip8.rs:103-147 | after `read` into a fresh machine and any number of ticks of `run`, `pc` is unblocked |
| Chip8Properties.HaltedStaysHalted | src/chip8.rs:108-125 | once off, every later tick only flushes; memory, registers, timers and `pc` never change |
| Chip8Properties.RunTicksStops | src/chip8.rs:108-128 | the first panic ends the run with that fault |
| EarlyChip8.Chip8.constructor | src/main.rs:17-27 | memory and registers are zero, I is 0, the stack holds 16 zeros, both timers are 0, and `pc` is 0x200 |
| EarlyChip8.Chip8.TimerCountdown | src/main.rs:29-36 | each timer takes one countdown step on its own; I, the stack and `pc` are unchanged |
| Tessellation.SquareVerticesAndIndexes | src/chip8/vulkano_interface.rs:441-486 | the two loop nests push exactly the grid's vertices, row by row, and its squares' indices, row by row |
| Tessellation.PushSquare | src/chip8/vulkano_interface.rs:474-481 | the six pushes for square (i, j) append that square's two triangles to the rows before it |
| Tessellation.RowVerticesLength | src/chip8/vulkano_interface.rs:461-469 | a row of the vertex loop pushes `width + 1` vertices |
| Tessellation.GridVerticesLength | src/chip8/vulkano_interface.rs:460-470 | the vertex buffer holds rows times `width + 1` vertices |
| Tessellation.RowVerticesAt | src/chip8/vulkano_interface.rs:461-469 | column c of a row is the grid point (c, y), not white |
| Tessellation.RowBefore | src/chip8/vulkano_interface.rs:460-470 | an entry of an earlier row comes before every entry of a later row |
| Tessellation.GridVerticesAt | src/chip8/vulkano_interface.rs:460-470 | vertex number `y * (width + 1) + x` is the grid point (x, y): the vertices are row-major |
| Tessellation.RowIndexesLength | src/chip8/vulkano_interface.rs:473-482 | a row of squares pushes six indices per square |
| Tessellation.GridIndexesLength | src/chip8/vulkano_interface.rs:472-483 | the index buffer holds `6 * width` indices per row of squares |
| Tessellation.RowIndexesAt | src/chip8/vulkano_interface.rs:473-482 | square i of a row fills entries `6 * i .. 6 * i + 6` of the row |
| Tessellation.GridIndexesRow | src/chip8/vulkano_interface.rs:472-483 | row j of squares fills the entries from `j * 6 * width` |
| Tessellation.GridIndexesAt | src/chip8/vulkano_interface.rs:472-482 | square (i, j) holds entries `6 * (j * width + i) ..+6`, namely k, k+1, k+W, k+1, k+W, k+W+1 with `k = i + j * W` and `W = width + 1` |
| Tessellation.RowIndexesBound | src/chip8/vulkano_interface.rs:473-482 | every index of row j names a vertex of rows 0 to j + 1 |
| Tessellation.GridIndexesBound | src/chip8/vulkano_interface.rs:472-483 | every index names one of the `(rows + 1) * (width + 1)` vertices |
| Tessellation.TessellateVertices | src/chip8/vulkano_interface.rs:460-470 | exactly `(height + 1) * (width + 1)` vertices, each a grid point within the screen with `is_white` 0 |
| Tessellation.TessellateIndexes | src/chip8/vulkano_interface.rs:472-483 | exactly `6 * width * height` indices, each below `(height + 1) * (width + 1)` |
| Tessellation.GridVerticesMembers | src/chip8/vulkano_interface.rs:460-470 | every vertex of the first rows is a grid point of those rows, not white |
| Tessellation.RowVerticesMembers | src/chip8/vulkano_interface.rs:461-469 | every vertex of a row lies in that row, left of `x`, not white |

## Left out

- **The display backends.** Vulkano, Piston and SDL, their windows, threads and shaders, are not modelled. The engine is a log of init, clear, draw and flush calls, and `is_running` becomes the length of the `envs` sequence given to `Run`. The collision flag that `draw_sprite` returns is dropped by the source, and VF is not written.
- **Timing.** The sleep and the 60 Hz to 5 Hz frequency switch in `run` are not modelled.
- **I/O.** `println!` is not modelled. The file reading and name printing of `read` are not modelled either: the ROM bytes are a parameter.
- **The `todo!()` helpers.** `is_key_pressed`, `get_pressed_key` and `get_sprite_address` are values of `Env`, not panics. In the source every EX9E, EXA1, FX0A or FX29 would panic.
- **Randomness.** The random byte of CXNN is a parameter in 0..254.
- **The trait's default op1.** Its panic is overridden by `Chip8`'s op1, which is the one modelled.
- **Integer widths.** `usize` and `u32` arithmetic is unbounded: `pc + 2`, `i + v[x]`, `nnn + v[0]` and the vertex numbers never wrap in the model. Out-of-range indices into the memory are still the index panic.
- Chip8Spec.Sub, Chip8Spec.SubReversed: model a debug build, where `+=`, `-=` and `-` on a u8 panic on overflow. A release build wraps modulo 256 instead: 8XY7 with VX > VY would store (VY - VX) mod 256, and the 8XF5 panics of SubFlagOverflows would become wrapped values. The release behaviour is not modelled.
- **After a panic.** The process aborts, so nothing is said of the fields once a method returns a fault.
- **`Chip8Spec.Apply`.** It is the `match` of `execute_opcode`, taken in eleven families of handlers. Each family has its own function, method and lemma, which keeps every proof small.
- **Vertex positions.** The float positions `x * step_width - 1` and `y * step_height - 1` are not modelled. A vertex is its grid point `(x, y)`, from which the position is computed.
- **The vertex loop's `for` ranges.** They are written as `while` loops with the same bounds.
- **The fetched word as bytes.** `Fetch` is `ram[pc] * 256 + ram[pc + 1]` as the source computes it. Its split back into bytes is not stated as a lemma.
- AddCarry: holds for X and Y other than F; AddWithFlagOperand covers the flag as an operand.
- SubBorrow: holds for X and Y other than F; SubFlagOverflows covers Y = F, and X = F is not stated.
- SubReversedPanics: holds for X and Y other than F; the flag as an operand is not stated.
- ShiftRightHalves: holds for X other than F; ShiftOnFlagClearsIt covers X = F.
- ShiftLeftFlag: holds for X other than F; ShiftOnFlagClearsIt covers X = F.
