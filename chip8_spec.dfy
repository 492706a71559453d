/**
 * The meaning of the interpreter in `src/chip8.rs`, as functions on a value
 * `State` that holds every field of the `Chip8` struct. The class in
 * module Chip8 changes its fields in place and is proved to agree with
 * these functions; the lemmas in module Chip8Properties are stated about
 * them.
 *
 * A u8 is a `Byte`, an integer in 0..255, and u8 arithmetic is that of a
 * debug build: an `+=`, `-=` or `-` on a u8 that leaves 0..255 panics. Every panic of the source is an `Err(Fault)`;
 * the process aborts on a panic, so nothing is said of the state then.
 */
module Chip8Spec {
  import opened Bits
  import opened OpCode
  import opened Wrappers

  const RAM_SIZE: nat := 4096
  const REGISTER_SIZE: nat := 16
  const STACK_SIZE: nat := 16
  const OFFSET_USABLE_MEM: nat := 0x200

  /**
   * The calls the machine makes on its graphic engine, logged in order.
   * The engine itself (a window) is outside the model.
   */
  datatype EngineCall =
    | InitCall
    | ClearCall
    | DrawCall(x: Byte, y: Byte, sprite: seq<Byte>)
    | FlushCall

  /** The panics of the source. */
  datatype Fault =
    | UnknownOpcode(word: Word)   // the decoder's `panic!("Unknown opcode provided!")`
    | StackUnderflow              // `stack.pop()` on an empty stack
    | IndexOutOfBounds            // a `ram` index or slice past 4096
    | ArithmeticOverflow          // a u8 `+=`, `-=` or `-` out of range

  /** What `thread_rng().gen_range(0, 255)` can return. */
  type RandomByte = r: int | 0 <= r < 0xFF

  /**
   * What one tick may ask of the world: the random byte of CXNN, the key
   * state of EX9E and EXA1, the key FX0A receives and the sprite address
   * FX29 receives.
   */
  datatype Env = Env(
    random: RandomByte,
    isKeyPressed: Byte -> bool,
    pressedKey: Byte,
    spriteAddress: Byte -> nat)

  /** The fields of `Chip8`; `engine` is the log of calls made on `g_engine`. */
  datatype State = State(
    ram: seq<Byte>,
    v: seq<Byte>,
    i: nat,
    stack: seq<nat>,
    delayTimer: Byte,
    soundTimer: Byte,
    pc: nat,
    oldPc: nat,
    isPcBlocked: bool,
    engine: seq<EngineCall>,
    isOn: bool)

  predicate Valid(s: State)
  {
    |s.ram| == RAM_SIZE && |s.v| == REGISTER_SIZE
  }

  /** `Chip8::new`. */
  function New(): (s: State)
    ensures Valid(s)
  {
    State(seq(RAM_SIZE, _ => 0), seq(REGISTER_SIZE, _ => 0), 0, seq(STACK_SIZE, _ => 0),
          0, 0, OFFSET_USABLE_MEM, 0, false, [], true)
  }

  /** A register number. */
  type RegIndex = r: int | 0 <= r < 16

  /** The flag register VF. */
  const VF: RegIndex := 0xF

  /** The register VX. */
  function V(s: State, x: RegIndex): Byte
    requires Valid(s)
  {
    s.v[x]
  }

  function SetV(s: State, x: RegIndex, b: Byte): (r: State)
    requires Valid(s)
    ensures Valid(r)
  {
    s.(v := s.v[x := b])
  }

  /** u8 addition in a debug build: `None` is the overflow panic. */
  function CheckedAdd(a: Byte, b: Byte): Option<Byte>
  {
    if a + b <= 0xFF then Some(a + b) else None
  }

  /** u8 subtraction in a debug build: `None` is the underflow panic. */
  function CheckedSub(a: Byte, b: Byte): Option<Byte>
  {
    if a >= b then Some(a - b) else None
  }

  // ---------------------------------------------------------------------
  // Helpers of `impl Chip8`
  // ---------------------------------------------------------------------

  /** One timer step: a positive timer goes down by one, 0 stays 0. */
  function Countdown(t: Byte): Byte
  {
    if t > 0 then t - 1 else t
  }

  /** `timer_countdown`. */
  function TimerCountdown(s: State): State
  {
    s.(delayTimer := Countdown(s.delayTimer), soundTimer := Countdown(s.soundTimer))
  }

  /** `get_opcode`: the big-endian word at `pc`. */
  function Fetch(s: State): Result<Word, Fault>
    requires Valid(s)
  {
    if s.pc + 1 < RAM_SIZE then Ok((s.ram[s.pc] as int * 256 + s.ram[s.pc + 1] as int) as Word)
    else Err(IndexOutOfBounds)
  }

  /** `skip_next_instruction`. */
  function SkipNextInstruction(s: State): State
  {
    s.(pc := s.pc + 2)
  }

  /** `next_operation`: a blocked `pc` is unblocked instead of advanced. */
  function NextOperation(s: State): State
  {
    if s.isPcBlocked then s.(isPcBlocked := false) else s.(pc := s.pc + 2)
  }

  /** `block_pc`. */
  function BlockPc(s: State): State
  {
    s.(isPcBlocked := true)
  }

  function Flush(s: State): State
  {
    s.(engine := s.engine + [FlushCall])
  }

  // ---------------------------------------------------------------------
  // The 35 handlers of `impl OpCode for Chip8`
  // ---------------------------------------------------------------------

  /** op1, 0NNN: switches the machine off. */
  function Sys(s: State): (r: State)
    requires Valid(s)
    ensures Valid(r)
  {
    s.(isOn := false)
  }

  /** op2, 00E0: asks the engine to clear the screen. */
  function Clear(s: State): (r: State)
    requires Valid(s)
    ensures Valid(r)
  {
    s.(engine := s.engine + [ClearCall])
  }

  /** op3, 00EE: pops the return address into `pc`, without blocking it. */
  function Return(s: State): (r: Result<State, Fault>)
    requires Valid(s)
    ensures r.Ok? ==> Valid(r.value)
  {
    if |s.stack| == 0 then Err(StackUnderflow)
    else Ok(s.(pc := s.stack[|s.stack| - 1], stack := s.stack[..|s.stack| - 1]))
  }

  /** op4, 1NNN. */
  function Jump(s: State, nnn: nat): (r: State)
    requires Valid(s)
    ensures Valid(r)
  {
    BlockPc(s.(pc := nnn))
  }

  /** op5, 2NNN: pushes the address of the call itself, then jumps. */
  function Call(s: State, nnn: nat): (r: State)
    requires Valid(s)
    ensures Valid(r)
  {
    Jump(s.(stack := s.stack + [s.pc]), nnn)
  }

  /** op6, 3XNN. */
  function SkipIfEqual(s: State, x: RegIndex, nn: Byte): (r: State)
    requires Valid(s)
    ensures Valid(r)
  {
    if V(s, x) == nn then SkipNextInstruction(s) else s
  }

  /** op7, 4XNN. */
  function SkipIfNotEqual(s: State, x: RegIndex, nn: Byte): (r: State)
    requires Valid(s)
    ensures Valid(r)
  {
    if V(s, x) != nn then SkipNextInstruction(s) else s
  }

  /** op8, 5XY0. */
  function SkipIfRegsEqual(s: State, x: RegIndex, y: RegIndex): (r: State)
    requires Valid(s)
    ensures Valid(r)
  {
    if V(s, x) == V(s, y) then SkipNextInstruction(s) else s
  }

  /** op9, 6XNN. */
  function SetImmediate(s: State, x: RegIndex, nn: Byte): (r: State)
    requires Valid(s)
    ensures Valid(r)
  {
    SetV(s, x, nn)
  }

  /** op10, 7XNN: the sum is taken modulo 0xFF. */
  function AddImmediate(s: State, x: RegIndex, nn: Byte): (r: State)
    requires Valid(s)
    ensures Valid(r)
  {
    SetV(s, x, (V(s, x) + nn) % 0xFF)
  }

  /** op11, 8XY0. */
  function Copy(s: State, x: RegIndex, y: RegIndex): (r: State)
    requires Valid(s)
    ensures Valid(r)
  {
    SetV(s, x, V(s, y))
  }

  /** op12, 8XY1. */
  function Or(s: State, x: RegIndex, y: RegIndex): (r: State)
    requires Valid(s)
    ensures Valid(r)
  {
    SetV(s, x, Bits.Or(V(s, x), V(s, y)))
  }

  /** op13, 8XY2. */
  function And(s: State, x: RegIndex, y: RegIndex): (r: State)
    requires Valid(s)
    ensures Valid(r)
  {
    SetV(s, x, Bits.And(V(s, x), V(s, y)))
  }

  /** op14, 8XY3. */
  function Xor(s: State, x: RegIndex, y: RegIndex): (r: State)
    requires Valid(s)
    ensures Valid(r)
  {
    SetV(s, x, Bits.Xor(V(s, x), V(s, y)))
  }

  /** op15, 8XY4: VF is written first, then VX gets the sum modulo 0xFF. */
  function Add(s: State, x: RegIndex, y: RegIndex): (r: State)
    requires Valid(s)
    ensures Valid(r)
  {
    var s1 := SetV(s, VF, if V(s, x) + V(s, y) > 0xFF then 1 else 0);
    SetV(s1, x, (V(s1, x) + V(s1, y)) % 0xFF)
  }

  /**
   * op16, 8XY5: VF is written first; then `v[x] += 0xFF - v[y]` when
   * VX < VY and `v[x] -= v[y]` otherwise, on the registers as they are
   * after the flag write.
   */
  function Sub(s: State, x: RegIndex, y: RegIndex): (r: Result<State, Fault>)
    requires Valid(s)
    ensures r.Ok? ==> Valid(r.value)
    ensures r.Ok? ==> r.value == s.(v := r.value.v)
    ensures r.Err? ==> r.error == ArithmeticOverflow
  {
    if V(s, x) < V(s, y) then
      var s1 := SetV(s, VF, 0);
      match CheckedAdd(V(s1, x), 0xFF - V(s1, y))
      case None => Err(ArithmeticOverflow)
      case Some(d) => Ok(SetV(s1, x, d))
    else
      var s1 := SetV(s, VF, 1);
      match CheckedSub(V(s1, x), V(s1, y))
      case None => Err(ArithmeticOverflow)
      case Some(d) => Ok(SetV(s1, x, d))
  }

  /** op17, 8XY6: VF gets the low bit of VX, then VX is shifted right. */
  function ShiftRight(s: State, x: RegIndex): (r: State)
    requires Valid(s)
    ensures Valid(r)
    ensures r == s.(v := r.v)
  {
    var s1 := SetV(s, VF, Bits.And(V(s, x), 1));
    SetV(s1, x, V(s1, x) / 2)
  }

  /** op18, 8XY7: VF is written first, then VX gets VY - VX. */
  function SubReversed(s: State, x: RegIndex, y: RegIndex): (r: Result<State, Fault>)
    requires Valid(s)
    ensures r.Ok? ==> Valid(r.value)
    ensures r.Ok? ==> r.value == s.(v := r.value.v)
    ensures r.Err? ==> r.error == ArithmeticOverflow
  {
    var s1 := SetV(s, VF, if V(s, x) > V(s, y) then 0 else 1);
    match CheckedSub(V(s1, y), V(s1, x))
    case None => Err(ArithmeticOverflow)
    case Some(d) => Ok(SetV(s1, x, d))
  }

  /** op19, 8XYE: VF gets VX & 0x80, not normalised to 1, then VX is shifted left. */
  function ShiftLeft(s: State, x: RegIndex): (r: State)
    requires Valid(s)
    ensures Valid(r)
  {
    var s1 := SetV(s, VF, Bits.And(V(s, x), 0x80));
    SetV(s1, x, (V(s1, x) * 2) % 256)
  }

  /** op20, 9XY0. */
  function SkipIfRegsNotEqual(s: State, x: RegIndex, y: RegIndex): (r: State)
    requires Valid(s)
    ensures Valid(r)
  {
    if V(s, x) != V(s, y) then SkipNextInstruction(s) else s
  }

  /** op21, ANNN. */
  function SetIndex(s: State, nnn: nat): (r: State)
    requires Valid(s)
    ensures Valid(r)
  {
    s.(i := nnn)
  }

  /** op22, BNNN. */
  function JumpOffset(s: State, nnn: nat): (r: State)
    requires Valid(s)
    ensures Valid(r)
  {
    BlockPc(s.(pc := nnn + V(s, 0)))
  }

  /** op23, CXNN, with `rnd` the random byte. */
  function Random(s: State, x: RegIndex, nn: Byte, rnd: RandomByte): (r: State)
    requires Valid(s)
    ensures Valid(r)
  {
    SetV(s, x, Bits.And(nn, rnd))
  }

  /** op24, DXYN: hands `ram[i .. i + 1 + n]` to the engine; its collision flag is dropped. */
  function Draw(s: State, x: RegIndex, y: RegIndex, n: nat): (r: Result<State, Fault>)
    requires Valid(s)
    ensures r.Ok? ==> Valid(r.value)
  {
    if s.i + 1 + n <= RAM_SIZE then
      Ok(s.(engine := s.engine + [DrawCall(V(s, x), V(s, y), s.ram[s.i .. s.i + 1 + n])]))
    else Err(IndexOutOfBounds)
  }

  /** op25, EX9E. */
  function SkipIfKey(s: State, x: RegIndex, isKeyPressed: Byte -> bool): (r: State)
    requires Valid(s)
    ensures Valid(r)
  {
    if isKeyPressed(V(s, x)) then SkipNextInstruction(s) else s
  }

  /** op26, EXA1. */
  function SkipIfNotKey(s: State, x: RegIndex, isKeyPressed: Byte -> bool): (r: State)
    requires Valid(s)
    ensures Valid(r)
  {
    if !isKeyPressed(V(s, x)) then SkipNextInstruction(s) else s
  }

  /** op27, FX07. */
  function GetDelay(s: State, x: RegIndex): (r: State)
    requires Valid(s)
    ensures Valid(r)
  {
    SetV(s, x, s.delayTimer)
  }

  /** op28, FX0A, with `key` the key the engine reports. */
  function WaitKey(s: State, x: RegIndex, key: Byte): (r: State)
    requires Valid(s)
    ensures Valid(r)
  {
    SetV(s, x, key)
  }

  /** op29, FX15. */
  function SetDelay(s: State, x: RegIndex): (r: State)
    requires Valid(s)
    ensures Valid(r)
  {
    s.(delayTimer := V(s, x))
  }

  /** op30, FX18. */
  function SetSound(s: State, x: RegIndex): (r: State)
    requires Valid(s)
    ensures Valid(r)
  {
    s.(soundTimer := V(s, x))
  }

  /** op31, FX1E. */
  function AddToIndex(s: State, x: RegIndex): (r: State)
    requires Valid(s)
    ensures Valid(r)
  {
    s.(i := s.i + V(s, x))
  }

  /** op32, FX29, with `spriteAddress` the address the engine reports. */
  function SpriteAddress(s: State, x: RegIndex, spriteAddress: Byte -> nat): (r: State)
    requires Valid(s)
    ensures Valid(r)
  {
    s.(i := spriteAddress(V(s, x)))
  }

  /** op33, FX33: the three decimal digits of VX at I, I + 1 and I + 2. */
  function StoreBcd(s: State, x: RegIndex): (r: Result<State, Fault>)
    requires Valid(s)
    ensures r.Ok? ==> Valid(r.value)
  {
    if s.i + 2 < RAM_SIZE then
      var b := V(s, x);
      Ok(s.(ram := s.ram[s.i := b / 100][s.i + 1 := (b / 10) % 10][s.i + 2 := b % 10]))
    else Err(IndexOutOfBounds)
  }

  /** op34, FX55: V0 .. V(X-1) to memory at I; X itself is not stored. */
  function StoreRegisters(s: State, x: RegIndex): (r: Result<State, Fault>)
    requires Valid(s)
    ensures r.Ok? ==> Valid(r.value)
  {
    if x == 0 || s.i + x <= RAM_SIZE then
      Ok(s.(ram := seq(RAM_SIZE, k requires 0 <= k < RAM_SIZE =>
                         if s.i <= k < s.i + x then s.v[k - s.i] else s.ram[k])))
    else Err(IndexOutOfBounds)
  }

  /** op35, FX65: V0 .. V(X-1) from memory at I; VX itself is not loaded. */
  function LoadRegisters(s: State, x: RegIndex): (r: Result<State, Fault>)
    requires Valid(s)
    ensures r.Ok? ==> Valid(r.value)
  {
    if x == 0 || s.i + x <= RAM_SIZE then
      Ok(s.(v := seq(REGISTER_SIZE, k requires 0 <= k < REGISTER_SIZE =>
                       if k < x then s.ram[s.i + k] else s.v[k])))
    else Err(IndexOutOfBounds)
  }

  // ---------------------------------------------------------------------
  // Execution
  // ---------------------------------------------------------------------

  /** The register a decoded X or Y field names. */
  function RegOf(x: Reg): RegIndex
  {
    x as int
  }

  /** The byte a decoded NN field holds. */
  function ByteOf(nn: bv8): Byte
  {
    nn as int
  }

  /** The address a decoded NNN field holds. */
  function AddrOf(nnn: Addr): nat
  {
    nnn as int
  }

  /** The value of a decoded N field. */
  function NibbleOf(n: bv4): nat
  {
    n as int
  }

  /** `Apply` on the three handlers of group 0. */
  function ApplyGroup0(s: State, ins: Instr, env: Env): (r: Result<State, Fault>)
    requires Valid(s) && (ins.Sys? || ins.Clear? || ins.Return?)
    ensures r.Ok? ==> Valid(r.value)
  {
    match ins
    case Sys => Ok(Sys(s))
    case Clear => Ok(Clear(s))
    case Return => Return(s)
  }

  /** `Apply` on the jumps. */
  function ApplyJumps(s: State, ins: Instr, env: Env): (r: Result<State, Fault>)
    requires Valid(s) && (ins.Jump? || ins.Call? || ins.JumpOffset?)
    ensures r.Ok? ==> Valid(r.value)
  {
    match ins
    case Jump(nnn) => Ok(Jump(s, AddrOf(nnn)))
    case Call(nnn) => Ok(Call(s, AddrOf(nnn)))
    case JumpOffset(nnn) => Ok(JumpOffset(s, AddrOf(nnn)))
  }

  /** `Apply` on the skips on a register value. */
  function ApplyValueSkips(s: State, ins: Instr, env: Env): (r: Result<State, Fault>)
    requires Valid(s) && (ins.SkipIfEqual? || ins.SkipIfNotEqual? || ins.SkipIfRegsEqual?)
    ensures r.Ok? ==> Valid(r.value)
  {
    match ins
    case SkipIfEqual(x, nn) => Ok(SkipIfEqual(s, RegOf(x), ByteOf(nn)))
    case SkipIfNotEqual(x, nn) => Ok(SkipIfNotEqual(s, RegOf(x), ByteOf(nn)))
    case SkipIfRegsEqual(x, y) => Ok(SkipIfRegsEqual(s, RegOf(x), RegOf(y)))
  }

  /** `Apply` on the other skips. */
  function ApplyOtherSkips(s: State, ins: Instr, env: Env): (r: Result<State, Fault>)
    requires Valid(s) && (ins.SkipIfRegsNotEqual? || ins.SkipIfKey? || ins.SkipIfNotKey?)
    ensures r.Ok? ==> Valid(r.value)
  {
    match ins
    case SkipIfRegsNotEqual(x, y) => Ok(SkipIfRegsNotEqual(s, RegOf(x), RegOf(y)))
    case SkipIfKey(x) => Ok(SkipIfKey(s, RegOf(x), env.isKeyPressed))
    case SkipIfNotKey(x) => Ok(SkipIfNotKey(s, RegOf(x), env.isKeyPressed))
  }

  /** `Apply` on the register loads. */
  function ApplyLoads(s: State, ins: Instr, env: Env): (r: Result<State, Fault>)
    requires Valid(s) && (ins.SetImmediate? || ins.AddImmediate? || ins.Random? || ins.Copy?)
    ensures r.Ok? ==> Valid(r.value)
  {
    match ins
    case SetImmediate(x, nn) => Ok(SetImmediate(s, RegOf(x), ByteOf(nn)))
    case AddImmediate(x, nn) => Ok(AddImmediate(s, RegOf(x), ByteOf(nn)))
    case Copy(x, y) => Ok(Copy(s, RegOf(x), RegOf(y)))
    case Random(x, nn) => Ok(Random(s, RegOf(x), ByteOf(nn), env.random))
  }

  /** `Apply` on the bitwise handlers. */
  function ApplyLogic(s: State, ins: Instr, env: Env): (r: Result<State, Fault>)
    requires Valid(s) && (ins.Or? || ins.And? || ins.Xor?)
    ensures r.Ok? ==> Valid(r.value)
  {
    match ins
    case Or(x, y) => Ok(Or(s, RegOf(x), RegOf(y)))
    case And(x, y) => Ok(And(s, RegOf(x), RegOf(y)))
    case Xor(x, y) => Ok(Xor(s, RegOf(x), RegOf(y)))
  }

  /** `Apply` on 8XY4 and 8XYE. */
  function ApplyAddAndShiftLeft(s: State, ins: Instr, env: Env): (r: Result<State, Fault>)
    requires Valid(s) && (ins.Add? || ins.ShiftLeft?)
    ensures r.Ok? ==> Valid(r.value)
  {
    match ins
    case Add(x, y) => Ok(Add(s, RegOf(x), RegOf(y)))
    case ShiftLeft(x) => Ok(ShiftLeft(s, RegOf(x)))
  }

  /** `Apply` on 8XY5, 8XY6 and 8XY7. */
  function ApplySubAndShiftRight(s: State, ins: Instr, env: Env): (r: Result<State, Fault>)
    requires Valid(s) && (ins.Sub? || ins.ShiftRight? || ins.SubReversed?)
    ensures r.Ok? ==> Valid(r.value)
  {
    match ins
    case Sub(x, y) => Sub(s, RegOf(x), RegOf(y))
    case ShiftRight(x) => Ok(ShiftRight(s, RegOf(x)))
    case SubReversed(x, y) => SubReversed(s, RegOf(x), RegOf(y))
  }

  /** `Apply` on the handlers that set I. */
  function ApplyIndex(s: State, ins: Instr, env: Env): (r: Result<State, Fault>)
    requires Valid(s) && (ins.SetIndex? || ins.AddToIndex? || ins.SpriteAddress?)
    ensures r.Ok? ==> Valid(r.value)
  {
    match ins
    case SetIndex(nnn) => Ok(SetIndex(s, AddrOf(nnn)))
    case AddToIndex(x) => Ok(AddToIndex(s, RegOf(x)))
    case SpriteAddress(x) => Ok(SpriteAddress(s, RegOf(x), env.spriteAddress))
  }

  /** `Apply` on the timer and key handlers. */
  function ApplyTimers(s: State, ins: Instr, env: Env): (r: Result<State, Fault>)
    requires Valid(s) && (ins.GetDelay? || ins.WaitKey? || ins.SetDelay? || ins.SetSound?)
    ensures r.Ok? ==> Valid(r.value)
  {
    match ins
    case GetDelay(x) => Ok(GetDelay(s, RegOf(x)))
    case WaitKey(x) => Ok(WaitKey(s, RegOf(x), env.pressedKey))
    case SetDelay(x) => Ok(SetDelay(s, RegOf(x)))
    case SetSound(x) => Ok(SetSound(s, RegOf(x)))
  }

  /** `Apply` on the handlers that read or write memory. */
  function ApplyMemory(s: State, ins: Instr, env: Env): (r: Result<State, Fault>)
    requires Valid(s) && (ins.Draw? || ins.StoreBcd? || ins.StoreRegisters? || ins.LoadRegisters?)
    ensures r.Ok? ==> Valid(r.value)
  {
    match ins
    case Draw(x, y, n) => Draw(s, RegOf(x), RegOf(y), NibbleOf(n))
    case StoreBcd(x) => StoreBcd(s, RegOf(x))
    case StoreRegisters(x) => StoreRegisters(s, RegOf(x))
    case LoadRegisters(x) => LoadRegisters(s, RegOf(x))
  }

  /**
   * One handler call: the match of `execute_opcode`, taken in families of
   * a few handlers each.
   */
  function Apply(s: State, ins: Instr, env: Env): (r: Result<State, Fault>)
    requires Valid(s)
    ensures r.Ok? ==> Valid(r.value)
  {
    if ins.Sys? || ins.Clear? || ins.Return? then ApplyGroup0(s, ins, env)
    else if ins.Jump? || ins.Call? || ins.JumpOffset? then ApplyJumps(s, ins, env)
    else if ins.SkipIfEqual? || ins.SkipIfNotEqual? || ins.SkipIfRegsEqual? then ApplyValueSkips(s, ins, env)
    else if ins.SkipIfRegsNotEqual? || ins.SkipIfKey? || ins.SkipIfNotKey? then ApplyOtherSkips(s, ins, env)
    else if ins.SetImmediate? || ins.AddImmediate? || ins.Random? || ins.Copy? then ApplyLoads(s, ins, env)
    else if ins.Or? || ins.And? || ins.Xor? then ApplyLogic(s, ins, env)
    else if ins.Add? || ins.ShiftLeft? then ApplyAddAndShiftLeft(s, ins, env)
    else if ins.Sub? || ins.ShiftRight? || ins.SubReversed? then ApplySubAndShiftRight(s, ins, env)
    else if ins.SetIndex? || ins.AddToIndex? || ins.SpriteAddress? then ApplyIndex(s, ins, env)
    else if ins.GetDelay? || ins.WaitKey? || ins.SetDelay? || ins.SetSound? then ApplyTimers(s, ins, env)
    else ApplyMemory(s, ins, env)
  }

  /** Handler calls in order; the first panic ends the sequence. */
  function ApplyAll(s: State, instrs: seq<Instr>, env: Env): (r: Result<State, Fault>)
    requires Valid(s)
    ensures r.Ok? ==> Valid(r.value)
    decreases |instrs|
  {
    if instrs == [] then Ok(s)
    else
      match Apply(s, instrs[0], env)
      case Err(f) => Err(f)
      case Ok(s1) => ApplyAll(s1, instrs[1..], env)
  }

  /** `execute_opcode`: decode, then call the handlers. */
  function ExecuteOpcode(s: State, w: Word, env: Env): (r: Result<State, Fault>)
    requires Valid(s)
    ensures r.Ok? ==> Valid(r.value)
  {
    match Decode(w)
    case None => Err(UnknownOpcode(w))
    case Some(instrs) => ApplyAll(s, instrs, env)
  }

  /**
   * One pass of the loop in `run`, while the engine reports it is running:
   * when the machine is on, fetch, execute, advance, stop on a `pc` that
   * did not move, count the timers down; in every case flush the engine.
   */
  function Tick(s: State, env: Env): (r: Result<State, Fault>)
    requires Valid(s)
    ensures r.Ok? ==> Valid(r.value)
  {
    if !s.isOn then Ok(Flush(s))
    else
      var s1 := s.(oldPc := s.pc);
      match Fetch(s1)
      case Err(f) => Err(f)
      case Ok(w) =>
        match ExecuteOpcode(s1, w, env)
        case Err(f) => Err(f)
        case Ok(s2) => Ok(EndTick(s2))
  }

  /**
   * What `run` does after executing the opcode: advance `pc` unless it is
   * blocked, switch off when `pc` is back where the tick started, count
   * the timers down and flush the engine.
   */
  function EndTick(s: State): State
  {
    var s1 := NextOperation(s);
    var s2 := if s1.oldPc == s1.pc then s1.(isOn := false) else s1;
    Flush(TimerCountdown(s2))
  }

  /** `run`: start the engine, then one tick per element of `envs`. */
  function Run(s: State, envs: seq<Env>): (r: Result<State, Fault>)
    requires Valid(s)
    ensures r.Ok? ==> Valid(r.value)
  {
    RunTicks(s.(engine := s.engine + [InitCall]), envs)
  }

  /** The ticks of `envs`, in order, stopping at the first panic. */
  function RunTicks(s: State, envs: seq<Env>): (r: Result<State, Fault>)
    requires Valid(s)
    ensures r.Ok? ==> Valid(r.value)
    decreases |envs|
  {
    if envs == [] then Ok(s)
    else
      match RunTicks(s, envs[..|envs| - 1])
      case Err(f) => Err(f)
      case Ok(s1) => Tick(s1, envs[|envs| - 1])
  }

  /** The copy loop of `read`: the ROM goes to 0x200 onwards. */
  function Read(s: State, rom: seq<Byte>): (r: Result<State, Fault>)
    requires Valid(s)
    ensures r.Ok? ==> Valid(r.value)
  {
    if |rom| <= RAM_SIZE - OFFSET_USABLE_MEM then
      Ok(s.(ram := s.ram[..OFFSET_USABLE_MEM] + rom + s.ram[OFFSET_USABLE_MEM + |rom|..]))
    else Err(IndexOutOfBounds)
  }
}
