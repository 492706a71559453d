/**
 * The `Chip8` struct of `src/chip8.rs` as a class whose methods change its
 * fields in place, as the source's `&mut self` methods do. `ram` and `v`
 * are the fixed-size arrays of the struct; the `Vec` stack and the log of
 * engine calls are sequences the methods reassign.
 *
 * Every method is proved against the Chip8Spec function its contract
 * names, which is the one of the same name except for the constructor
 * (`New`), `GetOpcode` (`Fetch`), `ExecuteCurrentOperation` (`Fetch`, then
 * `ExecuteOpcode`) and `AdvanceAndCountdown` (`EndTick` without its flush).
 * `Abs()` reads the fields into a `State`, and a method leaves `Abs()` equal
 * to what the function computes from `old(Abs())`. A method that can panic
 * returns the fault instead; after a fault nothing is said of the fields,
 * as the source's process has aborted.
 */
module Interpreter {
  import opened Bits
  import opened Wrappers
  import Op = OpCode
  import S = Chip8Spec
  import P = Chip8Properties

  class Chip8 {
    const ram: array<Byte>
    const v: array<Byte>
    var i: nat
    var stack: seq<nat>
    var delayTimer: Byte
    var soundTimer: Byte
    var pc: nat
    var oldPc: nat
    var isPcBlocked: bool
    var engine: seq<S.EngineCall>
    var isOn: bool

    ghost predicate Valid()
    {
      ram.Length == S.RAM_SIZE && v.Length == S.REGISTER_SIZE && ram != v
    }

    /** The fields as a `State`. */
    function Abs(): (s: S.State)
      reads this, ram, v
      ensures Valid() ==> S.Valid(s)
    {
      S.State(ram[..], v[..], i, stack, delayTimer, soundTimer, pc, oldPc, isPcBlocked, engine, isOn)
    }

    /** The fields agree with `r`, or `fault` is the panic `r` reports. */
    ghost predicate Outcome(r: Result<S.State, S.Fault>, fault: Option<S.Fault>)
      requires Valid()
      reads this, ram, v
    {
      match r
      case Ok(s) => fault.None? && Abs() == s
      case Err(f) => fault == Some(f)
    }

    /** `Chip8::new`. */
    constructor ()
      ensures Valid() && fresh(ram) && fresh(v)
      ensures Abs() == S.New()
    {
      ram := new Byte[S.RAM_SIZE](_ => 0);
      v := new Byte[S.REGISTER_SIZE](_ => 0);
      i := 0;
      stack := seq(S.STACK_SIZE, _ => 0);
      delayTimer := 0;
      soundTimer := 0;
      pc := S.OFFSET_USABLE_MEM;
      oldPc := 0;
      isPcBlocked := false;
      engine := [];
      isOn := true;
    }

    // -------------------------------------------------------------------
    // Helpers of `impl Chip8`
    // -------------------------------------------------------------------

    method TimerCountdown()
      requires Valid()
      modifies this
      ensures Abs() == S.TimerCountdown(old(Abs()))
    {
      if delayTimer > 0 {
        delayTimer := delayTimer - 1;
      }
      if soundTimer > 0 {
        soundTimer := soundTimer - 1;
      }
    }

    /** `get_opcode`; the indexing panics when `pc + 1` is outside the memory. */
    method GetOpcode() returns (r: Result<Op.Word, S.Fault>)
      requires Valid()
      ensures r == S.Fetch(Abs())
    {
      if pc + 1 < S.RAM_SIZE {
        r := Ok((ram[pc] as int * 256 + ram[pc + 1] as int) as Op.Word);
      } else {
        r := Err(S.IndexOutOfBounds);
      }
    }

    method SkipNextInstruction()
      requires Valid()
      modifies this
      ensures Abs() == S.SkipNextInstruction(old(Abs()))
    {
      pc := pc + 2;
    }

    method NextOperation()
      requires Valid()
      modifies this
      ensures Abs() == S.NextOperation(old(Abs()))
    {
      if isPcBlocked {
        isPcBlocked := false;
      } else {
        pc := pc + 2;
      }
    }

    method BlockPc()
      requires Valid()
      modifies this
      ensures Abs() == S.BlockPc(old(Abs()))
    {
      isPcBlocked := true;
    }

    /** `self.v[x] = b`. */
    method SetV(x: S.RegIndex, b: Byte)
      requires Valid()
      modifies v
      ensures Abs() == S.SetV(old(Abs()), x, b)
    {
      v[x] := b;
    }

    // -------------------------------------------------------------------
    // The 35 handlers of `impl OpCode for Chip8`
    // -------------------------------------------------------------------

    method Sys()
      requires Valid()
      modifies this
      ensures Abs() == S.Sys(old(Abs()))
    {
      isOn := false;
    }

    method Clear()
      requires Valid()
      modifies this
      ensures Abs() == S.Clear(old(Abs()))
    {
      engine := engine + [S.ClearCall];
    }

    method Return() returns (fault: Option<S.Fault>)
      requires Valid()
      modifies this
      ensures Outcome(S.Return(old(Abs())), fault)
    {
      if |stack| == 0 {
        return Some(S.StackUnderflow);
      }
      pc := stack[|stack| - 1];
      stack := stack[..|stack| - 1];
      fault := None;
    }

    method Jump(nnn: nat)
      requires Valid()
      modifies this
      ensures Abs() == S.Jump(old(Abs()), nnn)
    {
      pc := nnn;
      BlockPc();
    }

    method Call(nnn: nat)
      requires Valid()
      modifies this
      ensures Abs() == S.Call(old(Abs()), nnn)
    {
      stack := stack + [pc];
      Jump(nnn);
    }

    method SkipIfEqual(x: S.RegIndex, nn: Byte)
      requires Valid()
      modifies this
      ensures Abs() == S.SkipIfEqual(old(Abs()), x, nn)
    {
      if v[x] == nn {
        SkipNextInstruction();
      }
    }

    method SkipIfNotEqual(x: S.RegIndex, nn: Byte)
      requires Valid()
      modifies this
      ensures Abs() == S.SkipIfNotEqual(old(Abs()), x, nn)
    {
      if v[x] != nn {
        SkipNextInstruction();
      }
    }

    method SkipIfRegsEqual(x: S.RegIndex, y: S.RegIndex)
      requires Valid()
      modifies this
      ensures Abs() == S.SkipIfRegsEqual(old(Abs()), x, y)
    {
      if v[x] == v[y] {
        SkipNextInstruction();
      }
    }

    method SetImmediate(x: S.RegIndex, nn: Byte)
      requires Valid()
      modifies v
      ensures Abs() == S.SetImmediate(old(Abs()), x, nn)
    {
      v[x] := nn;
    }

    method AddImmediate(x: S.RegIndex, nn: Byte)
      requires Valid()
      modifies v
      ensures Abs() == S.AddImmediate(old(Abs()), x, nn)
    {
      v[x] := (v[x] + nn) % 0xFF;
    }

    method Copy(x: S.RegIndex, y: S.RegIndex)
      requires Valid()
      modifies v
      ensures Abs() == S.Copy(old(Abs()), x, y)
    {
      v[x] := v[y];
    }

    method Or(x: S.RegIndex, y: S.RegIndex)
      requires Valid()
      modifies v
      ensures Abs() == S.Or(old(Abs()), x, y)
    {
      v[x] := Bits.Or(v[x], v[y]);
    }

    method And(x: S.RegIndex, y: S.RegIndex)
      requires Valid()
      modifies v
      ensures Abs() == S.And(old(Abs()), x, y)
    {
      v[x] := Bits.And(v[x], v[y]);
    }

    method Xor(x: S.RegIndex, y: S.RegIndex)
      requires Valid()
      modifies v
      ensures Abs() == S.Xor(old(Abs()), x, y)
    {
      v[x] := Bits.Xor(v[x], v[y]);
    }

    method Add(x: S.RegIndex, y: S.RegIndex)
      requires Valid()
      modifies v
      ensures Abs() == S.Add(old(Abs()), x, y)
    {
      ghost var s0 := Abs();
      SetV(S.VF, if v[x] as int + v[y] > 0xFF then 1 else 0);
      ghost var s1 := Abs();
      assert s1 == S.SetV(s0, S.VF, if S.V(s0, x) + S.V(s0, y) > 0xFF then 1 else 0);
      SetV(x, (v[x] as int + v[y]) % 0xFF);
      assert S.Add(s0, x, y) == S.SetV(s1, x, (S.V(s1, x) + S.V(s1, y)) % 0xFF);
    }

    /** The `+=` and `-=` panic when the result leaves 0..255. */
    method Sub(x: S.RegIndex, y: S.RegIndex) returns (fault: Option<S.Fault>)
      requires Valid()
      modifies v
      ensures Outcome(S.Sub(old(Abs()), x, y), fault)
    {
      ghost var s0 := Abs();
      if v[x] < v[y] {
        SetV(S.VF, 0);
        ghost var s1 := Abs();
        assert s1 == S.SetV(s0, S.VF, 0);
        var sum := v[x] as int + (0xFF - v[y]);
        if sum > 0xFF {
          assert S.Sub(s0, x, y) == Err(S.ArithmeticOverflow);
          return Some(S.ArithmeticOverflow);
        }
        SetV(x, sum);
        assert S.Sub(s0, x, y) == Ok(S.SetV(s1, x, sum));
      } else {
        SetV(S.VF, 1);
        ghost var s1 := Abs();
        assert s1 == S.SetV(s0, S.VF, 1);
        var a, b := v[x], v[y];
        if a < b {
          assert S.Sub(s0, x, y) == Err(S.ArithmeticOverflow);
          return Some(S.ArithmeticOverflow);
        }
        SetV(x, a - b);
        assert S.Sub(s0, x, y) == Ok(S.SetV(s1, x, a - b));
      }
      fault := None;
    }

    method ShiftRight(x: S.RegIndex)
      requires Valid()
      modifies v
      ensures Abs() == S.ShiftRight(old(Abs()), x)
    {
      SetV(S.VF, Bits.And(v[x], 1));
      SetV(x, v[x] / 2);
    }

    /** The `-` panics when VX > VY. */
    method SubReversed(x: S.RegIndex, y: S.RegIndex) returns (fault: Option<S.Fault>)
      requires Valid()
      modifies v
      ensures Outcome(S.SubReversed(old(Abs()), x, y), fault)
    {
      ghost var s0 := Abs();
      SetV(S.VF, if v[x] > v[y] then 0 else 1);
      ghost var s1 := Abs();
      assert s1 == S.SetV(s0, S.VF, if S.V(s0, x) > S.V(s0, y) then 0 else 1);
      var a, b := v[x], v[y];
      if b < a {
        assert S.SubReversed(s0, x, y) == Err(S.ArithmeticOverflow);
        return Some(S.ArithmeticOverflow);
      }
      SetV(x, b - a);
      assert S.SubReversed(s0, x, y) == Ok(S.SetV(s1, x, b - a));
      fault := None;
    }

    method ShiftLeft(x: S.RegIndex)
      requires Valid()
      modifies v
      ensures Abs() == S.ShiftLeft(old(Abs()), x)
    {
      SetV(S.VF, Bits.And(v[x], 0x80));
      SetV(x, (v[x] as int * 2) % 256);
    }

    method SkipIfRegsNotEqual(x: S.RegIndex, y: S.RegIndex)
      requires Valid()
      modifies this
      ensures Abs() == S.SkipIfRegsNotEqual(old(Abs()), x, y)
    {
      if v[x] != v[y] {
        SkipNextInstruction();
      }
    }

    method SetIndex(nnn: nat)
      requires Valid()
      modifies this
      ensures Abs() == S.SetIndex(old(Abs()), nnn)
    {
      i := nnn;
    }

    method JumpOffset(nnn: nat)
      requires Valid()
      modifies this
      ensures Abs() == S.JumpOffset(old(Abs()), nnn)
    {
      pc := nnn + v[0];
      BlockPc();
    }

    /** `r` is the byte `thread_rng().gen_range(0, 255)` returned. */
    method Random(x: S.RegIndex, nn: Byte, r: S.RandomByte)
      requires Valid()
      modifies v
      ensures Abs() == S.Random(old(Abs()), x, nn, r)
    {
      v[x] := Bits.And(nn, r);
    }

    /** The slice panics when it reaches past the memory. */
    method Draw(x: S.RegIndex, y: S.RegIndex, n: nat) returns (fault: Option<S.Fault>)
      requires Valid()
      modifies this
      ensures Outcome(S.Draw(old(Abs()), x, y, n), fault)
    {
      if i + 1 + n > S.RAM_SIZE {
        return Some(S.IndexOutOfBounds);
      }
      engine := engine + [S.DrawCall(v[x], v[y], ram[i .. i + 1 + n])];
      fault := None;
    }

    method SkipIfKey(x: S.RegIndex, isKeyPressed: Byte -> bool)
      requires Valid()
      modifies this
      ensures Abs() == S.SkipIfKey(old(Abs()), x, isKeyPressed)
    {
      if isKeyPressed(v[x]) {
        SkipNextInstruction();
      }
    }

    method SkipIfNotKey(x: S.RegIndex, isKeyPressed: Byte -> bool)
      requires Valid()
      modifies this
      ensures Abs() == S.SkipIfNotKey(old(Abs()), x, isKeyPressed)
    {
      if !isKeyPressed(v[x]) {
        SkipNextInstruction();
      }
    }

    method GetDelay(x: S.RegIndex)
      requires Valid()
      modifies v
      ensures Abs() == S.GetDelay(old(Abs()), x)
    {
      v[x] := delayTimer;
    }

    method WaitKey(x: S.RegIndex, key: Byte)
      requires Valid()
      modifies v
      ensures Abs() == S.WaitKey(old(Abs()), x, key)
    {
      v[x] := key;
    }

    method SetDelay(x: S.RegIndex)
      requires Valid()
      modifies this
      ensures Abs() == S.SetDelay(old(Abs()), x)
    {
      delayTimer := v[x];
    }

    method SetSound(x: S.RegIndex)
      requires Valid()
      modifies this
      ensures Abs() == S.SetSound(old(Abs()), x)
    {
      soundTimer := v[x];
    }

    method AddToIndex(x: S.RegIndex)
      requires Valid()
      modifies this
      ensures Abs() == S.AddToIndex(old(Abs()), x)
    {
      i := i + v[x];
    }

    method SpriteAddress(x: S.RegIndex, spriteAddress: Byte -> nat)
      requires Valid()
      modifies this
      ensures Abs() == S.SpriteAddress(old(Abs()), x, spriteAddress)
    {
      i := spriteAddress(v[x]);
    }

    /** Each of the three writes panics when its cell is outside the memory. */
    method StoreBcd(x: S.RegIndex) returns (fault: Option<S.Fault>)
      requires Valid()
      modifies ram
      ensures Outcome(S.StoreBcd(old(Abs()), x), fault)
    {
      if i + 2 >= S.RAM_SIZE {
        return Some(S.IndexOutOfBounds);
      }
      ram[i] := v[x] / 100;
      ram[i + 1] := (v[x] / 10) % 10;
      ram[i + 2] := v[x] % 10;
      fault := None;
    }

    /** The loop over `0..x`; a write past the memory panics. */
    method StoreRegisters(x: S.RegIndex) returns (fault: Option<S.Fault>)
      requires Valid()
      modifies ram
      ensures Outcome(S.StoreRegisters(old(Abs()), x), fault)
    {
      var offset := 0;
      while offset < x
        invariant 0 <= offset <= x
        invariant offset > 0 ==> i + offset <= S.RAM_SIZE
        invariant forall k :: 0 <= k < S.RAM_SIZE ==>
          ram[k] == if i <= k < i + offset then v[k - i] else old(ram[k])
      {
        if i + offset >= S.RAM_SIZE {
          return Some(S.IndexOutOfBounds);
        }
        ram[i + offset] := v[offset];
        offset := offset + 1;
      }
      fault := None;
    }

    /** The loop over `0..x`; a read past the memory panics. */
    method LoadRegisters(x: S.RegIndex) returns (fault: Option<S.Fault>)
      requires Valid()
      modifies v
      ensures Outcome(S.LoadRegisters(old(Abs()), x), fault)
    {
      var offset := 0;
      while offset < x
        invariant 0 <= offset <= x
        invariant offset > 0 ==> i + offset <= S.RAM_SIZE
        invariant forall k :: 0 <= k < S.REGISTER_SIZE ==>
          v[k] == if k < offset then ram[i + k] else old(v[k])
      {
        if i + offset >= S.RAM_SIZE {
          return Some(S.IndexOutOfBounds);
        }
        v[offset] := ram[i + offset];
        offset := offset + 1;
      }
      fault := None;
    }
  
    // -------------------------------------------------------------------
    // Execution
    // -------------------------------------------------------------------

    /** `Apply` for the three handlers of group 0. */
    method ApplyGroup0(ins: Op.Instr, env: S.Env) returns (fault: Option<S.Fault>)
      requires Valid() && (ins.Sys? || ins.Clear? || ins.Return?)
      modifies this, ram, v
      ensures Outcome(S.ApplyGroup0(old(Abs()), ins, env), fault)
    {
      fault := None;
      match ins
      case Sys => Sys();
      case Clear => Clear();
      case Return => fault := Return();
    }

    /** `Apply` for the jumps. */
    method ApplyJumps(ins: Op.Instr, env: S.Env) returns (fault: Option<S.Fault>)
      requires Valid() && (ins.Jump? || ins.Call? || ins.JumpOffset?)
      modifies this, ram, v
      ensures Outcome(S.ApplyJumps(old(Abs()), ins, env), fault)
    {
      fault := None;
      match ins
      case Jump(nnn) => Jump(S.AddrOf(nnn));
      case Call(nnn) => Call(S.AddrOf(nnn));
      case JumpOffset(nnn) => JumpOffset(S.AddrOf(nnn));
    }

    /** `Apply` for the skips on a register value. */
    method ApplyValueSkips(ins: Op.Instr, env: S.Env) returns (fault: Option<S.Fault>)
      requires Valid() && (ins.SkipIfEqual? || ins.SkipIfNotEqual? || ins.SkipIfRegsEqual?)
      modifies this, ram, v
      ensures Outcome(S.ApplyValueSkips(old(Abs()), ins, env), fault)
    {
      fault := None;
      match ins
      case SkipIfEqual(x, nn) => SkipIfEqual(S.RegOf(x), S.ByteOf(nn));
      case SkipIfNotEqual(x, nn) => SkipIfNotEqual(S.RegOf(x), S.ByteOf(nn));
      case SkipIfRegsEqual(x, y) => SkipIfRegsEqual(S.RegOf(x), S.RegOf(y));
    }

    /** `Apply` for the other skips. */
    method ApplyOtherSkips(ins: Op.Instr, env: S.Env) returns (fault: Option<S.Fault>)
      requires Valid() && (ins.SkipIfRegsNotEqual? || ins.SkipIfKey? || ins.SkipIfNotKey?)
      modifies this, ram, v
      ensures Outcome(S.ApplyOtherSkips(old(Abs()), ins, env), fault)
    {
      fault := None;
      match ins
      case SkipIfRegsNotEqual(x, y) => SkipIfRegsNotEqual(S.RegOf(x), S.RegOf(y));
      case SkipIfKey(x) => SkipIfKey(S.RegOf(x), env.isKeyPressed);
      case SkipIfNotKey(x) => SkipIfNotKey(S.RegOf(x), env.isKeyPressed);
    }

    /** `Apply` for the register loads. */
    method ApplyLoads(ins: Op.Instr, env: S.Env) returns (fault: Option<S.Fault>)
      requires Valid() && (ins.SetImmediate? || ins.AddImmediate? || ins.Random? || ins.Copy?)
      modifies this, ram, v
      ensures Outcome(S.ApplyLoads(old(Abs()), ins, env), fault)
    {
      fault := None;
      match ins
      case SetImmediate(x, nn) => SetImmediate(S.RegOf(x), S.ByteOf(nn));
      case AddImmediate(x, nn) => AddImmediate(S.RegOf(x), S.ByteOf(nn));
      case Copy(x, y) => Copy(S.RegOf(x), S.RegOf(y));
      case Random(x, nn) => Random(S.RegOf(x), S.ByteOf(nn), env.random);
    }

    /** `Apply` for the bitwise handlers. */
    method ApplyLogic(ins: Op.Instr, env: S.Env) returns (fault: Option<S.Fault>)
      requires Valid() && (ins.Or? || ins.And? || ins.Xor?)
      modifies this, ram, v
      ensures Outcome(S.ApplyLogic(old(Abs()), ins, env), fault)
    {
      fault := None;
      match ins
      case Or(x, y) => Or(S.RegOf(x), S.RegOf(y));
      case And(x, y) => And(S.RegOf(x), S.RegOf(y));
      case Xor(x, y) => Xor(S.RegOf(x), S.RegOf(y));
    }

    /** `Apply` for 8XY4 and 8XYE. */
    method ApplyAddAndShiftLeft(ins: Op.Instr, env: S.Env) returns (fault: Option<S.Fault>)
      requires Valid() && (ins.Add? || ins.ShiftLeft?)
      modifies this, ram, v
      ensures Outcome(S.ApplyAddAndShiftLeft(old(Abs()), ins, env), fault)
    {
      fault := None;
      match ins
      case Add(x, y) => Add(S.RegOf(x), S.RegOf(y));
      case ShiftLeft(x) => ShiftLeft(S.RegOf(x));
    }

    /** `Apply` for 8XY5, 8XY6 and 8XY7. */
    method ApplySubAndShiftRight(ins: Op.Instr, env: S.Env) returns (fault: Option<S.Fault>)
      requires Valid() && (ins.Sub? || ins.ShiftRight? || ins.SubReversed?)
      modifies this, ram, v
      ensures Outcome(S.ApplySubAndShiftRight(old(Abs()), ins, env), fault)
    {
      fault := None;
      match ins
      case Sub(x, y) => fault := Sub(S.RegOf(x), S.RegOf(y));
      case ShiftRight(x) => ShiftRight(S.RegOf(x));
      case SubReversed(x, y) => fault := SubReversed(S.RegOf(x), S.RegOf(y));
    }

    /** `Apply` for the handlers that set I. */
    method ApplyIndex(ins: Op.Instr, env: S.Env) returns (fault: Option<S.Fault>)
      requires Valid() && (ins.SetIndex? || ins.AddToIndex? || ins.SpriteAddress?)
      modifies this, ram, v
      ensures Outcome(S.ApplyIndex(old(Abs()), ins, env), fault)
    {
      fault := None;
      match ins
      case SetIndex(nnn) => SetIndex(S.AddrOf(nnn));
      case AddToIndex(x) => AddToIndex(S.RegOf(x));
      case SpriteAddress(x) => SpriteAddress(S.RegOf(x), env.spriteAddress);
    }

    /** `Apply` for the timer and key handlers. */
    method ApplyTimers(ins: Op.Instr, env: S.Env) returns (fault: Option<S.Fault>)
      requires Valid() && (ins.GetDelay? || ins.WaitKey? || ins.SetDelay? || ins.SetSound?)
      modifies this, ram, v
      ensures Outcome(S.ApplyTimers(old(Abs()), ins, env), fault)
    {
      fault := None;
      match ins
      case GetDelay(x) => GetDelay(S.RegOf(x));
      case WaitKey(x) => WaitKey(S.RegOf(x), env.pressedKey);
      case SetDelay(x) => SetDelay(S.RegOf(x));
      case SetSound(x) => SetSound(S.RegOf(x));
    }

    /** `Apply` for the handlers that read or write memory. */
    method ApplyMemory(ins: Op.Instr, env: S.Env) returns (fault: Option<S.Fault>)
      requires Valid() && (ins.Draw? || ins.StoreBcd? || ins.StoreRegisters? || ins.LoadRegisters?)
      modifies this, ram, v
      ensures Outcome(S.ApplyMemory(old(Abs()), ins, env), fault)
    {
      fault := None;
      match ins
      case Draw(x, y, n) => fault := Draw(S.RegOf(x), S.RegOf(y), S.NibbleOf(n));
      case StoreBcd(x) => fault := StoreBcd(S.RegOf(x));
      case StoreRegisters(x) => fault := StoreRegisters(S.RegOf(x));
      case LoadRegisters(x) => fault := LoadRegisters(S.RegOf(x));
    }

    /** One handler call of `execute_opcode`. */
    method Apply(ins: Op.Instr, env: S.Env) returns (fault: Option<S.Fault>)
      requires Valid()
      modifies this, ram, v
      ensures Outcome(S.Apply(old(Abs()), ins, env), fault)
    {
      if ins.Sys? || ins.Clear? || ins.Return? {
        fault := ApplyGroup0(ins, env);
      } else if ins.Jump? || ins.Call? || ins.JumpOffset? {
        fault := ApplyJumps(ins, env);
      } else if ins.SkipIfEqual? || ins.SkipIfNotEqual? || ins.SkipIfRegsEqual? {
        fault := ApplyValueSkips(ins, env);
      } else if ins.SkipIfRegsNotEqual? || ins.SkipIfKey? || ins.SkipIfNotKey? {
        fault := ApplyOtherSkips(ins, env);
      } else if ins.SetImmediate? || ins.AddImmediate? || ins.Random? || ins.Copy? {
        fault := ApplyLoads(ins, env);
      } else if ins.Or? || ins.And? || ins.Xor? {
        fault := ApplyLogic(ins, env);
      } else if ins.Add? || ins.ShiftLeft? {
        fault := ApplyAddAndShiftLeft(ins, env);
      } else if ins.Sub? || ins.ShiftRight? || ins.SubReversed? {
        fault := ApplySubAndShiftRight(ins, env);
      } else if ins.SetIndex? || ins.AddToIndex? || ins.SpriteAddress? {
        fault := ApplyIndex(ins, env);
      } else if ins.GetDelay? || ins.WaitKey? || ins.SetDelay? || ins.SetSound? {
        fault := ApplyTimers(ins, env);
      } else {
        fault := ApplyMemory(ins, env);
      }
    }

    /**
     * `execute_opcode`: the decoded handlers in order. 00E0 and 00EE make a
     * second call, to op1; the first panic ends the opcode.
     */
    method ExecuteOpcode(w: Op.Word, env: S.Env) returns (fault: Option<S.Fault>)
      requires Valid()
      modifies this, ram, v
      ensures Outcome(S.ExecuteOpcode(old(Abs()), w, env), fault)
    {
      var decoded := Op.Decode(w);
      if decoded.None? {
        return Some(S.UnknownOpcode(w));
      }
      var instrs := decoded.value;
      ghost var s0 := Abs();
      assert S.ExecuteOpcode(s0, w, env) == S.ApplyAll(s0, instrs, env);
      fault := Apply(instrs[0], env);
      if fault.Some? {
        assert S.Apply(s0, instrs[0], env) == Err(fault.value);
        assert S.ApplyAll(s0, instrs, env) == Err(fault.value);
        return;
      }
      ghost var s1 := Abs();
      assert S.ApplyAll(s0, instrs, env) == S.ApplyAll(s1, instrs[1..], env);
      if |instrs| == 2 {
        ghost var rest := instrs[1..];
        assert rest[1..] == [];
        assert S.ApplyAll(s1, rest, env) == S.Apply(s1, instrs[1], env) by {
          match S.Apply(s1, rest[0], env)
          case Err(_) =>
          case Ok(s2) => assert S.ApplyAll(s2, rest[1..], env) == Ok(s2);
        }
        fault := Apply(instrs[1], env);
      } else {
        assert instrs[1..] == [];
        assert S.ApplyAll(s1, [], env) == Ok(s1);
      }
    }

    /** `execute_current_operation`: fetch, then execute. */
    method ExecuteCurrentOperation(env: S.Env) returns (fault: Option<S.Fault>)
      requires Valid()
      modifies this, ram, v
      ensures match S.Fetch(old(Abs()))
        case Err(f) => fault == Some(f)
        case Ok(w) => Outcome(S.ExecuteOpcode(old(Abs()), w, env), fault)
    {
      var opcode := GetOpcode();
      if opcode.Err? {
        return Some(opcode.error);
      }
      fault := ExecuteOpcode(opcode.value, env);
    }

    /** One pass of the loop in `run`. */
    method Tick(env: S.Env) returns (fault: Option<S.Fault>)
      requires Valid()
      modifies this, ram, v
      ensures Outcome(S.Tick(old(Abs()), env), fault)
    {
      fault := None;
      ghost var s0 := Abs();
      if isOn {
        oldPc := pc;
        fault := ExecuteCurrentOperation(env);
        if fault.Some? {
          return;
        }
        TickExecuted(s0, env, Abs());
        AdvanceAndCountdown();
      }
      engine := engine + [S.FlushCall];
    }

    /** A running tick whose opcode executed without a panic ends with `EndTick`. */
    static lemma TickExecuted(s0: S.State, env: S.Env, s2: S.State)
      requires S.Valid(s0) && s0.isOn
      requires match S.Fetch(s0.(oldPc := s0.pc))
        case Err(_) => false
        case Ok(w) => S.ExecuteOpcode(s0.(oldPc := s0.pc), w, env) == Ok(s2)
      ensures S.Tick(s0, env) == Ok(S.EndTick(s2))
    {
    }

    /**
     * The rest of a running tick: advance `pc`, switch off when it is back
     * where the tick started, count the timers down. With the flush that
     * follows, this is `Chip8Spec.EndTick`.
     */
    method AdvanceAndCountdown()
      requires Valid()
      modifies this
      ensures Valid()
      ensures S.Flush(Abs()) == S.EndTick(old(Abs()))
    {
      NextOperation();
      if oldPc == pc {
        isOn := false;
      }
      TimerCountdown();
    }

    /**
     * `run`: start the engine, then one tick per element of `envs`, the
     * world the engine reports while it is running. The first panic ends
     * the run.
     */
    method Run(envs: seq<S.Env>) returns (fault: Option<S.Fault>)
      requires Valid()
      modifies this, ram, v
      ensures Outcome(S.Run(old(Abs()), envs), fault)
    {
      engine := engine + [S.InitCall];
      ghost var s0 := Abs();
      var k := 0;
      while k < |envs|
        invariant 0 <= k <= |envs|
        invariant S.RunTicks(s0, envs[..k]) == Ok(Abs())
      {
        ghost var sk := Abs();
        assert S.RunTicks(s0, envs[..k + 1]) == S.Tick(sk, envs[k]) by {
          assert envs[..k + 1][..k] == envs[..k];
        }
        fault := Tick(envs[k]);
        if fault.Some? {
          P.RunTicksStops(s0, envs, k + 1);
          return;
        }
        k := k + 1;
      }
      assert envs[..k] == envs;
      fault := None;
    }

    /**
     * The copy loop of `read`: byte `k` of the ROM goes to `0x200 + k`; a
     * ROM too long for the memory panics on the first write past it.
     */
    method Read(rom: seq<Byte>) returns (fault: Option<S.Fault>)
      requires Valid()
      modifies ram
      ensures Outcome(S.Read(old(Abs()), rom), fault)
    {
      var addr := S.OFFSET_USABLE_MEM;
      var k := 0;
      while k < |rom|
        invariant 0 <= k <= |rom| && addr == S.OFFSET_USABLE_MEM + k
        invariant addr <= S.RAM_SIZE
        invariant forall a :: 0 <= a < S.RAM_SIZE ==>
          ram[a] == if S.OFFSET_USABLE_MEM <= a < addr then rom[a - S.OFFSET_USABLE_MEM] else old(ram[a])
      {
        if addr >= S.RAM_SIZE {
          return Some(S.IndexOutOfBounds);
        }
        ram[addr] := rom[k];
        addr := addr + 1;
        k := k + 1;
      }
      fault := None;
      P.ReadPlacesRom(old(Abs()), rom);
      assert ram[..] == S.Read(old(Abs()), rom).value.ram;
    }
  }
}
