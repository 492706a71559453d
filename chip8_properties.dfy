/**
 * What the interpreter of `src/chip8.rs` guarantees, stated about the
 * functions of module Chip8Spec: the arithmetic of the handlers with their
 * flag and overflow behaviour, the memory handlers and their round trips,
 * the effect of one tick on `pc`, on the power state and on the timers,
 * and two facts about whole runs.
 */
module Chip8Properties {
  import opened Bits
  import opened Wrappers
  import Op = OpCode
  import opened Chip8Spec

  /** Every register other than those in `written` is the same in `r` as in `s`. */
  predicate OthersUnchanged(s: State, r: State, written: set<int>)
    requires Valid(s) && Valid(r)
  {
    forall k :: 0 <= k < REGISTER_SIZE && k !in written ==> r.v[k] == s.v[k]
  }

  // ---------------------------------------------------------------------
  // Construction and timers
  // ---------------------------------------------------------------------

  /**
   * `Chip8::new`: memory, registers, I and the timers are 0, `pc` is 0x200,
   * the machine is on and unblocked, and the stack holds 16 zeros rather
   * than nothing.
   */
  lemma NewState()
    ensures var s := New();
      && (forall a :: 0 <= a < RAM_SIZE ==> s.ram[a] == 0)
      && (forall k :: 0 <= k < REGISTER_SIZE ==> s.v[k] == 0)
      && s.i == 0 && s.delayTimer == 0 && s.soundTimer == 0
      && |s.stack| == STACK_SIZE && (forall k :: 0 <= k < STACK_SIZE ==> s.stack[k] == 0)
      && s.pc == OFFSET_USABLE_MEM && s.isOn && !s.isPcBlocked && s.engine == []
  {
  }

  /** A timer after `k` countdown steps. */
  function CountdownTimes(t: Byte, k: nat): Byte
  {
    if k == 0 then t else Countdown(CountdownTimes(t, k - 1))
  }

  /** After `k` steps a timer has gone down by `k`, stopping at 0. */
  lemma {:induction false} CountdownTimesValue(t: Byte, k: nat)
    ensures CountdownTimes(t, k) == if t >= k then t - k else 0
  {
    if k > 0 {
      CountdownTimesValue(t, k - 1);
    }
  }

  // ---------------------------------------------------------------------
  // Arithmetic handlers
  // ---------------------------------------------------------------------

  /**
   * 7XNN adds modulo 255, not 256: VX never becomes 0xFF, and the sum
   * loses 255 for each time it reaches 255.
   */
  lemma AddImmediateModulo255(s: State, x: RegIndex, nn: Byte)
    requires Valid(s)
    ensures var r := AddImmediate(s, x, nn); var sum: int := V(s, x) + nn;
      && V(r, x) != 0xFF
      && V(r, x) == (if sum < 0xFF then sum else if sum < 2 * 0xFF then sum - 0xFF else 0)
      && OthersUnchanged(s, r, {x})
  {
  }

  /**
   * 8XY4 with X and Y other than F: VF is the carry out of 8 bits, and VX
   * is the sum with 255 taken off for each time it reaches 255.
   */
  lemma AddCarry(s: State, x: RegIndex, y: RegIndex)
    requires Valid(s) && x != VF && y != VF
    ensures var r := Add(s, x, y); var sum: int := V(s, x) + V(s, y);
      && V(r, VF) == (if sum > 0xFF then 1 else 0)
      && V(r, x) == (if sum < 0xFF then sum else if sum < 2 * 0xFF then sum - 0xFF else 0)
      && OthersUnchanged(s, r, {x, VF})
  {
  }

  /**
   * 8XY4 with F as an operand: the carry is written to VF before the sum is
   * taken, so the sum reads the carry in place of the old VF, and when X is
   * F the sum overwrites the carry.
   */
  lemma AddWithFlagOperand(s: State, x: RegIndex, y: RegIndex)
    requires Valid(s) && (x == VF || y == VF)
    ensures var r := Add(s, x, y); var c := if V(s, x) + V(s, y) > 0xFF then 1 else 0;
      && (x == VF ==> V(r, VF) == (c + (if y == VF then c else V(s, y))) % 0xFF)
      && (x != VF ==> V(r, VF) == c && V(r, x) == (V(s, x) + c) % 0xFF)
      && OthersUnchanged(s, r, {x, VF})
  {
  }

  /** 8XY5 with X and Y other than F and VX < VY: VF is 0 and VX is VX + 255 - VY. */
  lemma SubWithBorrow(s: State, x: RegIndex, y: RegIndex)
    requires Valid(s) && x != VF && y != VF && V(s, x) < V(s, y)
    ensures Sub(s, x, y) == Ok(SetV(SetV(s, VF, 0), x, V(s, x) + 0xFF - V(s, y)))
  {
  }

  /** 8XY5 with X and Y other than F and VX >= VY: VF is 1 and VX is VX - VY. */
  lemma SubWithoutBorrow(s: State, x: RegIndex, y: RegIndex)
    requires Valid(s) && x != VF && y != VF && V(s, x) >= V(s, y)
    ensures Sub(s, x, y) == Ok(SetV(SetV(s, VF, 1), x, V(s, x) - V(s, y)))
  {
  }

  /**
   * 8XY5 with X and Y other than F never panics: VF is 1 when there is no
   * borrow and 0 when there is, and on a borrow VX is VX + 255 - VY
   * instead of the 8-bit difference.
   */
  lemma SubBorrow(s: State, x: RegIndex, y: RegIndex)
    requires Valid(s) && x != VF && y != VF
    ensures Sub(s, x, y).Ok?
    ensures var r := Sub(s, x, y).value; var a, b := V(s, x), V(s, y);
      && V(r, VF) == (if a < b then 0 else 1)
      && V(r, x) == (if a < b then a + 0xFF - b else a - b)
      && OthersUnchanged(s, r, {x, VF})
  {
    if V(s, x) < V(s, y) {
      SubWithBorrow(s, x, y);
    } else {
      SubWithoutBorrow(s, x, y);
    }
  }

  /**
   * 8XF5, subtracting VF: the flag is written before it is read, so the
   * handler panics exactly when VX is non-zero and below VF, or when both
   * are 0.
   */
  lemma SubFlagOverflows(s: State, x: RegIndex)
    requires Valid(s) && x != VF
    ensures Sub(s, x, VF).Err? <==> (V(s, x) != 0 && V(s, x) < V(s, VF)) || (V(s, x) == 0 && V(s, VF) == 0)
  {
  }

  /** 8XY6 with X other than F: VF is the low bit of VX, and VX is halved. */
  lemma ShiftRightHalves(s: State, x: RegIndex)
    requires Valid(s) && x != VF
    ensures var r := ShiftRight(s, x); var a := V(s, x);
      && V(r, VF) == a % 2
      && V(r, x) == a / 2
      && OthersUnchanged(s, r, {x, VF})
  {
    AndOne(V(s, x), 8);
  }

  /**
   * 8XY7 with X and Y other than F panics exactly when VX > VY; otherwise
   * VF is always 1 and VX is VY - VX.
   */
  lemma SubReversedPanics(s: State, x: RegIndex, y: RegIndex)
    requires Valid(s) && x != VF && y != VF
    ensures SubReversed(s, x, y).Err? <==> V(s, x) > V(s, y)
    ensures SubReversed(s, x, y).Ok? ==>
      var r := SubReversed(s, x, y).value;
      && V(r, VF) == 1
      && V(r, x) == V(s, y) - V(s, x)
      && OthersUnchanged(s, r, {x, VF})
  {
  }

  /**
   * 8XYE with X other than F: VF is 0x80, not 1, when the top bit of VX is
   * set and 0 otherwise, and VX is doubled modulo 256.
   */
  lemma ShiftLeftFlag(s: State, x: RegIndex)
    requires Valid(s) && x != VF
    ensures var r := ShiftLeft(s, x); var a := V(s, x);
      && V(r, VF) == (if a >= 0x80 then 0x80 else 0)
      && V(r, x) == (a * 2) % 256
      && OthersUnchanged(s, r, {x, VF})
  {
    AndTopBit(V(s, x));
  }

  /** 8FY6 and 8FYE shift the flag register into 0: the shifted-out bit is lost. */
  lemma ShiftOnFlagClearsIt(s: State)
    requires Valid(s)
    ensures V(ShiftRight(s, VF), VF) == 0
    ensures V(ShiftLeft(s, VF), VF) == 0
  {
    AndOne(V(s, VF), 8);
    AndTopBit(V(s, VF));
  }

  /** CXNN masks the random byte with NN, so VX never exceeds NN and is never 0xFF. */
  lemma RandomMasked(s: State, x: RegIndex, nn: Byte, rnd: RandomByte)
    requires Valid(s)
    ensures var r := Random(s, x, nn, rnd);
      && V(r, x) <= nn
      && V(r, x) <= rnd < 0xFF
      && OthersUnchanged(s, r, {x})
  {
    AndBounded(nn, rnd, 8);
  }

  // ---------------------------------------------------------------------
  // Memory handlers
  // ---------------------------------------------------------------------

  /**
   * FX33 panics unless I + 2 is an address; otherwise the three bytes at
   * I are the decimal digits of VX, most significant first, and nothing
   * else in memory changes.
   */
  lemma StoreBcdDigits(s: State, x: RegIndex)
    requires Valid(s)
    ensures StoreBcd(s, x).Ok? <==> s.i + 2 < RAM_SIZE
    ensures StoreBcd(s, x).Ok? ==>
      var r := StoreBcd(s, x).value; var d0, d1, d2 := r.ram[s.i], r.ram[s.i + 1], r.ram[s.i + 2];
      && d0 < 10 && d1 < 10 && d2 < 10
      && d0 * 100 + d1 * 10 + d2 == V(s, x)
      && (forall a :: 0 <= a < RAM_SIZE && !(s.i <= a <= s.i + 2) ==> r.ram[a] == s.ram[a])
      && r.v == s.v && r.i == s.i
  {

  }

  /**
   * FX55 panics exactly when X > 0 and I + X is past the end of memory;
   * otherwise it copies V0 .. V(X-1) to I .. I + X - 1 and nothing else:
   * VX is not stored, and the registers and I are unchanged.
   */
  lemma StoreRegistersCopies(s: State, x: RegIndex)
    requires Valid(s)
    ensures StoreRegisters(s, x).Err? <==> x != 0 && s.i + x > RAM_SIZE
    ensures StoreRegisters(s, x).Ok? ==>
      var r := StoreRegisters(s, x).value;
      && (forall k :: 0 <= k < x ==> r.ram[s.i + k] == s.v[k])
      && (forall a :: 0 <= a < RAM_SIZE && !(s.i <= a < s.i + x) ==> r.ram[a] == s.ram[a])
      && (s.i + x < RAM_SIZE ==> r.ram[s.i + x] == s.ram[s.i + x])
      && r.v == s.v && r.i == s.i
  {
  }

  /**
   * FX65 panics exactly when X > 0 and I + X is past the end of memory;
   * otherwise V0 .. V(X-1) are loaded from I .. I + X - 1 and VX .. VF
   * keep their values.
   */
  lemma LoadRegistersCopies(s: State, x: RegIndex)
    requires Valid(s)
    ensures LoadRegisters(s, x).Err? <==> x != 0 && s.i + x > RAM_SIZE
    ensures LoadRegisters(s, x).Ok? ==>
      var r := LoadRegisters(s, x).value;
      && (forall k :: 0 <= k < x ==> r.v[k] == s.ram[s.i + k])
      && (forall k :: x <= k < REGISTER_SIZE ==> r.v[k] == s.v[k])
      && r.ram == s.ram && r.i == s.i
  {
  }

  /** Loading the registers just stored at the same I changes nothing. */
  lemma StoreThenLoad(s: State, x: RegIndex)
    requires Valid(s) && StoreRegisters(s, x).Ok?
    ensures var t := StoreRegisters(s, x).value; LoadRegisters(t, x) == Ok(t)
  {
    var t := StoreRegisters(s, x).value;
    var loaded := LoadRegisters(t, x).value;
    assert loaded.v == t.v by {
      forall k | 0 <= k < REGISTER_SIZE
        ensures loaded.v[k] == t.v[k]
      {
        if k < x {
          assert t.ram[s.i + k] == s.v[k];
        }
      }
    }
  }

  /** Storing the registers just loaded from the same I changes nothing. */
  lemma LoadThenStore(s: State, x: RegIndex)
    requires Valid(s) && LoadRegisters(s, x).Ok?
    ensures var t := LoadRegisters(s, x).value; StoreRegisters(t, x) == Ok(t)
  {
    var t := LoadRegisters(s, x).value;
    var stored := StoreRegisters(t, x).value;
    assert stored.ram == t.ram by {
      forall a | 0 <= a < RAM_SIZE
        ensures stored.ram[a] == t.ram[a]
      {
        if s.i <= a < s.i + x {
          assert t.v[a - s.i] == s.ram[a];
        }
      }
    }
  }

  /**
   * DXYN panics unless the N + 1 bytes from I are in memory; otherwise it
   * hands exactly those bytes and VX, VY to the engine and changes no
   * register, so VF is not a collision flag.
   */
  lemma DrawSprite(s: State, x: RegIndex, y: RegIndex, n: nat)
    requires Valid(s)
    ensures Draw(s, x, y, n).Ok? <==> s.i + n < RAM_SIZE
    ensures Draw(s, x, y, n).Ok? ==>
      var r := Draw(s, x, y, n).value;
      && |r.engine| == |s.engine| + 1
      && r.engine[..|s.engine|] == s.engine
      && r.engine[|s.engine|].DrawCall?
      && r.engine[|s.engine|].x == V(s, x) && r.engine[|s.engine|].y == V(s, y)
      && |r.engine[|s.engine|].sprite| == n + 1
      && (forall k :: 0 <= k <= n ==> r.engine[|s.engine|].sprite[k] == s.ram[s.i + k])
      && r.v == s.v && r.ram == s.ram && r.i == s.i
  {
  }

  /**
   * `read` panics when the ROM does not fit above 0x200; otherwise the ROM
   * lies at 0x200 onwards and the rest of memory is unchanged.
   */
  lemma ReadPlacesRom(s: State, rom: seq<Byte>)
    requires Valid(s)
    ensures Read(s, rom).Ok? <==> |rom| <= RAM_SIZE - OFFSET_USABLE_MEM
    ensures Read(s, rom).Ok? ==>
      var r := Read(s, rom).value;
      && |r.ram| == RAM_SIZE
      && (forall k :: 0 <= k < |rom| ==> r.ram[OFFSET_USABLE_MEM + k] == rom[k])
      && (forall a :: 0 <= a < RAM_SIZE && !(OFFSET_USABLE_MEM <= a < OFFSET_USABLE_MEM + |rom|) ==>
            r.ram[a] == s.ram[a])
      && r.v == s.v && r.pc == s.pc
  {
  }

  // ---------------------------------------------------------------------
  // Frames of the handlers
  // ---------------------------------------------------------------------

  /** The handlers that move `pc` past the next instruction on a condition. */
  predicate IsSkip(ins: Op.Instr)
  {
    ins.SkipIfEqual? || ins.SkipIfNotEqual? || ins.SkipIfRegsEqual? || ins.SkipIfRegsNotEqual?
    || ins.SkipIfKey? || ins.SkipIfNotKey?
  }

  /** The handlers that set `pc` themselves. */
  predicate IsJump(ins: Op.Instr)
  {
    ins.Jump? || ins.Call? || ins.JumpOffset?
  }

  /** A handler outside group 0 that neither jumps nor skips. */
  predicate Sequential(ins: Op.Instr)
  {
    Op.Plain(ins) && !IsJump(ins) && !IsSkip(ins)
  }

  /**
   * What a handler keeps: it leaves `oldPc` alone and only op1 switches
   * the machine off; only op3 can underflow or shorten the stack; a
   * sequential handler keeps `pc`, the stack, the block flag and every
   * timer it does not set.
   */
  predicate Effects(s: State, ins: Op.Instr, r: Result<State, Fault>)
  {
    && (r.Ok? ==> r.value.oldPc == s.oldPc && r.value.isOn == (s.isOn && !ins.Sys?))
    && (!ins.Return? ==> r != Err(StackUnderflow) && (r.Ok? ==> |r.value.stack| >= |s.stack|))
    && (Sequential(ins) && r.Ok? ==>
          && r.value.pc == s.pc && r.value.stack == s.stack && r.value.isPcBlocked == s.isPcBlocked
          && (!ins.SetDelay? ==> r.value.delayTimer == s.delayTimer)
          && (!ins.SetSound? ==> r.value.soundTimer == s.soundTimer))
  }

  /** `Effects` for the three handlers of group 0. */
  lemma EffectsOfGroup0(s: State, ins: Op.Instr, env: Env)
    requires Valid(s) && (ins.Sys? || ins.Clear? || ins.Return?)
    ensures Effects(s, ins, ApplyGroup0(s, ins, env))
    ensures (ins.Sys? || ins.Clear?) ==> ApplyGroup0(s, ins, env).Ok?
  {
  }

  /** `Effects` for the jumps. */
  lemma EffectsOfJumps(s: State, ins: Op.Instr, env: Env)
    requires Valid(s) && (ins.Jump? || ins.Call? || ins.JumpOffset?)
    ensures Effects(s, ins, ApplyJumps(s, ins, env))
  {
  }

  /** `Effects` for the skips on a register value. */
  lemma EffectsOfValueSkips(s: State, ins: Op.Instr, env: Env)
    requires Valid(s) && (ins.SkipIfEqual? || ins.SkipIfNotEqual? || ins.SkipIfRegsEqual?)
    ensures Effects(s, ins, ApplyValueSkips(s, ins, env))
  {
  }

  /** `Effects` for the other skips. */
  lemma EffectsOfOtherSkips(s: State, ins: Op.Instr, env: Env)
    requires Valid(s) && (ins.SkipIfRegsNotEqual? || ins.SkipIfKey? || ins.SkipIfNotKey?)
    ensures Effects(s, ins, ApplyOtherSkips(s, ins, env))
  {
  }

  /** `Effects` for the register loads. */
  lemma EffectsOfLoads(s: State, ins: Op.Instr, env: Env)
    requires Valid(s) && (ins.SetImmediate? || ins.AddImmediate? || ins.Random? || ins.Copy?)
    ensures Effects(s, ins, ApplyLoads(s, ins, env))
  {
  }

  /** `Effects` for the bitwise handlers. */
  lemma EffectsOfLogic(s: State, ins: Op.Instr, env: Env)
    requires Valid(s) && (ins.Or? || ins.And? || ins.Xor?)
    ensures Effects(s, ins, ApplyLogic(s, ins, env))
  {
  }

  /** `Effects` for 8XY4 and 8XYE. */
  lemma EffectsOfAddAndShiftLeft(s: State, ins: Op.Instr, env: Env)
    requires Valid(s) && (ins.Add? || ins.ShiftLeft?)
    ensures Effects(s, ins, ApplyAddAndShiftLeft(s, ins, env))
  {
  }

  /** `Effects` for 8XY5, 8XY6 and 8XY7. */
  lemma EffectsOfSubAndShiftRight(s: State, ins: Op.Instr, env: Env)
    requires Valid(s) && (ins.Sub? || ins.ShiftRight? || ins.SubReversed?)
    ensures Effects(s, ins, ApplySubAndShiftRight(s, ins, env))
  {
    match ins
    case Sub(x, y) =>
    case ShiftRight(x) =>
    case SubReversed(x, y) =>
  }

  /** `Effects` for the handlers that set I. */
  lemma EffectsOfIndex(s: State, ins: Op.Instr, env: Env)
    requires Valid(s) && (ins.SetIndex? || ins.AddToIndex? || ins.SpriteAddress?)
    ensures Effects(s, ins, ApplyIndex(s, ins, env))
  {
  }

  /** `Effects` for the timer and key handlers. */
  lemma EffectsOfTimers(s: State, ins: Op.Instr, env: Env)
    requires Valid(s) && (ins.GetDelay? || ins.WaitKey? || ins.SetDelay? || ins.SetSound?)
    ensures Effects(s, ins, ApplyTimers(s, ins, env))
  {
  }

  /** `Effects` for the handlers that read or write memory. */
  lemma EffectsOfMemory(s: State, ins: Op.Instr, env: Env)
    requires Valid(s) && (ins.Draw? || ins.StoreBcd? || ins.StoreRegisters? || ins.LoadRegisters?)
    ensures Effects(s, ins, ApplyMemory(s, ins, env))
  {
  }

  /** Every handler has the `Effects`. */
  lemma ApplyEffects(s: State, ins: Op.Instr, env: Env)
    requires Valid(s)
    ensures Effects(s, ins, Apply(s, ins, env))
  {
    if ins.Sys? || ins.Clear? || ins.Return? {
      EffectsOfGroup0(s, ins, env);
    } else if ins.Jump? || ins.Call? || ins.JumpOffset? {
      EffectsOfJumps(s, ins, env);
    } else if ins.SkipIfEqual? || ins.SkipIfNotEqual? || ins.SkipIfRegsEqual? {
      EffectsOfValueSkips(s, ins, env);
    } else if ins.SkipIfRegsNotEqual? || ins.SkipIfKey? || ins.SkipIfNotKey? {
      EffectsOfOtherSkips(s, ins, env);
    } else if ins.SetImmediate? || ins.AddImmediate? || ins.Random? || ins.Copy? {
      EffectsOfLoads(s, ins, env);
    } else if ins.Or? || ins.And? || ins.Xor? {
      EffectsOfLogic(s, ins, env);
    } else if ins.Add? || ins.ShiftLeft? {
      EffectsOfAddAndShiftLeft(s, ins, env);
    } else if ins.Sub? || ins.ShiftRight? || ins.SubReversed? {
      EffectsOfSubAndShiftRight(s, ins, env);
    } else if ins.SetIndex? || ins.AddToIndex? || ins.SpriteAddress? {
      EffectsOfIndex(s, ins, env);
    } else if ins.GetDelay? || ins.WaitKey? || ins.SetDelay? || ins.SetSound? {
      EffectsOfTimers(s, ins, env);
    } else {
      EffectsOfMemory(s, ins, env);
    }
  }

  /** No handler touches `oldPc`, and only op1 switches the machine off. */
  lemma ApplyFrame(s: State, ins: Op.Instr, env: Env)
    requires Valid(s) && Apply(s, ins, env).Ok?
    ensures Apply(s, ins, env).value.oldPc == s.oldPc
    ensures Apply(s, ins, env).value.isOn == (s.isOn && !ins.Sys?)
  {
    ApplyEffects(s, ins, env);
  }

  /** A sequence of handlers leaves `oldPc` alone and switches the machine off iff it holds op1. */
  lemma {:induction false} ApplyAllFrame(s: State, instrs: seq<Op.Instr>, env: Env)
    requires Valid(s) && ApplyAll(s, instrs, env).Ok?
    ensures ApplyAll(s, instrs, env).value.oldPc == s.oldPc
    ensures ApplyAll(s, instrs, env).value.isOn == (s.isOn && forall k :: 0 <= k < |instrs| ==> !instrs[k].Sys?)
    decreases |instrs|
  {
    if instrs != [] {
      ApplyFrame(s, instrs[0], env);
      var s1 := Apply(s, instrs[0], env).value;
      ApplyAllFrame(s1, instrs[1..], env);
      assert forall k :: 1 <= k < |instrs| ==> instrs[k] == instrs[1..][k - 1];
    }
  }

  /**
   * A sequential handler leaves `pc`, the stack and the block flag alone,
   * and the timers unless it is the one that writes them.
   */
  lemma ApplySequential(s: State, ins: Op.Instr, env: Env)
    requires Valid(s) && Sequential(ins) && Apply(s, ins, env).Ok?
    ensures var r := Apply(s, ins, env).value;
      && r.pc == s.pc && r.stack == s.stack && r.isPcBlocked == s.isPcBlocked
      && (!ins.SetDelay? ==> r.delayTimer == s.delayTimer)
      && (!ins.SetSound? ==> r.soundTimer == s.soundTimer)
  {
    ApplyEffects(s, ins, env);
  }

  // ---------------------------------------------------------------------
  // One tick
  // ---------------------------------------------------------------------

  /** A tick of a machine that is off only flushes the engine. */
  lemma TickWhenOff(s: State, env: Env)
    requires Valid(s) && !s.isOn
    ensures Tick(s, env) == Ok(s.(engine := s.engine + [FlushCall]))
  {
  }

  /** The end of a tick unblocks `pc`, keeps `oldPc`, and halts when `pc` is back at `oldPc`. */
  lemma EndTickFrame(s: State)
    ensures !EndTick(s).isPcBlocked && EndTick(s).oldPc == s.oldPc
    ensures EndTick(s).isOn <==> s.isOn && EndTick(s).pc != s.oldPc
  {
  }

  /**
   * After a tick of a running machine `pc` is never blocked, `oldPc` is the
   * `pc` the tick started from, and the machine is still on exactly when
   * `pc` moved and the word was not of group 0 (every group-0 word calls
   * op1, which switches the machine off).
   */
  lemma TickRunning(s: State, env: Env)
    requires Valid(s) && s.isOn && Tick(s, env).Ok?
    ensures Fetch(s).Ok?
    ensures var r := Tick(s, env).value;
      && !r.isPcBlocked
      && r.oldPc == s.pc
      && (r.isOn <==> r.pc != s.pc && Op.Group(Fetch(s).value) != 0)
  {
    var s1 := s.(oldPc := s.pc);
    assert Fetch(s1) == Fetch(s);
    var w := Fetch(s).value;
    var instrs := Op.Decode(w).value;
    var s2 := ApplyAll(s1, instrs, env).value;
    assert Tick(s, env) == Ok(EndTick(s2));
    ApplyAllFrame(s1, instrs, env);
    EndTickFrame(s2);
    if Op.Group(w) == 0 {
      Op.GroupZeroEndsInSys(w);
      assert instrs[|instrs| - 1].Sys?;
    } else {
      Op.DecodeOutsideGroupZero(w);
    }
  }

  /** A tick whose word decodes to one handler runs that handler and then ends the tick. */
  lemma TickOne(s: State, env: Env, ins: Op.Instr)
    requires Valid(s) && s.isOn && Fetch(s).Ok? && Op.Decode(Fetch(s).value) == Some([ins])
    ensures Tick(s, env) == match Apply(s.(oldPc := s.pc), ins, env)
      case Err(f) => Err(f)
      case Ok(s2) => Ok(EndTick(s2))
  {
    var s1 := s.(oldPc := s.pc);
    assert Fetch(s1) == Fetch(s);
    assert [ins][1..] == [];
    assert ApplyAll(s1, [ins], env) == Apply(s1, ins, env);
  }

  /**
   * A tick that runs a sequential handler from an unblocked `pc` moves to
   * the next instruction, keeps the machine on and the stack as it was,
   * and counts each timer down unless the handler wrote it.
   */
  lemma SequentialTick(s: State, env: Env, ins: Op.Instr)
    requires Valid(s) && s.isOn && !s.isPcBlocked && Sequential(ins)
    requires Fetch(s).Ok? && Op.Decode(Fetch(s).value) == Some([ins])
    requires Tick(s, env).Ok?
    ensures var r := Tick(s, env).value;
      && r.pc == s.pc + 2 && r.isOn && r.stack == s.stack
      && (!ins.SetDelay? ==> r.delayTimer == Countdown(s.delayTimer))
      && (!ins.SetSound? ==> r.soundTimer == Countdown(s.soundTimer))
  {
    var s1 := s.(oldPc := s.pc);
    TickOne(s, env, ins);
    ApplySequential(s1, ins, env);
    ApplyFrame(s1, ins, env);
    var s2 := Apply(s1, ins, env).value;
    assert Tick(s, env) == Ok(EndTick(s2));
  }

  /** Whether the condition of a skip handler holds. */
  predicate SkipTaken(s: State, ins: Op.Instr, env: Env)
    requires Valid(s) && IsSkip(ins)
  {
    match ins
    case SkipIfEqual(x, nn) => V(s, RegOf(x)) == ByteOf(nn)
    case SkipIfNotEqual(x, nn) => V(s, RegOf(x)) != ByteOf(nn)
    case SkipIfRegsEqual(x, y) => V(s, RegOf(x)) == V(s, RegOf(y))
    case SkipIfRegsNotEqual(x, y) => V(s, RegOf(x)) != V(s, RegOf(y))
    case SkipIfKey(x) => env.isKeyPressed(V(s, RegOf(x)))
    case SkipIfNotKey(x) => !env.isKeyPressed(V(s, RegOf(x)))
  }

  /** A skip handler moves `pc` past the next instruction exactly when its condition holds, and changes nothing else. */
  lemma ApplySkips(s: State, ins: Op.Instr, env: Env)
    requires Valid(s) && IsSkip(ins)
    ensures Apply(s, ins, env) == Ok(if SkipTaken(s, ins, env) then s.(pc := s.pc + 2) else s)
  {
    if ins.SkipIfEqual? || ins.SkipIfNotEqual? || ins.SkipIfRegsEqual? {
      assert Apply(s, ins, env) == ApplyValueSkips(s, ins, env);
    } else {
      assert Apply(s, ins, env) == ApplyOtherSkips(s, ins, env);
    }
  }

  /**
   * A tick that runs a skip handler from an unblocked `pc` never panics,
   * keeps the machine on, and moves `pc` by 4 when the condition holds and
   * by 2 otherwise.
   */
  lemma SkipTick(s: State, env: Env, ins: Op.Instr)
    requires Valid(s) && s.isOn && !s.isPcBlocked && IsSkip(ins)
    requires Fetch(s).Ok? && Op.Decode(Fetch(s).value) == Some([ins])
    ensures Tick(s, env).Ok?
    ensures var r := Tick(s, env).value;
      && r.pc == s.pc + (if SkipTaken(s, ins, env) then 4 else 2)
      && r.isOn && r.stack == s.stack
  {
    var s1 := s.(oldPc := s.pc);
    TickOne(s, env, ins);
    ApplySkips(s1, ins, env);
    assert SkipTaken(s1, ins, env) == SkipTaken(s, ins, env);
  }

  /** Ending a tick whose handler blocked `pc` leaves `pc` where the handler put it. */
  lemma EndTickBlocked(s: State)
    requires s.isPcBlocked
    ensures var r := EndTick(s);
      && r.pc == s.pc && !r.isPcBlocked && (r.isOn <==> s.isOn && s.oldPc != s.pc)
      && r.ram == s.ram && r.v == s.v && r.stack == s.stack
      && r.delayTimer == Countdown(s.delayTimer) && r.soundTimer == Countdown(s.soundTimer)
  {
  }

  lemma ApplyJump(s: State, nnn: Op.Addr, env: Env)
    requires Valid(s)
    ensures Apply(s, Op.Jump(nnn), env) == Ok(s.(pc := AddrOf(nnn), isPcBlocked := true))
  {
  }

  lemma ApplyCall(s: State, nnn: Op.Addr, env: Env)
    requires Valid(s)
    ensures Apply(s, Op.Call(nnn), env) == Ok(s.(stack := s.stack + [s.pc], pc := AddrOf(nnn), isPcBlocked := true))
  {
  }

  lemma ApplyJumpOffset(s: State, nnn: Op.Addr, env: Env)
    requires Valid(s)
    ensures Apply(s, Op.JumpOffset(nnn), env) == Ok(s.(pc := AddrOf(nnn) + V(s, 0), isPcBlocked := true))
  {
  }

  /**
   * A tick that runs 1NNN never panics and leaves `pc` at NNN, not after
   * it: the block flag cancels the advance. The machine stays on exactly
   * when NNN is not the jump's own address, so a jump to itself halts;
   * the timers count down on that tick all the same.
   */
  lemma JumpTick(s: State, env: Env, nnn: Op.Addr)
    requires Valid(s) && s.isOn
    requires Fetch(s).Ok? && Op.Decode(Fetch(s).value) == Some([Op.Jump(nnn)])
    ensures Tick(s, env).Ok?
    ensures var r := Tick(s, env).value;
      && r.pc == AddrOf(nnn) && (r.isOn <==> AddrOf(nnn) != s.pc)
      && !r.isPcBlocked && r.ram == s.ram && r.stack == s.stack
      && r.delayTimer == Countdown(s.delayTimer) && r.soundTimer == Countdown(s.soundTimer)
  {
    TickOne(s, env, Op.Jump(nnn));
    ApplyJump(s.(oldPc := s.pc), nnn, env);
    EndTickBlocked(s.(oldPc := s.pc, pc := AddrOf(nnn), isPcBlocked := true));
  }

  /**
   * A tick that runs 2NNN never panics, pushes the address of the call
   * itself and leaves `pc` at NNN; a call to itself halts.
   */
  lemma CallTick(s: State, env: Env, nnn: Op.Addr)
    requires Valid(s) && s.isOn
    requires Fetch(s).Ok? && Op.Decode(Fetch(s).value) == Some([Op.Call(nnn)])
    ensures Tick(s, env).Ok?
    ensures var r := Tick(s, env).value;
      && r.pc == AddrOf(nnn) && (r.isOn <==> AddrOf(nnn) != s.pc)
      && !r.isPcBlocked && r.ram == s.ram && r.stack == s.stack + [s.pc]
  {
    TickOne(s, env, Op.Call(nnn));
    ApplyCall(s.(oldPc := s.pc), nnn, env);
    EndTickBlocked(s.(oldPc := s.pc, stack := s.stack + [s.pc], pc := AddrOf(nnn), isPcBlocked := true));
  }

  /** A tick that runs BNNN never panics and leaves `pc` at NNN + V0. */
  lemma JumpOffsetTick(s: State, env: Env, nnn: Op.Addr)
    requires Valid(s) && s.isOn
    requires Fetch(s).Ok? && Op.Decode(Fetch(s).value) == Some([Op.JumpOffset(nnn)])
    ensures Tick(s, env).Ok?
    ensures var r := Tick(s, env).value;
      && r.pc == AddrOf(nnn) + V(s, 0) && (r.isOn <==> r.pc != s.pc)
      && !r.isPcBlocked && r.stack == s.stack
  {
    TickOne(s, env, Op.JumpOffset(nnn));
    ApplyJumpOffset(s.(oldPc := s.pc), nnn, env);
  }

  /**
   * 00E0 asks the engine to clear the screen and then, because the decoder
   * also calls op1 for it, switches the machine off.
   */
  lemma ClearHalts(s: State, env: Env)
    requires Valid(s) && s.isOn && !s.isPcBlocked && Fetch(s) == Ok(0x00E0)
    ensures Tick(s, env).Ok?
    ensures var r := Tick(s, env).value;
      && r.engine == s.engine + [ClearCall, FlushCall]
      && !r.isOn && r.pc == s.pc + 2
  {
    var s1 := s.(oldPc := s.pc);
    assert Fetch(s1) == Fetch(s);
    Op.GroupZeroEndsInSys(0x00E0);
    var instrs: seq<Op.Instr> := [Op.Clear, Op.Sys];
    assert instrs[1..] == [Op.Sys] && instrs[1..][1..] == [];
    var s2 := Chip8Spec.Sys(Chip8Spec.Clear(s1));
    assert ApplyAll(s1, instrs, env) == Ok(s2);
    assert s1.engine + [ClearCall] + [FlushCall] == s.engine + [ClearCall, FlushCall];
  }

  /**
   * 00EE on a non-empty stack pops the return address, moves past the call
   * it names, and then switches the machine off, because the decoder also
   * calls op1 for 00EE.
   */
  lemma ReturnTick(s: State, env: Env)
    requires Valid(s) && s.isOn && !s.isPcBlocked && Fetch(s) == Ok(0x00EE) && |s.stack| > 0
    ensures Tick(s, env).Ok?
    ensures var r := Tick(s, env).value;
      && r.pc == s.stack[|s.stack| - 1] + 2 && r.stack == s.stack[..|s.stack| - 1] && !r.isOn
  {
    var s1 := s.(oldPc := s.pc);
    assert Fetch(s1) == Fetch(s);
    Op.GroupZeroEndsInSys(0x00EE);
    var instrs: seq<Op.Instr> := [Op.Return, Op.Sys];
    assert instrs[1..] == [Op.Sys] && instrs[1..][1..] == [];
    var s2 := s1.(pc := s.stack[|s.stack| - 1], stack := s.stack[..|s.stack| - 1]);
    assert Chip8Spec.Return(s1) == Ok(s2);
    assert ApplyAll(s1, instrs, env) == Ok(Chip8Spec.Sys(s2));
  }

  /** The two bytes 00 EE at `pc` are fetched as the word 0x00EE. */
  lemma FetchReturn(s: State)
    requires Valid(s) && s.pc + 1 < RAM_SIZE && s.ram[s.pc] == 0x00 && s.ram[s.pc + 1] == 0xEE
    ensures Fetch(s) == Ok(0x00EE)
  {
  }

  /**
   * A call followed, at its target, by 00EE: the return lands on the
   * instruction after the call with the stack as it was before, and the
   * machine is off.
   */
  lemma CallThenReturn(s: State, e1: Env, e2: Env, nnn: Op.Addr)
    requires Valid(s) && s.isOn
    requires Fetch(s) == Ok(Op.Encode(Op.Call(nnn))) && AddrOf(nnn) != s.pc
    requires AddrOf(nnn) + 1 < RAM_SIZE && s.ram[AddrOf(nnn)] == 0x00 && s.ram[AddrOf(nnn) + 1] == 0xEE
    ensures Tick(s, e1).Ok?
    ensures Tick(Tick(s, e1).value, e2).Ok?
    ensures var r := Tick(Tick(s, e1).value, e2).value;
      r.pc == s.pc + 2 && r.stack == s.stack && !r.isOn
  {
    Op.DecodeEncode(Op.Call(nnn));
    CallTick(s, e1, nnn);
    ReturnToCaller(s, Tick(s, e1).value, e2);
  }

  /** The tick after a call to an 00EE: `t` is the state the call left. */
  lemma ReturnToCaller(s: State, t: State, env: Env)
    requires Valid(t) && t.isOn && !t.isPcBlocked && t.stack == s.stack + [s.pc]
    requires t.pc + 1 < RAM_SIZE && t.ram[t.pc] == 0x00 && t.ram[t.pc + 1] == 0xEE
    ensures Tick(t, env).Ok?
    ensures var r := Tick(t, env).value;
      r.pc == s.pc + 2 && r.stack == s.stack && !r.isOn
  {
    FetchReturn(t);
    ReturnTick(t, env);
    assert t.stack[..|t.stack| - 1] == s.stack;
  }


  // ---------------------------------------------------------------------
  // Whole runs
  // ---------------------------------------------------------------------

  /** A running machine holds at least the 16 entries the stack starts with. */
  predicate StackReady(s: State)
  {
    s.isOn ==> |s.stack| >= STACK_SIZE
  }

  /** Only op3 pops the stack: no other handler underflows it or makes it shorter. */
  lemma ApplyStack(s: State, ins: Op.Instr, env: Env)
    requires Valid(s) && !ins.Return?
    ensures Apply(s, ins, env) != Err(StackUnderflow)
    ensures Apply(s, ins, env).Ok? ==> |Apply(s, ins, env).value.stack| >= |s.stack|
  {
    ApplyEffects(s, ins, env);
  }

  /**
   * A tick of a group-0 word never underflows when the stack is ready: only
   * 00EE pops, and the stack has entries to pop. It leaves the machine off.
   */
  lemma GroupZeroTickPops(s: State, env: Env)
    requires Valid(s) && StackReady(s) && s.isOn && Fetch(s).Ok?
    requires Op.Group(Fetch(s).value) == 0
    ensures Tick(s, env) != Err(StackUnderflow)
    ensures Tick(s, env).Ok? ==> !Tick(s, env).value.isOn
  {
    var s1 := s.(oldPc := s.pc);
    assert Fetch(s1) == Fetch(s);
    var w := Fetch(s).value;
    Op.GroupZeroEndsInSys(w);
    if w == 0x00EE {
      var instrs: seq<Op.Instr> := [Op.Return, Op.Sys];
      assert instrs[1..] == [Op.Sys] && instrs[1..][1..] == [];
      assert Chip8Spec.Return(s1).Ok?;
    } else if w == 0x00E0 {
      var instrs: seq<Op.Instr> := [Op.Clear, Op.Sys];
      assert instrs[1..] == [Op.Sys] && instrs[1..][1..] == [];
    } else {
      var instrs: seq<Op.Instr> := [Op.Sys];
      assert instrs[1..] == [];
    }
    if Tick(s, env).Ok? {
      TickRunning(s, env);
    }
  }

  /**
   * A tick of a word outside group 0 never underflows and never shortens
   * the stack.
   */
  lemma PlainTickKeepsStack(s: State, env: Env)
    requires Valid(s) && s.isOn && Fetch(s).Ok?
    requires Op.Group(Fetch(s).value) != 0
    ensures Tick(s, env) != Err(StackUnderflow)
    ensures Tick(s, env).Ok? ==> |Tick(s, env).value.stack| >= |s.stack|
  {
    var s1 := s.(oldPc := s.pc);
    assert Fetch(s1) == Fetch(s);
    var w := Fetch(s).value;
    if Op.Decode(w).Some? {
      Op.DecodeOutsideGroupZero(w);
      var ins := Op.Decode(w).value[0];
      assert Op.Decode(w).value == [ins];
      TickOne(s, env, ins);
      ApplyStack(s1, ins, env);
    }
  }

  /**
   * A tick from a state whose stack is ready never underflows, and leaves a
   * state whose stack is ready: 00EE pops one entry, but also switches the
   * machine off.
   */
  lemma TickKeepsStackReady(s: State, env: Env)
    requires Valid(s) && StackReady(s)
    ensures Tick(s, env) != Err(StackUnderflow)
    ensures Tick(s, env).Ok? ==> StackReady(Tick(s, env).value)
  {
    if s.isOn && Fetch(s).Ok? {
      if Op.Group(Fetch(s).value) == 0 {
        GroupZeroTickPops(s, env);
      } else {
        PlainTickKeepsStack(s, env);
      }
    }
  }

  /** From a state whose stack is ready, no run of ticks underflows the stack. */
  lemma {:induction false} RunTicksKeepsStackReady(s: State, envs: seq<Env>)
    requires Valid(s) && StackReady(s)
    ensures RunTicks(s, envs) != Err(StackUnderflow)
    ensures RunTicks(s, envs).Ok? ==> StackReady(RunTicks(s, envs).value)
    decreases |envs|
  {
    if envs != [] {
      RunTicksKeepsStackReady(s, envs[..|envs| - 1]);
      match RunTicks(s, envs[..|envs| - 1])
      case Err(_) =>
      case Ok(s1) => TickKeepsStackReady(s1, envs[|envs| - 1]);
    }
  }

  /**
   * The 16 zeros `Chip8::new` puts on the stack mean that no program loaded
   * into a fresh machine by `read` ever pops an empty stack when run.
   */
  lemma RunNeverUnderflows(rom: seq<Byte>, envs: seq<Env>)
    ensures Read(New(), rom).Ok? ==> Run(Read(New(), rom).value, envs) != Err(StackUnderflow)
  {
    if Read(New(), rom).Ok? {
      var s := Read(New(), rom).value;
      RunTicksKeepsStackReady(s.(engine := s.engine + [InitCall]), envs);
    }
  }

  /** From an unblocked state, every run of ticks that does not panic ends unblocked. */
  lemma {:induction false} RunTicksUnblocked(s: State, envs: seq<Env>)
    requires Valid(s) && !s.isPcBlocked
    ensures RunTicks(s, envs).Ok? ==> !RunTicks(s, envs).value.isPcBlocked
    decreases |envs|
  {
    if envs != [] {
      RunTicksUnblocked(s, envs[..|envs| - 1]);
      match RunTicks(s, envs[..|envs| - 1])
      case Err(_) =>
      case Ok(s1) =>
        var env := envs[|envs| - 1];
        if s1.isOn && Tick(s1, env).Ok? {
          TickRunning(s1, env);
        } else if !s1.isOn {
          TickWhenOff(s1, env);
        }
    }
  }

  /**
   * `block_pc` never outlives a tick: after `read` and any number of ticks
   * of `run`, `pc` is unblocked, as a tick whose word is at `pc` expects.
   */
  lemma RunEndsUnblocked(rom: seq<Byte>, envs: seq<Env>)
    ensures Read(New(), rom).Ok? && Run(Read(New(), rom).value, envs).Ok? ==>
      !Run(Read(New(), rom).value, envs).value.isPcBlocked
  {
    if Read(New(), rom).Ok? {
      var s := Read(New(), rom).value;
      RunTicksUnblocked(s.(engine := s.engine + [InitCall]), envs);
    }
  }

  /** `n` flushes of the engine. */
  function Flushes(n: nat): seq<EngineCall>
  {
    if n == 0 then [] else Flushes(n - 1) + [FlushCall]
  }

  /**
   * Once the machine is off it stays off: every later tick only flushes
   * the engine, and memory, registers, timers and `pc` never change.
   */
  lemma {:induction false} HaltedStaysHalted(s: State, envs: seq<Env>)
    requires Valid(s) && !s.isOn
    ensures RunTicks(s, envs) == Ok(s.(engine := s.engine + Flushes(|envs|)))
    decreases |envs|
  {
    if envs != [] {
      var n := |envs|;
      HaltedStaysHalted(s, envs[..n - 1]);
      var s1 := s.(engine := s.engine + Flushes(n - 1));
      assert RunTicks(s, envs) == Tick(s1, envs[n - 1]) == Ok(s1.(engine := s1.engine + [FlushCall]));
      assert s1.engine + [FlushCall] == s.engine + Flushes(n);
    } else {
      assert s.engine + Flushes(0) == s.engine;
    }
  }

  /** A panic ends the run: once a prefix of the ticks panics, so does the whole run, with the same fault. */
  lemma {:induction false} RunTicksStops(s: State, envs: seq<Env>, k: nat)
    requires Valid(s) && k <= |envs| && RunTicks(s, envs[..k]).Err?
    ensures RunTicks(s, envs) == RunTicks(s, envs[..k])
    decreases |envs|
  {
    if k == |envs| {
      assert envs[..k] == envs;
    } else {
      var n := |envs|;
      assert envs[..n - 1][..k] == envs[..k];
      RunTicksStops(s, envs[..n - 1], k);
    }
  }
}
