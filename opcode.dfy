/**
 * The instruction decoder of the interpreter (the `OpCode` trait's
 * `execute_opcode`). Decoding is pure: a 16-bit word is cut into fixed
 * fields with masks and shifts and dispatched on its top nibble, then on
 * its low nibble or low byte. The result is the sequence of handlers the
 * word invokes, because 00E0 and 00EE each invoke a special handler AND the
 * group-0 handler; `None` stands for the `panic!` of an unknown opcode.
 */
module OpCode {
  import opened Wrappers

  /** A 16-bit instruction word. */
  type Word = bv16

  /** A register index, the X or Y field: bits 8-11 or 4-7 of a word. */
  type Reg = bv4

  /** A 12-bit address, the NNN field: bits 0-11 of a word. */
  type Addr = bv12

  /**
   * The 35 handlers, op1 to op35 in the source, each with the operand
   * fields it receives.
   */
  datatype Instr =
    | Sys                                    // op1: 0NNN
    | Clear                                  // op2: 00E0
    | Return                                 // op3: 00EE
    | Jump(nnn: Addr)                        // op4: 1NNN
    | Call(nnn: Addr)                        // op5: 2NNN
    | SkipIfEqual(x: Reg, nn: bv8)           // op6: 3XNN
    | SkipIfNotEqual(x: Reg, nn: bv8)        // op7: 4XNN
    | SkipIfRegsEqual(x: Reg, y: Reg)        // op8: 5XY0
    | SetImmediate(x: Reg, nn: bv8)          // op9: 6XNN
    | AddImmediate(x: Reg, nn: bv8)          // op10: 7XNN
    | Copy(x: Reg, y: Reg)                   // op11: 8XY0
    | Or(x: Reg, y: Reg)                     // op12: 8XY1
    | And(x: Reg, y: Reg)                    // op13: 8XY2
    | Xor(x: Reg, y: Reg)                    // op14: 8XY3
    | Add(x: Reg, y: Reg)                    // op15: 8XY4
    | Sub(x: Reg, y: Reg)                    // op16: 8XY5
    | ShiftRight(x: Reg)                     // op17: 8XY6
    | SubReversed(x: Reg, y: Reg)            // op18: 8XY7
    | ShiftLeft(x: Reg)                      // op19: 8XYE
    | SkipIfRegsNotEqual(x: Reg, y: Reg)     // op20: 9XY0
    | SetIndex(nnn: Addr)                    // op21: ANNN
    | JumpOffset(nnn: Addr)                  // op22: BNNN
    | Random(x: Reg, nn: bv8)                // op23: CXNN
    | Draw(x: Reg, y: Reg, n: bv4)           // op24: DXYN
    | SkipIfKey(x: Reg)                      // op25: EX9E
    | SkipIfNotKey(x: Reg)                   // op26: EXA1
    | GetDelay(x: Reg)                       // op27: FX07
    | WaitKey(x: Reg)                        // op28: FX0A
    | SetDelay(x: Reg)                       // op29: FX15
    | SetSound(x: Reg)                       // op30: FX18
    | AddToIndex(x: Reg)                     // op31: FX1E
    | SpriteAddress(x: Reg)                  // op32: FX29
    | StoreBcd(x: Reg)                       // op33: FX33
    | StoreRegisters(x: Reg)                 // op34: FX55
    | LoadRegisters(x: Reg)                  // op35: FX65

  // ---------------------------------------------------------------------
  // Field extraction: the fixed masks and shifts of the decoder.
  // ---------------------------------------------------------------------

  /** The top nibble, `(w & 0xF000) >> 12`. */
  function Group(w: Word): bv4 { ((w & 0xF000) >> 12) as bv4 }

  function X(w: Word): Reg { ((w & 0x0F00) >> 8) as bv4 }

  function Y(w: Word): Reg { ((w & 0x00F0) >> 4) as bv4 }

  function N(w: Word): bv4 { (w & 0x000F) as bv4 }

  function NN(w: Word): bv8 { (w & 0x00FF) as bv8 }

  function NNN(w: Word): Addr { (w & 0x0FFF) as bv12 }

  // ---------------------------------------------------------------------
  // Dispatch
  // ---------------------------------------------------------------------

  /**
   * The special handlers run before the dispatch on the top nibble:
   * the exact words 00E0 and 00EE.
   */
  function SpecialCase(w: Word): seq<Instr>
  {
    (if w == 0x00E0 then [Clear] else []) + (if w == 0x00EE then [Return] else [])
  }

  /** Group 8: the sub-operation is the low nibble. */
  function Dispatch8(x: Reg, y: Reg, low: bv4): Option<Instr>
  {
    match low
    case 0x0 => Some(Copy(x, y))
    case 0x1 => Some(Or(x, y))
    case 0x2 => Some(And(x, y))
    case 0x3 => Some(Xor(x, y))
    case 0x4 => Some(Add(x, y))
    case 0x5 => Some(Sub(x, y))
    case 0x6 => Some(ShiftRight(x))
    case 0x7 => Some(SubReversed(x, y))
    case 0xE => Some(ShiftLeft(x))
    case _ => None
  }

  /** Group E: the sub-operation is the low byte. */
  function DispatchE(x: Reg, low: bv8): Option<Instr>
  {
    match low
    case 0x9E => Some(SkipIfKey(x))
    case 0xA1 => Some(SkipIfNotKey(x))
    case _ => None
  }

  /** Group F: the sub-operation is the low byte. */
  function DispatchF(x: Reg, low: bv8): Option<Instr>
  {
    match low
    case 0x07 => Some(GetDelay(x))
    case 0x0A => Some(WaitKey(x))
    case 0x15 => Some(SetDelay(x))
    case 0x18 => Some(SetSound(x))
    case 0x1E => Some(AddToIndex(x))
    case 0x29 => Some(SpriteAddress(x))
    case 0x33 => Some(StoreBcd(x))
    case 0x55 => Some(StoreRegisters(x))
    case 0x65 => Some(LoadRegisters(x))
    case _ => None
  }

  /**
   * The handler chosen by the top nibble `g`, given the word's fields.
   * Groups 5 and 9 do not look at the low nibble. The source's final
   * catch-all arm is the `assert false` branch: every nibble value has an
   * arm of its own.
   */
  function DispatchFields(g: bv4, x: Reg, y: Reg, n: bv4, nn: bv8, nnn: Addr): Option<Instr>
  {
    match g
    case 0x0 => Some(Sys)
    case 0x1 => Some(Jump(nnn))
    case 0x2 => Some(Call(nnn))
    case 0x3 => Some(SkipIfEqual(x, nn))
    case 0x4 => Some(SkipIfNotEqual(x, nn))
    case 0x5 => Some(SkipIfRegsEqual(x, y))
    case 0x6 => Some(SetImmediate(x, nn))
    case 0x7 => Some(AddImmediate(x, nn))
    case 0x8 => Dispatch8(x, y, n)
    case 0x9 => Some(SkipIfRegsNotEqual(x, y))
    case 0xA => Some(SetIndex(nnn))
    case 0xB => Some(JumpOffset(nnn))
    case 0xC => Some(Random(x, nn))
    case 0xD => Some(Draw(x, y, n))
    case 0xE => DispatchE(x, nn)
    case 0xF => DispatchF(x, nn)
    case _ => assert false; None
  }

  /** The handler chosen for a word by its fields. */
  function Dispatch(w: Word): Option<Instr>
  {
    DispatchFields(Group(w), X(w), Y(w), N(w), NN(w), NNN(w))
  }

  /** A handler other than the three of group 0. */
  predicate Plain(ins: Instr)
  {
    !ins.Sys? && !ins.Clear? && !ins.Return?
  }

  /**
   * The handlers a word invokes, in order, or `None` when the word is an
   * unknown opcode (the decoder panics).
   */
  function Decode(w: Word): (r: Option<seq<Instr>>)
    ensures r.Some? <==> Dispatch(w).Some?
    ensures r.Some? ==> 1 <= |r.value| <= 2 && r.value[|r.value| - 1] == Dispatch(w).value
  {
    match Dispatch(w)
    case None => None
    case Some(ins) => Some(SpecialCase(w) + [ins])
  }

  // ---------------------------------------------------------------------
  // Reference encoding: the canonical word of each handler.
  // ---------------------------------------------------------------------

  /** The word with top nibble `g` and the fields X, Y and N. */
  function Pack(g: bv4, x: Reg, y: Reg, n: bv4): Word
  {
    (g as bv16 << 12) | (x as bv16 << 8) | (y as bv16 << 4) | n as bv16
  }

  /** The word with top nibble `g` and the fields X and NN. */
  function PackByte(g: bv4, x: Reg, nn: bv8): Word
  {
    (g as bv16 << 12) | (x as bv16 << 8) | nn as bv16
  }

  /** The word with top nibble `g` and the field NNN. */
  function PackAddr(g: bv4, nnn: Addr): Word
  {
    (g as bv16 << 12) | nnn as bv16
  }

  /** The conventional word for each handler; 0NNN is encoded with NNN = 0. */
  function Encode(ins: Instr): Word
  {
    match ins
    case Sys => 0x0000
    case Clear => 0x00E0
    case Return => 0x00EE
    case Jump(nnn) => PackAddr(0x1, nnn)
    case Call(nnn) => PackAddr(0x2, nnn)
    case SkipIfEqual(x, nn) => PackByte(0x3, x, nn)
    case SkipIfNotEqual(x, nn) => PackByte(0x4, x, nn)
    case SkipIfRegsEqual(x, y) => Pack(0x5, x, y, 0)
    case SetImmediate(x, nn) => PackByte(0x6, x, nn)
    case AddImmediate(x, nn) => PackByte(0x7, x, nn)
    case Copy(x, y) => Pack(0x8, x, y, 0x0)
    case Or(x, y) => Pack(0x8, x, y, 0x1)
    case And(x, y) => Pack(0x8, x, y, 0x2)
    case Xor(x, y) => Pack(0x8, x, y, 0x3)
    case Add(x, y) => Pack(0x8, x, y, 0x4)
    case Sub(x, y) => Pack(0x8, x, y, 0x5)
    case ShiftRight(x) => Pack(0x8, x, 0, 0x6)
    case SubReversed(x, y) => Pack(0x8, x, y, 0x7)
    case ShiftLeft(x) => Pack(0x8, x, 0, 0xE)
    case SkipIfRegsNotEqual(x, y) => Pack(0x9, x, y, 0)
    case SetIndex(nnn) => PackAddr(0xA, nnn)
    case JumpOffset(nnn) => PackAddr(0xB, nnn)
    case Random(x, nn) => PackByte(0xC, x, nn)
    case Draw(x, y, n) => Pack(0xD, x, y, n)
    case SkipIfKey(x) => PackByte(0xE, x, 0x9E)
    case SkipIfNotKey(x) => PackByte(0xE, x, 0xA1)
    case GetDelay(x) => PackByte(0xF, x, 0x07)
    case WaitKey(x) => PackByte(0xF, x, 0x0A)
    case SetDelay(x) => PackByte(0xF, x, 0x15)
    case SetSound(x) => PackByte(0xF, x, 0x18)
    case AddToIndex(x) => PackByte(0xF, x, 0x1E)
    case SpriteAddress(x) => PackByte(0xF, x, 0x29)
    case StoreBcd(x) => PackByte(0xF, x, 0x33)
    case StoreRegisters(x) => PackByte(0xF, x, 0x55)
    case LoadRegisters(x) => PackByte(0xF, x, 0x65)
  }


  // ---------------------------------------------------------------------
  // Properties of the decoder
  // ---------------------------------------------------------------------

  /** The four nibble fields put the word back together. */
  lemma NibblesRecombine(w: Word)
    ensures w == Pack(Group(w), X(w), Y(w), N(w))
  {
  }

  /** X and NN put the low 12 bits back together. */
  lemma LowByteRecombines(w: Word)
    ensures w == PackByte(Group(w), X(w), NN(w))
  {
  }

  /** NNN is the low 12 bits of the word. */
  lemma AddressRecombines(w: Word)
    ensures w == PackAddr(Group(w), NNN(w))
  {
  }

  lemma PackFields(g: bv4, x: Reg, y: Reg, n: bv4)
    ensures Group(Pack(g, x, y, n)) == g && X(Pack(g, x, y, n)) == x
    ensures Y(Pack(g, x, y, n)) == y && N(Pack(g, x, y, n)) == n
  {
  }

  lemma PackByteFields(g: bv4, x: Reg, nn: bv8)
    ensures Group(PackByte(g, x, nn)) == g && X(PackByte(g, x, nn)) == x
    ensures NN(PackByte(g, x, nn)) == nn
  {
  }

  lemma PackAddrFields(g: bv4, nnn: Addr)
    ensures Group(PackAddr(g, nnn)) == g && NNN(PackAddr(g, nnn)) == nnn
  {
  }

  /** A conventional word with an address field dispatches to the encoded handler. */
  lemma DispatchEncodeAddr(ins: Instr)
    requires ins.Jump? || ins.Call? || ins.SetIndex? || ins.JumpOffset?
    ensures Dispatch(Encode(ins)) == Some(ins)
  {
    match ins
    case Jump(nnn) => PackAddrFields(0x1, nnn);
    case Call(nnn) => PackAddrFields(0x2, nnn);
    case SetIndex(nnn) => PackAddrFields(0xA, nnn);
    case JumpOffset(nnn) => PackAddrFields(0xB, nnn);
  }

  /** A conventional word with a register and a byte dispatches to the encoded handler. */
  lemma DispatchEncodeByte(ins: Instr)
    requires ins.SkipIfEqual? || ins.SkipIfNotEqual? || ins.SetImmediate? || ins.AddImmediate? || ins.Random?
    ensures Dispatch(Encode(ins)) == Some(ins)
  {
    match ins
    case SkipIfEqual(x, nn) => PackByteFields(0x3, x, nn);
    case SkipIfNotEqual(x, nn) => PackByteFields(0x4, x, nn);
    case SetImmediate(x, nn) => PackByteFields(0x6, x, nn);
    case AddImmediate(x, nn) => PackByteFields(0x7, x, nn);
    case Random(x, nn) => PackByteFields(0xC, x, nn);
  }

  /** A conventional word of groups 5, 9 and D dispatches to the encoded handler. */
  lemma DispatchEncodeRegs(ins: Instr)
    requires ins.SkipIfRegsEqual? || ins.SkipIfRegsNotEqual? || ins.Draw?
    ensures Dispatch(Encode(ins)) == Some(ins)
  {
    match ins
    case SkipIfRegsEqual(x, y) =>
      assert Encode(ins) == Pack(0x5, x, y, 0);
      PackFields(0x5, x, y, 0);
    case SkipIfRegsNotEqual(x, y) =>
      assert Encode(ins) == Pack(0x9, x, y, 0);
      PackFields(0x9, x, y, 0);
    case Draw(x, y, n) =>
      assert Encode(ins) == Pack(0xD, x, y, n);
      PackFields(0xD, x, y, n);
  }

  /** The words of group 8 dispatch on their low nibble. */
  lemma DispatchPack8(x: Reg, y: Reg, low: bv4)
    ensures Dispatch(Pack(0x8, x, y, low)) == Dispatch8(x, y, low)
  {
    PackFields(0x8, x, y, low);
  }

  /** The words of group F dispatch on their low byte. */
  lemma DispatchPackF(x: Reg, low: bv8)
    ensures Dispatch(PackByte(0xF, x, low)) == DispatchF(x, low)
  {
    PackByteFields(0xF, x, low);
  }

  /** A conventional word of group 8 with a logic sub-operation dispatches to the encoded handler. */
  lemma DispatchEncodeLogic(ins: Instr)
    requires ins.Copy? || ins.Or? || ins.And? || ins.Xor?
    ensures Dispatch(Encode(ins)) == Some(ins)
  {
    match ins
    case Copy(x, y) =>
      assert Encode(ins) == Pack(0x8, x, y, 0x0);
      DispatchPack8(x, y, 0x0);
    case Or(x, y) =>
      assert Encode(ins) == Pack(0x8, x, y, 0x1);
      DispatchPack8(x, y, 0x1);
    case And(x, y) =>
      assert Encode(ins) == Pack(0x8, x, y, 0x2);
      DispatchPack8(x, y, 0x2);
    case Xor(x, y) =>
      assert Encode(ins) == Pack(0x8, x, y, 0x3);
      DispatchPack8(x, y, 0x3);
  }

  /** A conventional word of group 8 with an arithmetic sub-operation dispatches to the encoded handler. */
  lemma DispatchEncodeArith(ins: Instr)
    requires ins.Add? || ins.Sub? || ins.SubReversed?
    ensures Dispatch(Encode(ins)) == Some(ins)
  {
    match ins
    case Add(x, y) =>
      assert Encode(ins) == Pack(0x8, x, y, 0x4);
      DispatchPack8(x, y, 0x4);
    case Sub(x, y) =>
      assert Encode(ins) == Pack(0x8, x, y, 0x5);
      DispatchPack8(x, y, 0x5);
    case SubReversed(x, y) =>
      assert Encode(ins) == Pack(0x8, x, y, 0x7);
      DispatchPack8(x, y, 0x7);
  }

  /** A conventional word of group 8 with a shift sub-operation dispatches to the encoded handler. */
  lemma DispatchEncodeShift(ins: Instr)
    requires ins.ShiftRight? || ins.ShiftLeft?
    ensures Dispatch(Encode(ins)) == Some(ins)
  {
    match ins
    case ShiftRight(x) =>
      assert Encode(ins) == Pack(0x8, x, 0, 0x6);
      DispatchPack8(x, 0, 0x6);
    case ShiftLeft(x) =>
      assert Encode(ins) == Pack(0x8, x, 0, 0xE);
      DispatchPack8(x, 0, 0xE);
  }

  /** A conventional word of group E dispatches to the encoded handler. */
  lemma DispatchEncodeE(ins: Instr)
    requires ins.SkipIfKey? || ins.SkipIfNotKey?
    ensures Dispatch(Encode(ins)) == Some(ins)
  {
    match ins
    case SkipIfKey(x) => PackByteFields(0xE, x, 0x9E);
    case SkipIfNotKey(x) => PackByteFields(0xE, x, 0xA1);
  }

  /** A conventional word of group F that reads a timer or a key dispatches to the encoded handler. */
  lemma DispatchEncodeInputs(ins: Instr)
    requires ins.GetDelay? || ins.WaitKey?
    ensures Dispatch(Encode(ins)) == Some(ins)
  {
    match ins
    case GetDelay(x) =>
      assert Encode(ins) == PackByte(0xF, x, 0x07);
      DispatchPackF(x, 0x07);
    case WaitKey(x) =>
      assert Encode(ins) == PackByte(0xF, x, 0x0A);
      DispatchPackF(x, 0x0A);
  }

  /** A conventional word of group F that writes a timer or I dispatches to the encoded handler. */
  lemma DispatchEncodeTimers(ins: Instr)
    requires ins.SetDelay? || ins.SetSound? || ins.AddToIndex?
    ensures Dispatch(Encode(ins)) == Some(ins)
  {
    match ins
    case SetDelay(x) =>
      assert Encode(ins) == PackByte(0xF, x, 0x15);
      DispatchPackF(x, 0x15);
    case SetSound(x) =>
      assert Encode(ins) == PackByte(0xF, x, 0x18);
      DispatchPackF(x, 0x18);
    case AddToIndex(x) =>
      assert Encode(ins) == PackByte(0xF, x, 0x1E);
      DispatchPackF(x, 0x1E);
  }

  /** A conventional word of group F that sets I or writes memory dispatches to the encoded handler. */
  lemma DispatchEncodeMemory(ins: Instr)
    requires ins.SpriteAddress? || ins.StoreBcd?
    ensures Dispatch(Encode(ins)) == Some(ins)
  {
    match ins
    case SpriteAddress(x) =>
      assert Encode(ins) == PackByte(0xF, x, 0x29);
      DispatchPackF(x, 0x29);
    case StoreBcd(x) =>
      assert Encode(ins) == PackByte(0xF, x, 0x33);
      DispatchPackF(x, 0x33);
  }

  /** A conventional word of group F that copies registers dispatches to the encoded handler. */
  lemma DispatchEncodeBlock(ins: Instr)
    requires ins.StoreRegisters? || ins.LoadRegisters?
    ensures Dispatch(Encode(ins)) == Some(ins)
  {
    match ins
    case StoreRegisters(x) =>
      assert Encode(ins) == PackByte(0xF, x, 0x55);
      DispatchPackF(x, 0x55);
    case LoadRegisters(x) =>
      assert Encode(ins) == PackByte(0xF, x, 0x65);
      DispatchPackF(x, 0x65);
  }

  /** A word that dispatches to a handler other than `Sys` invokes that handler alone. */
  lemma DecodeSingle(w: Word)
    requires Dispatch(w).Some? && !Dispatch(w).value.Sys?
    ensures Decode(w) == Some([Dispatch(w).value])
  {
    assert SpecialCase(w) == [];
    assert [] + [Dispatch(w).value] == [Dispatch(w).value];
  }

  /** The conventional word of a handler outside group 0 invokes that handler alone. */
  lemma DecodeEncodeSingle(ins: Instr)
    requires !ins.Sys? && !ins.Clear? && !ins.Return?
    ensures Decode(Encode(ins)) == Some([ins])
  {
    if ins.Jump? || ins.Call? || ins.SetIndex? || ins.JumpOffset? {
      DispatchEncodeAddr(ins);
    } else if ins.SkipIfEqual? || ins.SkipIfNotEqual? || ins.SetImmediate? || ins.AddImmediate? || ins.Random? {
      DispatchEncodeByte(ins);
    } else if ins.SkipIfRegsEqual? || ins.SkipIfRegsNotEqual? || ins.Draw? {
      DispatchEncodeRegs(ins);
    } else if ins.Copy? || ins.Or? || ins.And? || ins.Xor? {
      DispatchEncodeLogic(ins);
    } else if ins.Add? || ins.Sub? || ins.SubReversed? {
      DispatchEncodeArith(ins);
    } else if ins.ShiftRight? || ins.ShiftLeft? {
      DispatchEncodeShift(ins);
    } else if ins.SkipIfKey? || ins.SkipIfNotKey? {
      DispatchEncodeE(ins);
    } else if ins.GetDelay? || ins.WaitKey? {
      DispatchEncodeInputs(ins);
    } else if ins.SetDelay? || ins.SetSound? || ins.AddToIndex? {
      DispatchEncodeTimers(ins);
    } else if ins.SpriteAddress? || ins.StoreBcd? {
      DispatchEncodeMemory(ins);
    } else {
      DispatchEncodeBlock(ins);
    }
    DecodeSingle(Encode(ins));
  }

  /**
   * Decoding the conventional word of a handler invokes that handler,
   * except that 00E0 and 00EE also invoke the group-0 handler `Sys`
   * after their own.
   */
  lemma DecodeEncode(ins: Instr)
    ensures Decode(Encode(ins)) == Some(
              if ins.Clear? then [Clear, Sys]
              else if ins.Return? then [Return, Sys]
              else [ins])
  {
    if ins.Sys? || ins.Clear? || ins.Return? {
      GroupZeroEndsInSys(Encode(ins));
    } else {
      DecodeEncodeSingle(ins);
    }
  }

  /**
   * Every word of group 0 invokes `Sys` exactly once, as its last handler;
   * 00E0 and 00EE invoke their own handler first.
   */
  lemma GroupZeroEndsInSys(w: Word)
    requires Group(w) == 0
    ensures Decode(w) == Some(
              if w == 0x00E0 then [Clear, Sys]
              else if w == 0x00EE then [Return, Sys]
              else [Sys])
  {
    assert Decode(w) == Some(SpecialCase(w) + [Sys]);
    if w == 0x00E0 {
      assert SpecialCase(w) + [Sys] == [Clear, Sys];
    } else if w == 0x00EE {
      assert SpecialCase(w) + [Sys] == [Return, Sys];
    } else {
      assert SpecialCase(w) + [Sys] == [Sys];
    }
  }

  /** 00E0 and 00EE are the only words that invoke two handlers. */
  lemma OnlyTwoSpecialWords(w: Word)
    requires Decode(w).Some?
    ensures |Decode(w).value| == 2 <==> w == 0x00E0 || w == 0x00EE
  {
  }

  /** Groups 5 and 9 ignore the low nibble: 5XY1 is decoded as 5XY0. */
  lemma SkipRegsIgnoreLowNibble(w: Word)
    requires Group(w) == 0x5 || Group(w) == 0x9
    ensures Decode(w) == Some([if Group(w) == 0x5 then SkipIfRegsEqual(X(w), Y(w))
                               else SkipIfRegsNotEqual(X(w), Y(w))])
    ensures Decode(w) == Decode(w & 0xFFF0)
  {
    var w' := w & 0xFFF0;
    assert SpecialCase(w) == [] && SpecialCase(w') == [];
    assert Decode(w) == Some([Dispatch(w).value]) by {
      assert [] + [Dispatch(w).value] == [Dispatch(w).value];
    }
    assert Decode(w') == Some([Dispatch(w').value]) by {
      assert [] + [Dispatch(w').value] == [Dispatch(w').value];
    }
  }

  /** Group 8 accepts the low nibbles 0 to 7 and E and panics on the others. */
  lemma Group8Accepts(w: Word)
    requires Group(w) == 0x8
    ensures Decode(w).Some? <==> N(w) <= 0x7 || N(w) == 0xE
  {
  }

  /** Group E accepts the low bytes 9E and A1 only. */
  lemma GroupEAccepts(w: Word)
    requires Group(w) == 0xE
    ensures Decode(w).Some? <==> NN(w) == 0x9E || NN(w) == 0xA1
  {
  }

  /** Group F accepts the low bytes 07, 0A, 15, 18, 1E, 29, 33, 55 and 65 only. */
  lemma GroupFAccepts(w: Word)
    requires Group(w) == 0xF
    ensures Decode(w).Some? <==>
              NN(w) in {0x07, 0x0A, 0x15, 0x18, 0x1E, 0x29, 0x33, 0x55, 0x65}
  {
  }

  /** A word is an unknown opcode only in groups 8, E and F. */
  lemma UnknownOnlyInGroups8EF(w: Word)
    requires Decode(w).None?
    ensures Group(w) in {0x8, 0xE, 0xF}
  {
  }

  /** The handlers of group 8 are none of the group-0 handlers. */
  lemma Dispatch8Plain(x: Reg, y: Reg, n: bv4)
    requires Dispatch8(x, y, n).Some?
    ensures Plain(Dispatch8(x, y, n).value)
  {
  }

  /** The handlers of group E are none of the group-0 handlers. */
  lemma DispatchEPlain(x: Reg, low: bv8)
    requires DispatchE(x, low).Some?
    ensures Plain(DispatchE(x, low).value)
  {
  }

  /** The handlers of group F are none of the group-0 handlers. */
  lemma DispatchFPlain(x: Reg, low: bv8)
    requires DispatchF(x, low).Some?
    ensures Plain(DispatchF(x, low).value)
  {
  }

  /** The handlers of groups 1 to 7 and 9 to D are none of the group-0 handlers. */
  lemma DirectDispatchPlain(g: bv4, x: Reg, y: Reg, n: bv4, nn: bv8, nnn: Addr)
    requires g != 0x0 && g != 0x8 && g != 0xE && g != 0xF
    ensures Plain(DispatchFields(g, x, y, n, nn, nnn).value)
  {
    match g
    case 0x1 => case 0x2 => case 0x3 => case 0x4 => case 0x5 => case 0x6 => case 0x7 =>
    case 0x9 => case 0xA => case 0xB => case 0xC => case 0xD =>
  }

  /** No handler outside group 0 is one of the three group-0 handlers. */
  lemma DispatchOutsideGroupZero(g: bv4, x: Reg, y: Reg, n: bv4, nn: bv8, nnn: Addr)
    requires DispatchFields(g, x, y, n, nn, nnn).Some? && g != 0
    ensures Plain(DispatchFields(g, x, y, n, nn, nnn).value)
  {
    if g == 0x8 {
      Dispatch8Plain(x, y, n);
    } else if g == 0xE {
      DispatchEPlain(x, nn);
    } else if g == 0xF {
      DispatchFPlain(x, nn);
    } else {
      DirectDispatchPlain(g, x, y, n, nn, nnn);
    }
  }

  /**
   * Outside group 0 a word invokes exactly one handler, and that handler is
   * none of the three group-0 ones (op1, op2, op3).
   */
  lemma DecodeOutsideGroupZero(w: Word)
    requires Decode(w).Some? && Group(w) != 0
    ensures |Decode(w).value| == 1
    ensures Plain(Decode(w).value[0])
  {
    DispatchOutsideGroupZero(Group(w), X(w), Y(w), N(w), NN(w), NNN(w));
    DecodeSingle(w);
  }
}
