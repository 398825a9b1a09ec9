/** The SSD1680 opcode table (src/command.rs). */
module Commands {

  /** `Command`: the controller opcodes the driver sends. */
  datatype Command =
    | Reset | DataMode | Border | GateVoltage | SourceVoltage
    | RamXCount | RamYCount | RamXPos | RamYPos | Control | Vcom
    | DispCtrl1 | DispCtrl2 | MasterActivate | WriteRAM1 | WriteRAM2 | Sleep

  /** `command as u8`: the explicit discriminant of each variant, the
      byte put on the bus for that opcode. */
  function Opcode(c: Command): bv8
  {
    match c
    case Reset => 0x12
    case DataMode => 0x11
    case Border => 0x3C
    case GateVoltage => 0x03
    case SourceVoltage => 0x04
    case RamXCount => 0x4E
    case RamYCount => 0x4F
    case RamXPos => 0x44
    case RamYPos => 0x45
    case Control => 0x01
    case Vcom => 0x2C
    case DispCtrl1 => 0x21
    case DispCtrl2 => 0x22
    case MasterActivate => 0x20
    case WriteRAM1 => 0x24
    case WriteRAM2 => 0x26
    case Sleep => 0x10
  }

  /** No two opcodes share a byte, so the byte on the bus identifies the command. */
  lemma OpcodeInjective(a: Command, b: Command)
    requires Opcode(a) == Opcode(b)
    ensures a == b
  {
  }

  /** The two RAM-write opcodes differ, so the tri-colour planes reach
      different controller RAMs; DispCtrl2 and MasterActivate are the
      activation pair. */
  lemma DistinguishedOpcodes()
    ensures Opcode(WriteRAM1) == 0x24 && Opcode(WriteRAM2) == 0x26
    ensures Opcode(DispCtrl2) == 0x22 && Opcode(MasterActivate) == 0x20
    ensures Opcode(Reset) == 0x12 && Opcode(Sleep) == 0x10
  {
  }
}
