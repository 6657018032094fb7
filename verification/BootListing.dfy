/** The boot_try listing of the boot ROM generator, as the calls it makes. */
module BootListing {
  import opened Bits
  import opened Rv32
  import opened Assembler
  import opened SpiMacros
  import opened BootSpec

  function Puts(text: string): seq<Call>
    decreases |text|
  {
    if text == [] then [] else [Load(T0, text[0] as int), Emit(Sw(T0, 4, S0))] + Puts(text[1..])
  }

  function J(name: string): Call { Emit(Jal(ZERO, name)) }

  function BootStart(): seq<Call> {
    [ Mark("boot_try"),
      Load(S5, 0),
      Load(T0, BASE),
      Emit(Sw(ZERO, 0, T0)),
      Emit(Sw(ZERO, 4, T0)),
      Emit(Sw(ZERO, 8, T0)),
      Emit(Sw(ZERO, 12, T0)),
      Emit(Sw(ZERO, 16, T0)),
      Emit(Sw(ZERO, 20, T0)),
      Emit(Sw(ZERO, 24, T0)),
      Emit(Sw(ZERO, 28, T0)) ]
  }

  /** The constant bytes of the header: the magic word, and version and reserved words. */
  datatype Part = Magic | Tail

  function Expected(part: Part): seq<byte> { if part.Magic? then MAGIC_BYTES else TAIL_BYTES }

  function WaitName(part: Part, i: nat): string {
    (if part.Magic? then "boot_wait_" else "boot_tail_wait_") + Decimal(i)
  }

  function OkName(part: Part, i: nat): string {
    if part.Magic? then "boot_ok_" + Decimal(i) else if i == 11 then "boot_tail_ok" else "boot_tail_ok_" + Decimal(i)
  }

  function ExpectOne(part: Part, i: nat): seq<Call>
    requires i < |Expected(part)|
  {
    SpiExpect(0xFF, Expected(part)[i], WaitName(part, i), OkName(part, i), "boot_bad_magic")
  }

  function ExpectFrom(part: Part, i: nat): seq<Call>
    requires i <= |Expected(part)|
    decreases |Expected(part)| - i
  {
    if i == |Expected(part)| then [] else ExpectOne(part, i) + ExpectFrom(part, i + 1)
  }

  function Checks(): seq<Call> {
    [ Load(T0, BASE),
      Emit(Sltu(T2, S6, T0)),
      Emit(Bne(T2, ZERO, "boot_bad_range")),
      Emit(Beq(S7, ZERO, "boot_bad_size")),
      Load(T0, BYTES),
      Emit(Sltu(T2, T0, S7)),
      Emit(Bne(T2, ZERO, "boot_bad_size")),
      Emit(Add(S11, S6, S7)),
      Emit(Sltu(T2, S11, S6)),
      Emit(Bne(T2, ZERO, "boot_bad_range")),
      Load(T0, BASE + BYTES),
      Emit(Sltu(T2, T0, S11)),
      Emit(Bne(T2, ZERO, "boot_bad_range")),
      Emit(Sltu(T2, S8, S6)),
      Emit(Bne(T2, ZERO, "boot_bad_entry")),
      Emit(Sltu(T2, S8, S11)),
      Emit(Beq(T2, ZERO, "boot_bad_entry")) ]
  }

  function LoopSetup(): seq<Call> {
    [ CopyReg(T2, S6), CopyReg(T3, S7), Load(T4, 0), Load(T5, 0), Load(S10, 0), Mark("payload_loop") ]
  }

  /** What follows the transfer in the payload loop: store the byte, put it into its lane. */
  function PayloadByte(): seq<Call> {
    [ Emit(Sb(T1, 0, T2)),
      Load(T0, 1),
      Emit(Beq(T4, T0, "payload_lane1")),
      Load(T0, 2),
      Emit(Beq(T4, T0, "payload_lane2")),
      Load(T0, 3),
      Emit(Beq(T4, T0, "payload_lane3")),
      CopyReg(T5, T1),
      Load(T4, 1),
      J("payload_byte_done"),
      Mark("payload_lane1"),
      Emit(Slli(T6, T1, 8)),
      Emit(OrOp(T5, T5, T6)),
      Load(T4, 2),
      J("payload_byte_done"),
      Mark("payload_lane2"),
      Emit(Slli(T6, T1, 16)),
      Emit(OrOp(T5, T5, T6)),
      Load(T4, 3),
      J("payload_byte_done"),
      Mark("payload_lane3"),
      Emit(Slli(T6, T1, 24)),
      Emit(OrOp(T5, T5, T6)),
      Emit(Add(S10, S10, T5)),
      Load(T5, 0),
      Load(T4, 0),
      Mark("payload_byte_done"),
      Emit(Addi(T2, T2, 1)),
      Emit(Addi(T3, T3, -1)),
      Emit(Bne(T3, ZERO, "payload_loop")) ]
  }

  function BootAccept(): seq<Call> {
    [ Emit(Beq(T4, ZERO, "payload_checksum_done")),
      Emit(Add(S10, S10, T5)),
      Mark("payload_checksum_done"),
      Emit(Bne(S10, S9, "boot_bad_checksum")),
      Load(T0, BASE),
      Load(T1, INFO_MAGIC),
      Emit(Sw(T1, 0, T0)),
      Emit(Sw(S6, 4, T0)),
      Emit(Sw(S7, 8, T0)),
      Emit(Sw(S8, 12, T0)),
      Emit(Sw(S9, 16, T0)),
      Load(T1, OK),
      Emit(Sw(T1, 20, T0)),
      Emit(Sw(ZERO, 24, T0)),
      Emit(Sw(ZERO, 28, T0)),
      Load(S5, 1) ]
  }

  function BootReject(): seq<Call> {
    [ Mark("boot_bad_magic"), Load(A4, BAD_MAGIC), J("boot_fail"),
      Mark("boot_bad_range"), Load(A4, BAD_RANGE), J("boot_fail"),
      Mark("boot_bad_size"), Load(A4, BAD_SIZE), J("boot_fail"),
      Mark("boot_bad_entry"), Load(A4, BAD_ENTRY), J("boot_fail"),
      Mark("boot_bad_checksum"), Load(A4, BAD_CHECKSUM), J("boot_fail"),
      Mark("boot_fail"), Load(S5, 0), Load(T0, BASE), Emit(Sw(A4, 20, T0)) ]
  }

  const OK_TEXT: string := "BOOT=OK\r\n> "
  const ERROR_TEXT: string := "BOOT=ER\r\n> "

  function HeaderFields(): seq<Call> {
    ReadU32Le(S6, "boot_load_addr") + (ReadU32Le(S7, "boot_size") + (
    ReadU32Le(S8, "boot_entry") + ReadU32Le(S9, "boot_checksum")))
  }

  function PayloadLoop(): seq<Call> { SpiTransfer(0xFF, "payload_wait") + PayloadByte() }

  function Ending(): seq<Call> {
    BootAccept() + (Puts(OK_TEXT) + ([J("main_loop")] + (BootReject() + (Puts(ERROR_TEXT) + [J("main_loop")]))))
  }

  function Body(): seq<Call> { Checks() + (LoopSetup() + (PayloadLoop() + Ending())) }

  /** The listing from the label boot_try to the jump back that follows a failure. */
  function BootTry(): seq<Call> {
    BootStart() + (ExpectFrom(Magic, 0) + (HeaderFields() + (ExpectFrom(Tail, 0) + Body())))
  }
}
