/** The opcodes that this model names, and which of them carry a parameter. */
module Opcodes {
  import opened Bytes

  const PUSH0: byte := 0x00
  const PUSHBYTES1: byte := 0x01
  const PUSHBYTES2: byte := 0x02
  const PUSHBYTES33: byte := 0x21
  const PUSHBYTES75: byte := 0x4B
  const PUSHDATA1: byte := 0x4C
  const PUSHDATA2: byte := 0x4D
  const PUSHDATA4: byte := 0x4E
  const PUSHM1: byte := 0x4F
  const PUSH1: byte := 0x51
  const PUSH16: byte := 0x60
  const NOP: byte := 0x61
  const JMP: byte := 0x62
  const JMPIF: byte := 0x63
  const JMPIFNOT: byte := 0x64
  const CALL: byte := 0x65
  const RET: byte := 0x66
  const APPCALL: byte := 0x67
  const SYSCALL: byte := 0x68
  const TAILCALL: byte := 0x69
  const SHA1: byte := 0xA7
  const SHA256: byte := 0xA8
  const HASH160: byte := 0xA9
  const HASH256: byte := 0xAA
  const CHECKSIG: byte := 0xAC
  const VERIFY: byte := 0xAD
  const CHECKMULTISIG: byte := 0xAE
  const PACK: byte := 0xC1
  const SETITEM: byte := 0xC4
  const APPEND: byte := 0xC8
  const REMOVE: byte := 0xCA
  const CALLI: byte := 0xE0
  const CALLE: byte := 0xE1
  const CALLED: byte := 0xE2
  const CALLET: byte := 0xE3
  const CALLEDT: byte := 0xE4

  const MAX_ITEM_SIZE := 1024 * 1024

  /** How many bytes behind the opcode hold the length of its parameter. */
  function LengthBytes(op: byte): nat {
    if op == PUSHDATA1 || op == SYSCALL then 1
    else if op == PUSHDATA2 then 2
    else if op == PUSHDATA4 then 4
    else 0
  }

  /** The length of a parameter that is the same for every use of the opcode. */
  function FixedLength(op: byte): nat {
    if op in {JMP, JMPIF, JMPIFNOT, CALL, CALLED, CALLEDT} then 2
    else if op == CALLI then 4
    else if op in {APPCALL, TAILCALL} then 20
    else if op in {CALLE, CALLET} then 22
    else if PUSHBYTES1 <= op <= PUSHBYTES75 then op
    else 0
  }
}
