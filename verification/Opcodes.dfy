/** Opcode bytes and their classes. */
module Opcodes {
  import opened Bytes

  const OP_PUSHDATA1: byte := 0x4c
  const OP_PUSHDATA2: byte := 0x4d
  const OP_PUSHDATA4: byte := 0x4e
  const OP_1NEGATE: byte := 0x4f
  const OP_1: byte := 0x51
  const OP_16: byte := 0x60
  const OP_NOP: byte := 0x61
  const OP_IF: byte := 0x63
  const OP_NOTIF: byte := 0x64
  const OP_ELSE: byte := 0x67
  const OP_ENDIF: byte := 0x68
  const OP_VERIFY: byte := 0x69
  const OP_RETURN: byte := 0x6a
  const OP_TOALTSTACK: byte := 0x6b
  const OP_FROMALTSTACK: byte := 0x6c
  const OP_2DROP: byte := 0x6d
  const OP_2DUP: byte := 0x6e
  const OP_3DUP: byte := 0x6f
  const OP_2OVER: byte := 0x70
  const OP_2ROT: byte := 0x71
  const OP_2SWAP: byte := 0x72
  const OP_IFDUP: byte := 0x73
  const OP_DEPTH: byte := 0x74
  const OP_DROP: byte := 0x75
  const OP_DUP: byte := 0x76
  const OP_NIP: byte := 0x77
  const OP_OVER: byte := 0x78
  const OP_PICK: byte := 0x79
  const OP_ROLL: byte := 0x7a
  const OP_ROT: byte := 0x7b
  const OP_SWAP: byte := 0x7c
  const OP_TUCK: byte := 0x7d
  const OP_SIZE: byte := 0x82
  const OP_EQUAL: byte := 0x87
  const OP_EQUALVERIFY: byte := 0x88
  const OP_1ADD: byte := 0x8b
  const OP_1SUB: byte := 0x8c
  const OP_NEGATE: byte := 0x8f
  const OP_ABS: byte := 0x90
  const OP_NOT: byte := 0x91
  const OP_0NOTEQUAL: byte := 0x92
  const OP_ADD: byte := 0x93
  const OP_SUB: byte := 0x94
  const OP_BOOLAND: byte := 0x9a
  const OP_BOOLOR: byte := 0x9b
  const OP_NUMEQUAL: byte := 0x9c
  const OP_NUMEQUALVERIFY: byte := 0x9d
  const OP_NUMNOTEQUAL: byte := 0x9e
  const OP_LESSTHAN: byte := 0x9f
  const OP_GREATERTHAN: byte := 0xa0
  const OP_LESSTHANOREQUAL: byte := 0xa1
  const OP_GREATERTHANOREQUAL: byte := 0xa2
  const OP_MIN: byte := 0xa3
  const OP_MAX: byte := 0xa4
  const OP_WITHIN: byte := 0xa5
  const OP_RIPEMD160: byte := 0xa6
  const OP_HASH160: byte := 0xa9
  const OP_HASH256: byte := 0xaa
  const OP_CODESEPARATOR: byte := 0xab
  const OP_CHECKSIG: byte := 0xac
  const OP_CHECKSIGVERIFY: byte := 0xad
  const OP_CHECKMULTISIG: byte := 0xae
  const OP_CHECKMULTISIGVERIFY: byte := 0xaf
  const OP_NOP1: byte := 0xb0
  const OP_CHECKLOCKTIMEVERIFY: byte := 0xb1
  const OP_CHECKSEQUENCEVERIFY: byte := 0xb2
  const OP_NOP4: byte := 0xb3
  const OP_NOP10: byte := 0xb9
  const OP_CHECKSIGADD: byte := 0xba

  /** Splice, bit and wide-arithmetic opcodes, invalid even in branches not taken. */
  predicate IsDisabled(op: byte) {
    0x7e <= op <= 0x81 || 0x83 <= op <= 0x86 || 0x8d <= op <= 0x8e || 0x95 <= op <= 0x99
  }

  predicate CountsTowardsOpLimit(op: byte) { op > OP_16 }

  predicate IsUnary(op: byte) { OP_1ADD <= op <= OP_1SUB || OP_NEGATE <= op <= OP_0NOTEQUAL }

  predicate IsBinary(op: byte) { OP_ADD <= op <= OP_SUB || OP_BOOLAND <= op <= OP_MAX }

  /** Tapscript opcodes that make the whole script succeed. */
  predicate IsOpSuccess(op: byte) {
    || op == 80 || op == 98 || 126 <= op <= 129 || 131 <= op <= 134 || 137 <= op <= 138
    || 141 <= op <= 142 || 149 <= op <= 153 || 187 <= op <= 254
  }
}
