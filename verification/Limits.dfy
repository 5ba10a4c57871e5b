/**
  The limits of the virtual machine.
 */
module Limits {
  /** The most elements that an opcode gives an array, a struct or a map. */
  const MAX_ARRAY_SIZE := 1024

  /** The most slots that are counted behind an instruction that goes through. */
  const MAX_STACK_SIZE := 2 * 1024
}
