/** The integers that stack items stand for. */
module Conversions {
  import opened Options
  import opened TwosComplement
  import opened Items

  /** The low 64 bits of an integer, read as a signed number. */
  function Int64(n: int): int {
    var low := n % 0x1_0000_0000_0000_0000;
    if low < 0x8000_0000_0000_0000 then low else low - 0x1_0000_0000_0000_0000
  }

  /** The integer that an item stands for, if it is of a kind that stands for one. */
  function IntegerOf(x: StackItem): Option<int> {
    match x
    case BigInteger(n) => Some(n)
    case Boolean(b) => Some(if b then 1 else 0)
    case ByteArray(data) => Some(Signed(data))
    case _ => None
  }

  /** The number that an opcode takes from the item it pops. */
  function NumberOf(x: StackItem): (n: Option<int>)
    ensures n != None ==> !x.IsContainer()
  {
    match IntegerOf(x)
    case None => None
    case Some(n) => Some(Int64(n))
  }
}
