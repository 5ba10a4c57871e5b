/** The prices of instructions in units of gas, by the numbers of the opcodes. */
module PriceLaws {
  import opened Options
  import opened Bytes
  import opened Items
  import opened RemovalWalk
  import opened NumberNames
  import opened Frames
  import opened Machine

  /** Hundredths of a thousandth of a token: one for most instructions, nothing for pushes and NOP. */
  lemma PriceTable(op: byte, heap: Graph, s: seq<StackItem>)
    requires op != 0xAE
    ensures GetPrice(op, heap, s) ==
            Some(100000 * (if op <= 0x61 then 0
                           else if op in {0x67, 0x69, 0xA7, 0xA8} then 10
                           else if op in {0xA9, 0xAA} then 20
                           else if op in {0xAC, 0xAD} then 100
                           else 1))
  {
  }

  /** A check of n keys costs what n checks of one key do; without a number that makes sense it costs one unit. */
  lemma CheckPrice(heap: Graph, s: seq<StackItem>, n: int)
    requires s != [] && n <= 922337203685
    requires if s[0].Array? || s[0].Struct? then n == |SlotsAt(heap, s[0])| else Names(s[0], n)
    ensures GetPrice(0xAE, heap, s) == Some(100000 * (if n < 1 then 1 else 100 * n))
    ensures GetPrice(0xAE, heap, []) == Some(100000)
  {
    if !s[0].Array? && !s[0].Struct? { NamedNumber(s[0], n); }
    assert KeyCount(heap, s) == Some(n);
    if n >= 1 { PriceExactly(heap, s); }
  }
}
