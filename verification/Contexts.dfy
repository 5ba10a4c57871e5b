/** A loaded script and the pointers into it: fetching one instruction after the other. */
module Contexts {
  import opened Options
  import opened Bytes
  import opened TwosComplement
  import opened Opcodes

  /** An instruction with its parameter, and where the next one starts. */
  datatype Fetched = Fetched(op: byte, param: bytes, next: nat)

  /** The instruction at ip. Behind the last byte there is an implicit RET; nothing if the script is cut short. */
  function Decode(prog: bytes, ip: nat): (r: Option<Fetched>)
    requires ip <= |prog|
    ensures r.Some? ==> ip <= r.value.next <= |prog| && (ip < |prog| ==> ip < r.value.next)
  {
    if ip == |prog| then Some(Fetched(RET, [], ip))
    else
      var op := prog[ip];
      var body := ip + 1 + LengthBytes(op);
      if body > |prog| then None
      else
        var n := if LengthBytes(op) == 0 then FixedLength(op) else Unsigned(prog[ip + 1..body]);
        if op == PUSHDATA4 && n > MAX_ITEM_SIZE then None
        else if body + n > |prog| then None
        else Some(Fetched(op, prog[body..body + n], body + n))
  }

  class Context {
    var ip: nat
    var nextip: nat
    const prog: bytes

    ghost predicate Valid()
      reads this
    {
      nextip <= |prog|
    }

    constructor (b: bytes)
      ensures Valid() && ip == 0 && nextip == 0 && prog == b
    {
      prog := b;
      ip, nextip := 0, 0;
    }

    /** Fetches the next instruction; ip is left pointing to it. */
    method Next() returns (op: byte, param: bytes, ok: bool)
      requires Valid()
      modifies this`ip, this`nextip
      ensures Valid() && ip == old(nextip)
      ensures match Decode(prog, old(nextip))
              case None => !ok
              case Some(f) => ok && op == f.op && param == f.param && nextip == f.next
    {
      ok, param := true, [];
      ip := nextip;
      if ip >= |prog| {
        op := RET;
        return;
      }
      op := prog[ip];
      nextip := nextip + 1;

      var numtoread := 0;
      if op == PUSHDATA1 || op == SYSCALL {
        if nextip >= |prog| {
          ok := false;
        } else {
          numtoread := prog[nextip];
          assert numtoread == Unsigned(prog[nextip..nextip + 1]) by { OneByte(prog[nextip..nextip + 1]); }
          nextip := nextip + 1;
        }
      } else if op == PUSHDATA2 {
        if nextip + 1 >= |prog| {
          ok := false;
        } else {
          numtoread := Unsigned(prog[nextip..nextip + 2]);
          nextip := nextip + 2;
        }
      } else if op == PUSHDATA4 {
        if nextip + 3 >= |prog| {
          ok := false;
        } else {
          numtoread := Unsigned(prog[nextip..nextip + 4]);
          if numtoread > MAX_ITEM_SIZE {
            ok := false;
            return;
          }
          nextip := nextip + 4;
        }
      } else if op == JMP || op == JMPIF || op == JMPIFNOT || op == CALL || op == CALLED || op == CALLEDT {
        numtoread := 2;
      } else if op == CALLI {
        numtoread := 4;
      } else if op == APPCALL || op == TAILCALL {
        numtoread := 20;
      } else if op == CALLE || op == CALLET {
        numtoread := 22;
      } else if PUSHBYTES1 <= op <= PUSHBYTES75 {
        numtoread := op;
      } else {
        return;
      }
      if nextip + numtoread - 1 >= |prog| {
        ok := false;
      }
      if !ok {
        return;
      }
      param := prog[nextip..nextip + numtoread];
      nextip := nextip + numtoread;
    }
  }

  lemma OneByte(b: bytes)
    requires |b| == 1
    ensures Unsigned(b) == b[0]
  {
    assert Unsigned(b[1..]) == 0;
  }
}
