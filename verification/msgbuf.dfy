// The read cursor over a received message (daemon/da_protocol.c:205-301).

module MsgBufs {
  import opened Words
  import opened Wire

  /** Bytes from pos up to the first NUL; the caller vouches for a NUL somewhere in memory. */
  method Strlen(mem: seq<byte>, pos: nat) returns (n: nat)
    requires pos < |mem| && mem[|mem| - 1] == 0
    ensures pos + n < |mem| && mem[pos + n] == 0
    ensures forall i :: pos <= i < pos + n ==> mem[i] != 0
  {
    n := 0;
    while mem[pos + n] != 0
      invariant pos + n < |mem|
      invariant forall i :: pos <= i < pos + n ==> mem[i] != 0
      decreases |mem| - n
    {
      n := n + 1;
    }
  }

  /** The message is the first end bytes of mem. String lengths are taken before the bounds are
      checked, for a probe even eight bytes behind the cursor, so nine readable bytes have to follow
      and the last of them has to be a NUL. */
  class MsgBuf {
    const mem: seq<byte>
    const end: nat
    var cur: nat

    constructor (mem: seq<byte>, end: nat)
      requires end < WORD32 && end + 9 <= |mem| && mem[|mem| - 1] == 0
      ensures Valid() && Left() == mem[..end]
    {
      this.mem, this.end, cur := mem, end, 0;
    }

    ghost predicate Valid()
      reads this
    {
      cur <= end < WORD32 && end + 9 <= |mem| && mem[|mem| - 1] == 0
    }

    /** The bytes still to be read. */
    ghost function Left(): Message
      requires Valid()
      reads this
    {
      mem[cur..end]
    }

    method ParseInt8() returns (ok: bool, val: byte)
      requires Valid()
      modifies this
      ensures Valid() && ok == GetByte(old(Left())).Done?
      ensures ok ==> GetByte(old(Left())) == Done(val, Left())
      ensures !ok ==> cur == old(cur)
    {
      if end - cur < 1 {
        return false, 0;
      }
      ok, val := true, mem[cur];
      cur := cur + 1;
    }

    method ParseInt32() returns (ok: bool, val: uint32)
      requires Valid()
      modifies this
      ensures Valid() && ok == GetInt32(old(Left())).Done?
      ensures ok ==> GetInt32(old(Left())) == Done(val, Left())
      ensures !ok ==> cur == old(cur)
    {
      if end - cur < 4 {
        return false, 0;
      }
      ok, val := true, UnLE32(mem[cur..cur + 4]);
      assert Left()[..4] == mem[cur..cur + 4];
      assert Left()[4..] == mem[cur + 4..end];
      cur := cur + 4;
    }

    method ParseInt64() returns (ok: bool, val: uint64)
      requires Valid()
      modifies this
      ensures Valid() && ok == GetInt64(old(Left())).Done?
      ensures ok ==> GetInt64(old(Left())) == Done(val, Left()) && cur == old(cur) + 8
      ensures !ok ==> cur == old(cur)
    {
      if end - cur < 8 {
        return false, 0;
      }
      ok, val := true, UnLE64(mem[cur..cur + 8]);
      assert Left()[..8] == mem[cur..cur + 8];
      assert Left()[8..] == mem[cur + 8..end];
      cur := cur + 8;
    }

    lemma NulInside(n: nat)
      requires Valid() && cur + n < |mem| && mem[cur + n] == 0
      requires forall i :: cur <= i < cur + n ==> mem[i] != 0
      ensures cur + n < end <==> Nul(Left()) < |Left()|
      ensures cur + n < end ==> Nul(Left()) == n
    {
      var k := Nul(Left());
      if k < |Left()| {
        assert Left()[k] == mem[cur + k];
      }
      if cur + n < end {
        assert Left()[n] == mem[cur + n];
      }
    }

    /** parse_string and parse_string_no_alloc. */
    method ParseString() returns (ok: bool, str: CString)
      requires Valid()
      modifies this
      ensures Valid() && ok == GetString(old(Left())).Done?
      ensures ok ==> GetString(old(Left())) == Done(str, Left()) && cur == old(cur) + |str| + 1
      ensures !ok ==> cur == old(cur)
    {
      var len := Strlen(mem, cur);
      NulInside(len);
      if end - cur < len + 1 {
        return false, [];
      }
      ok, str := true, mem[cur..cur + len];
      assert Left()[..len] == mem[cur..cur + len];
      assert Left()[len + 1..] == mem[cur + len + 1..end];
      cur := cur + len + 1;
    }
  }
}
