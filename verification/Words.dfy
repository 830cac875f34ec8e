/** Fixed-width integers of the C source, as numbers. */
module Words {

  const W32 := 0x1_0000_0000

  // (rt_uint32_t)x
  function U32(x: int): (u: nat)
    ensures u < W32
  {
    x % W32
  }

  // (rt_int32_t)x
  function S32(x: int): (r: int)
    ensures -W32 / 2 <= r < W32 / 2
  {
    var u := x % W32;
    if u < 0x8000_0000 then u else u - W32
  }

  lemma U32Add(x: int, y: int)
    ensures U32(U32(x) + y) == U32(x + y)
  {
  }

  lemma U32Sub(x: int, y: int)
    ensures U32(x - U32(y)) == U32(x - y)
  {
  }

  lemma U32OfS32(x: int)
    ensures U32(S32(x)) == U32(x)
  {
  }

  // What is left of a call's timeout after a wake-up: `timeout -= rt_tick_get() - tick_delta`, cut off at 0.
  function LeftOver(timeout: int, start: nat, now: nat): int {
    if timeout > 0 then
      var r := S32(timeout - U32(now - start));
      if r < 0 then 0 else r
    else timeout
  }

  /** Within half a turn of the clock, it is the rest of the timeout, or 0 when that has passed; -1 waits forever. */
  lemma LeftOverIs(timeout: int, start: nat, now: nat)
    requires start <= now < start + W32 / 2 && timeout < W32 / 2
    ensures LeftOver(timeout, U32(start), U32(now)) ==
      if timeout <= 0 then timeout else if timeout > now - start then timeout - (now - start) else 0
  {
    U32Sub(U32(now), start);
    assert U32(U32(now) - start) == U32(now - start) by { var x: int := start; U32Add(now, -x); }
  }

  /** Retiming a call keeps its deadline. */
  lemma LeftOverKeepsDue(timeout: int, start: nat, now: nat)
    requires -W32 / 2 <= timeout < W32 / 2
    ensures var r := LeftOver(timeout, start, now);
            -W32 / 2 <= r < W32 / 2 && (r > 0 ==> timeout > 0 && U32(now + r) == U32(start + timeout))
  {
    if timeout > 0 {
      var x := timeout - U32(now - start);
      U32OfS32(x);
      assert U32(now + S32(x)) == U32(now + U32(S32(x))) by { U32Add(S32(x), now); }
      U32Add(x, now);
      U32Sub(now + timeout, now - start);
    }
  }
}
