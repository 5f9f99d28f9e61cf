/** The growable buffer of src/strbuf.c, with its two length conventions. */
module StrBuf {
  import opened CStrings

  // ---- growth on numbers ----

  /** Capacity after one call to ensure_cap. */
  function Grow(cap: nat, need: nat): nat {
    if need <= cap then cap else if 2 * cap < need then need else 2 * cap
  }

  /** Bytes realloc may have to move in that call: the whole old block, if there was a reallocation. */
  function Moved(cap: nat, need: nat): nat {
    if need <= cap then 0 else cap
  }

  function GrowAll(cap: nat, needs: seq<nat>): nat {
    if needs == [] then cap else Grow(GrowAll(cap, needs[..|needs| - 1]), needs[|needs| - 1])
  }

  function MovedAll(cap: nat, needs: seq<nat>): nat {
    if needs == [] then 0
    else
      MovedAll(cap, needs[..|needs| - 1]) + Moved(GrowAll(cap, needs[..|needs| - 1]), needs[|needs| - 1])
  }

  /**
   * Amortised growth: over any sequence of requests the bytes moved stay below the final capacity,
   * the final capacity fits every request, and it is the initial one or less than twice the largest request.
   */
  lemma {:induction false} AmortisedGrowth(cap: nat, needs: seq<nat>, largest: nat)
    requires forall i | 0 <= i < |needs| :: needs[i] <= largest
    ensures cap + MovedAll(cap, needs) <= GrowAll(cap, needs)
    ensures forall i | 0 <= i < |needs| :: needs[i] <= GrowAll(cap, needs)
    ensures GrowAll(cap, needs) == cap || GrowAll(cap, needs) < 2 * largest
  {
    if needs != [] {
      AmortisedGrowth(cap, needs[..|needs| - 1], largest);
    }
  }

  function Max(a: nat, b: nat): nat {
    if a < b then b else a
  }

  // ---- the buffer ----

  class StringBuffer {
    var buf: array<byte>
    var len: nat
    var cap: nat
    /** Calls to realloc so far, and the bytes they may have had to move. */
    ghost var reallocs: nat
    ghost var moved: nat
    /** The initial capacity and the largest request so far. */
    ghost var start: nat
    ghost var largest: nat

    /**
     * Growth is amortised over every sequence of calls: all bytes ever moved fit below the present capacity,
     * which is the initial one or less than twice the largest request.
     */
    ghost predicate Valid()
      reads this
    {
      && buf.Length == cap && len <= cap
      && start + moved <= cap && largest <= cap
      && (cap == start || cap < 2 * largest)
    }

    /** The first `len` bytes. */
    ghost function Raw(): Bytes
      requires Valid()
      reads this, buf
    {
      buf[..len]
    }

    /** A C string that `len` counts together with its terminator. */
    ghost predicate Holds(text: Bytes)
      reads this, buf
    {
      Valid() && len == |text| + 1 && buf[..len] == text + [NUL]
    }

    /** An empty raw buffer, as worker_handle_client sets one up. */
    constructor Empty(capacity: nat)
      ensures Valid() && Raw() == [] && start == cap == capacity && fresh(buf) && reallocs == moved == 0
    {
      buf := new byte[capacity](_ => NUL);
      len, cap := 0, capacity;
      reallocs, moved, start, largest := 0, 0, capacity, 0;
    }

    /** strbuf_new: a C string cut to the capacity. */
    constructor New(capacity: nat, initial: Bytes)
      requires capacity >= 1 && NulFree(initial)
      ensures start == cap == capacity && fresh(buf) && reallocs == moved == 0
      ensures Holds(if |initial| >= capacity then initial[..capacity - 1] else initial)
    {
      var n := if |initial| >= capacity then capacity - 1 else |initial|;
      var data := new byte[capacity](_ => NUL);
      buf := data;
      len, cap := n + 1, capacity;
      reallocs, moved, start, largest := 0, 0, capacity, 0;
      new;
      Memcpy(buf, 0, initial[..n]);
      buf[n] := NUL;
      assert buf[..n + 1] == initial[..n] + [NUL];
    }

    /** ensure_cap: at most one reallocation, contents kept. */
    method EnsureCap(need: nat)
      requires Valid()
      modifies this
      ensures Valid() && len == old(len) && cap == Grow(old(cap), need)
      ensures Raw() == old(Raw())
      ensures if need <= old(cap) then buf == old(buf) else fresh(buf)
      ensures reallocs == old(reallocs) + if need <= old(cap) then 0 else 1
      ensures moved == old(moved) + Moved(old(cap), need)
      ensures start == old(start) && largest == Max(old(largest), need)
    {
      while need > cap
        invariant Valid() && len == old(len) && Raw() == old(Raw()) && start == old(start)
        invariant largest == old(largest) || largest == Max(old(largest), need)
        invariant
          || (cap == old(cap) && buf == old(buf) && reallocs == old(reallocs) && moved == old(moved))
          || (need > old(cap) && cap == Grow(old(cap), need) && fresh(buf)
              && reallocs == old(reallocs) + 1 && moved == old(moved) + old(cap))
        decreases need - cap
      {
        var ncap := cap * 2;
        if ncap < need {
          ncap := need;
        }
        var tmp := new byte[ncap](_ => NUL);
        Memcpy(tmp, 0, buf[..len]);
        assert tmp[..len] == buf[..len];
        reallocs, moved, largest := reallocs + 1, moved + cap, Max(largest, need);
        buf, cap := tmp, ncap;
      }
      largest := Max(largest, need);
    }

    /** strbuf_append_noterm: raw bytes, no terminator. */
    method AppendNoterm(data: Bytes)
      requires Valid()
      modifies this, buf
      ensures Valid() && cap == Grow(old(cap), old(len) + |data|)
      ensures Raw() == old(Raw()) + data
      ensures reallocs <= old(reallocs) + 1 && moved == old(moved) + Moved(old(cap), old(len) + |data|)
      ensures start == old(start) && largest == Max(old(largest), old(len) + |data|)
      ensures buf == old(buf) || fresh(buf)
    {
      EnsureCap(len + |data|);
      Memcpy(buf, len, data);
      len := len + |data|;
      assert buf[..len] == old(Raw()) + data;
    }

    /** strbuf_append: only a separator of exactly one character is used; a null one is the empty string here. */
    method Append(str: Bytes, sep: Bytes, ghost text: Bytes)
      requires Holds(text) && NulFree(str) && NulFree(sep)
      modifies this, buf
      ensures Holds(text + Used(sep) + str)
      ensures cap == Grow(old(cap), old(len) + |Used(sep)| + |str|)
      ensures old(len) + |Used(sep)| + |str| <= old(cap) ==> buf == old(buf) && reallocs == old(reallocs)
      ensures reallocs <= old(reallocs) + 1 && moved == old(moved) + Moved(old(cap), old(len) + |Used(sep)| + |str|)
      ensures start == old(start) && largest == Max(old(largest), old(len) + |Used(sep)| + |str|)
      ensures buf == old(buf) || fresh(buf)
    {
      var useSep := |sep| == 1;
      EnsureCap(len + (if useSep then 1 else 0) + |str|);
      ghost var front := text + Used(sep);
      assert Raw()[..|text|] == text;
      if useSep {
        buf[len - 1] := sep[0];
        len := len + 1;
      }
      assert buf[..|front|] == front;
      PlaceTail(str, front);
    }

    /** The copy over the old terminator, and the new terminator. */
    method PlaceTail(str: Bytes, ghost front: Bytes)
      requires Valid() && len == |front| + 1 && len + |str| <= cap && buf[..|front|] == front
      modifies this`len, buf
      ensures Holds(front + str)
    {
      Memcpy(buf, len - 1, str);
      len := len + |str|;
      buf[len - 1] := NUL;
      assert buf[..|front|] == front;
      assert buf[|front|..|front| + |str|] == str;
      Assembled(buf[..len], front, str);
    }
  }

  function Used(sep: Bytes): Bytes {
    if |sep| == 1 then sep else []
  }

  lemma Assembled(raw: Bytes, front: Bytes, str: Bytes)
    requires |raw| == |front| + |str| + 1
    requires raw[..|front|] == front && raw[|front|..|front| + |str|] == str && raw[|front| + |str|] == NUL
    ensures raw == front + str + [NUL]
  {
  }

  /** memcpy of a block into an array. */
  method Memcpy(dst: array<byte>, at: nat, src: Bytes)
    requires at + |src| <= dst.Length
    modifies dst
    ensures dst[at..at + |src|] == src
    ensures dst[..at] == old(dst[..at])
    ensures dst[at + |src|..] == old(dst[at + |src|..])
  {
    var i := 0;
    while i < |src|
      invariant 0 <= i <= |src|
      invariant dst[at..at + i] == src[..i]
      invariant dst[..at] == old(dst[..at])
      invariant dst[at + i..] == old(dst[at + i..])
    {
      dst[at + i] := src[i];
      i := i + 1;
    }
  }
}
