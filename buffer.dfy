/**
 * The byte buffer of buffer.c, used to collect the output of child processes
 * and to cut it into lines. Data lives in an array of capacity msize, of which
 * the first len bytes are in use; the capacity grows to a power of two and
 * never beyond MAX_BUFFER_SIZE, and a buffer that would have to grow beyond it
 * becomes invalid for good.
 */
module Buffers {
  import opened Wrappers
  import opened Words
  import Utils

  /** MAX_BUFFER_SIZE. */
  const MaxBufferSize: nat := 4096

  /** The capacity buffer_init allocates. */
  const InitialSize: nat := 64

  /** The capacity a fill grows to: the next power of two of the current capacity plus the new data. */
  function Growth(msize: nat, n: nat): nat
    requires msize <= MaxBufferSize && n <= Two63
  {
    Utils.NextPow2Nat(msize + n)
  }

  /** Whether buffer_fill accepts n more bytes: they fit, or the grown capacity is within bounds and did not wrap. */
  predicate FillAccepts(msize: nat, len: nat, n: nat)
    requires len <= msize <= MaxBufferSize && n <= Two63
  {
    n <= msize - len || (Growth(msize, n) <= MaxBufferSize && Growth(msize, n) >= msize)
  }

  /** A grown capacity that is accepted holds the old capacity plus the data and stays a power of two. */
  lemma GrowthFits(msize: nat, len: nat, n: nat)
    requires len <= msize <= MaxBufferSize && n <= Two63 && n > msize - len
    requires Growth(msize, n) <= MaxBufferSize && Growth(msize, n) >= msize
    ensures IsPow2(Growth(msize, n)) && msize + n <= Growth(msize, n) < 2 * (msize + n)
  {
    hide Utils.NextPow2Nat, Pow2;
    if msize + n <= Two63 {
      Utils.NextPow2NatBounds(msize + n, 0);
    } else {
      Utils.NextPow2NatWraps(msize + n);
    }
  }

  /**
   * A fill is accepted exactly when the data fits, or when the capacity plus
   * the data stays within MAX_BUFFER_SIZE. The test is on the capacity, not on
   * the bytes in use, so data that would fit may still be refused.
   */
  lemma FillAcceptsIff(msize: nat, len: nat, n: nat)
    requires len <= msize <= MaxBufferSize && n <= Two63 && msize >= 1
    ensures FillAccepts(msize, len, n) <==> n <= msize - len || msize + n <= MaxBufferSize
  {
    hide Utils.NextPow2Nat, Pow2;
    if n > msize - len {
      if msize + n <= Two63 {
        Pow2Value12();
        Utils.NextPow2NatBounds(msize + n, 12);
      } else {
        Utils.NextPow2NatWraps(msize + n);
      }
    }
  }

  /**
   * Capacity 2048 with 2000 bytes in use (init, then two fills of 1000 bytes):
   * a fill of 2049 bytes is refused, since next_pow2(2048 + 2049) is 8192,
   * although the 4049 bytes would fit within MAX_BUFFER_SIZE.
   */
  lemma RefusesDataThatWouldFit()
    ensures !FillAccepts(2048, 2000, 2049) && 2000 + 2049 <= MaxBufferSize
  {
    FillAcceptsIff(2048, 2000, 2049);
  }

  lemma Pow2Value12()
    ensures Pow2(12) == MaxBufferSize
  {
    assert Pow2(6) == 64;
    Pow2Add(6, 6);
  }

  class Buffer {
    var data: array<char>
    var len: nat
    var msize: nat
    var valid: bool

    /** The capacity is the array's length, a power of two between 64 and MAX_BUFFER_SIZE, and holds the bytes in use. */
    ghost predicate Valid()
      reads this
    {
      data.Length == msize && len <= msize && InitialSize <= msize <= MaxBufferSize && IsPow2(msize)
    }

    /** The bytes in use. */
    ghost function Contents(): seq<char>
      reads this, data
      requires Valid()
    {
      data[..len]
    }

    /** buffer_init: an empty, valid buffer with capacity 64. */
    constructor ()
      ensures Valid() && fresh(data) && valid && len == 0 && msize == InitialSize && Contents() == []
    {
      data := new char[InitialSize];
      len := 0;
      msize := InitialSize;
      valid := true;
      new;
      assert IsPow2(64) by { Pow2IsPow2(6); assert Pow2(6) == 64; }
    }

    /** buffer_clear: a valid buffer forgets its bytes and keeps its capacity. */
    method Clear()
      requires Valid()
      modifies this
      ensures Valid() && data == old(data) && msize == old(msize) && valid == old(valid)
      ensures len == if valid then 0 else old(len)
    {
      if valid {
        len := 0;
      }
    }

    /** buffer_len: the number of bytes in use, or 0 for an invalid buffer. */
    method Len() returns (r: nat)
      requires Valid()
      ensures r == if valid then |Contents()| else 0
    {
      if !valid {
        return 0;
      }
      r := len;
    }

    /** buffer_is_empty: false for an invalid buffer. */
    method IsEmpty() returns (r: bool)
      requires Valid()
      ensures r <==> valid && Contents() == []
    {
      if !valid {
        return false;
      }
      r := len == 0;
    }

    /** Copies the bytes in use into a fresh array of capacity newSize (utils_realloc). */
    method Grow(newSize: nat)
      requires Valid() && len <= newSize
      modifies this
      ensures len == old(len) && msize == newSize && valid == old(valid)
      ensures data.Length == newSize && fresh(data) && data[..len] == old(data[..len])
    {
      var grown := new char[newSize];
      var i := 0;
      while i < len
        invariant 0 <= i <= len && grown[..i] == data[..i]
        modifies grown
      {
        grown[i] := data[i];
        i := i + 1;
      }
      assert grown[..len] == data[..len];
      data := grown;
      msize := newSize;
    }

    /**
     * buffer_fill: appends the bytes, growing the capacity first if they do not
     * fit; a buffer that cannot grow becomes invalid.
     */
    method Fill(bytes: seq<char>) returns (ok: bool)
      requires Valid() && |bytes| <= Two63
      modifies this, data
      ensures Valid()
      ensures ok <==> old(valid) && FillAccepts(old(msize), old(len), |bytes|)
      ensures ok ==> valid && Contents() == old(Contents()) + bytes
      ensures ok ==> msize == if |bytes| <= old(msize) - old(len) then old(msize) else Growth(old(msize), |bytes|)
      ensures !ok ==> !valid && len == old(len) && msize == old(msize) && Contents() == old(Contents())
    {
      hide FillAccepts, Growth;
      if !valid {
        return false;
      }
      ok := Reserve(|bytes|);
      if ok {
        Append(bytes);
      }
    }

    /** The test and resize at the head of buffer_fill, for a valid buffer. */
    method Reserve(n: nat) returns (ok: bool)
      requires Valid() && valid && n <= Two63
      modifies this
      ensures Valid() && len == old(len) && data[..len] == old(data[..len])
      ensures data == old(data) || fresh(data)
      ensures ok <==> FillAccepts(old(msize), old(len), n)
      ensures ok ==> valid && len + n <= msize
      ensures ok ==> msize == if n <= old(msize) - old(len) then old(msize) else Growth(old(msize), n)
      ensures !ok ==> !valid && msize == old(msize) && data == old(data)
    {
      if n > msize - len {
        var newSize := Utils.NextPow2Nat(msize + n);
        if newSize > MaxBufferSize {
          valid := false;
          return false;
        }
        if newSize < msize {
          valid := false;
          return false;
        }
        GrowthFits(msize, len, n);
        Grow(newSize);
      }
      ok := true;
    }

    /** The memcpy of buffer_fill into room already reserved. */
    method Append(bytes: seq<char>)
      requires Valid() && len + |bytes| <= msize
      modifies this, data
      ensures Valid() && data == old(data) && msize == old(msize) && valid == old(valid)
      ensures Contents() == old(Contents()) + bytes
    {
      ghost var before := data[..len];
      var i := 0;
      while i < |bytes|
        invariant 0 <= i <= |bytes|
        invariant data[..len] == before && data[len..len + i] == bytes[..i]
        modifies data
      {
        data[len + i] := bytes[i];
        i := i + 1;
        assert data[len..len + i] == data[len..len + i - 1] + [bytes[i - 1]];
      }
      assert data[..len + |bytes|] == data[..len] + data[len..len + |bytes|];
      len := len + |bytes|;
    }

    /**
     * buffer_fill_from_fd with the result of read(2) given: a positive count is
     * appended, and reported as 0 if the buffer refuses it.
     */
    method FillFromRead(count: int, got: seq<char>) returns (bytes: int)
      requires Valid() && (count > 0 ==> |got| == count) && count <= Two63
      modifies this, data
      ensures Valid()
      ensures !old(valid) ==> bytes == 0 && len == old(len) && Contents() == old(Contents())
      ensures old(valid) && count <= 0 ==> bytes == count && Contents() == old(Contents())
      ensures old(valid) && count > 0 ==>
        (bytes == count <==> FillAccepts(old(msize), old(len), count))
        && (bytes == count ==> Contents() == old(Contents()) + got)
        && (bytes != count ==> bytes == 0)
    {
      if !valid {
        return 0;
      }
      bytes := count;
      if count > 0 {
        var ok := Fill(got);
        if !ok {
          bytes := 0;
        }
      }
    }

    /**
     * buffer_read_line: cuts off the bytes before the first newline, and the
     * newline; without a newline nothing changes.
     */
    method ReadLine() returns (ok: bool, line: seq<char>)
      requires Valid()
      modifies this, data
      ensures Valid() && data == old(data) && msize == old(msize) && valid == old(valid)
      ensures ok <==> old(valid) && '\n' in old(Contents())
      ensures ok ==> old(Contents()) == line + ['\n'] + Contents() && '\n' !in line
      ensures !ok ==> line == [] && len == old(len) && Contents() == old(Contents())
    {
      if !valid {
        return false, [];
      }
      var pos := FindNewline();
      if pos == len {
        return false, [];
      }
      line := data[..pos];
      ghost var all := data[..len];
      assert all == line + ['\n'] + all[pos + 1..];
      ShiftDown(pos + 1);
      ok := true;
    }

    /** The memchr of buffer_read_line: the index of the first newline in use, or len. */
    method FindNewline() returns (pos: nat)
      requires Valid()
      ensures pos <= len && '\n' !in data[..pos]
      ensures pos < len ==> data[pos] == '\n'
      ensures pos == len <==> '\n' !in Contents()
    {
      pos := 0;
      while pos < len && data[pos] != '\n'
        invariant 0 <= pos <= len && '\n' !in data[..pos]
      {
        pos := pos + 1;
      }
      if pos == len {
        assert data[..len] == data[..pos];
      }
    }

    /** The memmove of buffer_read_line: the bytes from index from onwards move to the front. */
    method ShiftDown(from: nat)
      requires Valid() && from <= len
      modifies this, data
      ensures Valid() && data == old(data) && msize == old(msize) && valid == old(valid)
      ensures Contents() == old(Contents())[from..]
    {
      ghost var all := data[..len];
      var rest := len - from;
      var i := 0;
      while i < rest
        invariant 0 <= i <= rest
        invariant forall k :: 0 <= k < i ==> data[k] == all[from + k]
        invariant forall k :: i <= k < len ==> data[k] == all[k]
        modifies data
      {
        data[i] := data[from + i];
        i := i + 1;
      }
      len := rest;
      assert data[..len] == all[from..];
    }

    /** buffer_flush: a copy of the bytes in use, which stay in the buffer; false when empty. */
    method Flush() returns (ok: bool, out: seq<char>)
      requires Valid()
      ensures ok <==> valid && Contents() != []
      ensures ok ==> out == Contents()
    {
      if !valid || len == 0 {
        return false, [];
      }
      out := data[..len];
      ok := true;
    }

    /** buffer_to_string: None (NULL) when invalid or empty, otherwise a copy of the bytes. */
    method ToString() returns (r: Option<seq<char>>)
      requires Valid()
      ensures r.Some? <==> valid && Contents() != []
      ensures r.Some? ==> r.value == Contents()
    {
      if !valid || len == 0 {
        return None;
      }
      r := Some(data[..len]);
    }
  }
}
