/** The circular output window of inflate and its hand-over to the caller's
    buffer: inflate_flush and the NEEDOUT, WRAP and OUTBYTE macros. */
module InflateWindow {
  import opened Basics
  import opened Bits
  import opened HuftBuild

  /** Window size: 1 << 15, the only size inflateInit2 asks for. */
  const WSIZE: nat := 32768

  /** Where in the window byte number t of the output lives. */
  function Slot(t: nat): nat { t % WSIZE }

  lemma SlotStep(t: nat)
    ensures Slot(t) < WSIZE && Slot(t + 1) == (if Slot(t) + 1 == WSIZE then 0 else Slot(t) + 1)
  {
  }

  lemma SlotAdd(t: nat, n: nat)
    requires Slot(t) + n <= WSIZE
    ensures Slot(t + n) == (if Slot(t) + n == WSIZE then 0 else Slot(t) + n)
  {
  }

  /** Bytes less than a window apart are not in each other's place. */
  lemma SlotSmall(t: nat)
    requires t < WSIZE
    ensures Slot(t) == t
  {
  }

  lemma SlotWrap(t: nat)
    ensures Slot(t + WSIZE) == Slot(t)
  {
  }

  function Min(a: nat, b: nat): nat { if a < b then a else b }

  class Window {
    const buf: array<byte>
    var read: nat           // s->read - s->window
    var write: nat          // s->write - s->window
    var availOut: nat       // z->avail_out
    var out: seq<byte>      // everything copied to z->next_out; total_out is its length
    ghost var made: seq<byte>   // everything produced so far

    /** Byte number t of the output lives at t modulo the window size; the last
        WSIZE bytes are there, the ones not handed over among them, and zeros where no byte
        was written yet. */
    ghost predicate Valid()
      reads this, buf
    {
      && buf.Length == WSIZE
      && read < WSIZE && write <= WSIZE
      && out <= made
      && |made| - |out| == (if read <= write then write - read else WSIZE - read + write)
      && read == Slot(|out|)
      && (if write == WSIZE then 0 else write) == Slot(|made|)
      && (forall t {:trigger made[t]} | 0 <= t < |made| && |made| - WSIZE <= t :: buf[Slot(t)] == made[t])
      && (forall i | |made| <= i < WSIZE :: buf[i] == 0)
    }

    constructor ()
      ensures Valid() && out == [] && made == [] && availOut == 0 && fresh(buf) && write == 0
    {
      buf := new byte[WSIZE](i => 0);
      read, write, availOut := 0, 0, 0;
      out, made := [], [];
    }

    /** WAVAIL: bytes that can be written before the end of the window or the read pointer. */
    function Room(): int
      reads this
    {
      if write < read then read - write - 1 else WSIZE - write
    }

    /** No room means something waits for the caller. */
    lemma RoomOrPending()
      requires Valid()
      ensures Room() >= 0
      ensures Room() == 0 && !(write == WSIZE && read != 0) ==> |out| < |made|
    {
    }

    /** OUTBYTE. */
    method OutByte(b: byte)
      requires Valid() && Room() > 0
      modifies this`write, this`made, buf
      ensures Valid() && made == old(made) + [b] && Room() == old(Room()) - 1
      ensures write == old(write) + 1
      ensures forall i | 0 <= i < WSIZE && i != old(write) :: buf[i] == old(buf[i])
    {
      buf[write] := b;
      write := write + 1;
      made := made + [b];
    }

    /** WRAP. */
    method Wrap()
      requires Valid()
      modifies this`write
      ensures Valid()
      ensures !(write == WSIZE && read != 0)
      ensures old(write) < WSIZE ==> write == old(write)
    {
      if write == WSIZE && read != 0 {
        write := 0;
      }
    }

    /** What a flush hands over. */
    ghost function Flushable(): nat
      reads this
      requires |out| <= |made|
    {
      Min(|made| - |out|, availOut)
    }

    /** Bytes of the window from read on, up to the end, are the next bytes of the output. */
    lemma PendingBytes(n: nat)
      requires Valid() && |out| + n <= |made| && read + n <= WSIZE
      ensures buf[read..read + n] == made[|out|..|out| + n]
    {
      hide Slot;
      forall x | read <= x < read + n
        ensures buf[x] == made[|out| + (x - read)]
      {
        SlotAdd(|out|, x - read);
        var t := |out| + (x - read);
        assert made[t] == buf[Slot(t)];
      }
    }

    /** One memcpy of inflate_flush: n bytes from read on, then wrap the pointers. */
    method CopyOut(n: nat)
      requires Valid() && n <= availOut && |out| + n <= |made| && read + n <= WSIZE
      modifies this`read, this`write, this`availOut, this`out
      ensures Valid()
      ensures out == old(made[..|out| + n]) && availOut == old(availOut) - n
      ensures read == (if old(read) + n == WSIZE then 0 else old(read) + n)
      ensures write == (if old(read) + n == WSIZE && old(write) == WSIZE then 0 else old(write))
    {
      PendingBytes(n);
      out := out + buf[read..read + n];
      assert out == made[..|out|];
      availOut := availOut - n;
      read := read + n;
      if read == WSIZE {
        read := 0;
        if write == WSIZE { write := 0; }
      }
    }

    /** inflate_flush: hand over as much as the caller takes, in two pieces when the
        pending bytes wrap round. Progress turns Z_BUF_ERROR into Z_OK. */
    method Flush(r0: int) returns (r: int)
      requires Valid()
      modifies this`read, this`write, this`availOut, this`out
      ensures Valid()
      ensures out == old(made[..|out| + Flushable()])
      ensures availOut == old(availOut) - (|out| - |old(out)|)
      ensures r == (if r0 == Z_BUF_ERROR && |out| > |old(out)| then Z_OK else r0)
      ensures |out| < |made| ==> availOut == 0
      ensures |out| == |made| ==> read == write
    {
      r := r0;
      var n := (if read <= write then write else WSIZE) - read;
      if n > availOut { n := availOut; }
      if n != 0 && r == Z_BUF_ERROR { r := Z_OK; }
      var toEnd := read + n == WSIZE;
      CopyOut(n);
      if toEnd {
        n := write - read;
        if n > availOut { n := availOut; }
        if n != 0 && r == Z_BUF_ERROR { r := Z_OK; }
        CopyOut(n);
      }
    }

    /** NEEDOUT: make room for a byte, flushing if there is none. When that fails the
        caller's buffer is full while output waits. */
    method NeedOut(r0: int) returns (ok: bool, r: int)
      requires Valid()
      modifies this`read, this`write, this`availOut, this`out
      ensures Valid()
      ensures old(out) <= out && |out| - |old(out)| == old(availOut) - availOut
      ensures ok ==> Room() > 0 && r == Z_OK
      ensures !ok ==> availOut == 0 && |out| < |made|
      ensures !ok ==> r == (if r0 == Z_BUF_ERROR && |out| > |old(out)| then Z_OK else r0)
    {
      hide Slot;
      r := r0;
      if Room() == 0 {
        Wrap();
        if Room() == 0 {
          r := Flush(r);
          Wrap();
          if Room() == 0 {
            RoomOrPending();
            ok := false;
            return;
          }
        }
      }
      RoomOrPending();
      ok, r := true, Z_OK;
    }

    /** Granting more output space. */
    method Grant(n: nat)
      requires Valid()
      modifies this`availOut
      ensures Valid() && availOut == old(availOut) + n
    {
      availOut := availOut + n;
    }
  }
}
