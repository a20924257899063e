/**
 The globalfifo device as its code keeps it: a fixed buffer and a length,
 updated in place. Each method is one critical section of the driver, entered
 with the mutex held; a caller that must wait gets `Asleep` back.
 */
module GlobalFifo {
  import opened Prelude
  import opened FifoSpec

  datatype Outcome = Done(ret: Ret) | Asleep

  class Device {
    const mem: array<byte>
    var currentLen: nat

    ghost predicate Valid()
      reads this
    {
      mem.Length == GLOBALFIFO_SIZE && currentLen <= GLOBALFIFO_SIZE
    }

    ghost function Contents(): (q: Queue)
      requires Valid()
      reads this, mem
    {
      mem[..currentLen]
    }

    constructor ()
      ensures Valid() && fresh(mem) && Contents() == [] && forall k :: 0 <= k < mem.Length ==> mem[k] == 0
    {
      mem := new byte[GLOBALFIFO_SIZE](_ => 0);
      currentLen := 0;
    }

    /** ioctl: FIFO_CLEAR empties the queue, any other command is refused. */
    method Control(cmd: nat) returns (ret: Ret)
      requires Valid()
      modifies this, mem
      ensures Valid()
      ensures Apply(old(Contents()), Ioctl(cmd), ret) == Some(Contents())
      ensures cmd == FIFO_CLEAR ==> forall k :: 0 <= k < mem.Length ==> mem[k] == 0
    {
      if cmd != FIFO_CLEAR {
        return Inval;
      }
      currentLen := 0;
      var i := 0;
      while i < GLOBALFIFO_SIZE
        invariant 0 <= i <= GLOBALFIFO_SIZE && mem.Length == GLOBALFIFO_SIZE && currentLen == 0
        invariant forall k :: 0 <= k < i ==> mem[k] == 0
      {
        mem[i] := 0;
        i := i + 1;
      }
      ret := Cleared;
    }

    method Poll() returns (ret: Ret)
      requires Valid()
      ensures Apply(Contents(), Call.Poll, ret) == Some(Contents())
    {
      var readable, writable := false, false;
      if currentLen != 0 {
        readable := true;
      }
      if currentLen != GLOBALFIFO_SIZE {
        writable := true;
      }
      ret := Mask(readable, writable);
    }

    /**
     copy_to_user: the user's pages end where `buf` ends; the number of bytes
     that could not be copied is returned.
     */
    method CopyToUser(buf: array<byte>, n: nat) returns (left: nat)
      requires n <= mem.Length && buf != mem
      modifies buf
      ensures left == n - Min(n, buf.Length)
      ensures buf[..n - left] == mem[..n - left]
      ensures buf[n - left..] == old(buf[n - left..])
    {
      var i := 0;
      while i < n && i < buf.Length
        invariant 0 <= i <= n && i <= buf.Length
        invariant buf[..i] == mem[..i]
        invariant buf[i..] == old(buf[i..])
      {
        ghost var rest := buf[i..];
        buf[i] := mem[i];
        i := i + 1;
        assert buf[i..] == rest[1..];
      }
      left := n - i;
    }

    /** copy_from_user to the free end of the buffer; a fault may leave a part of the data there. */
    method CopyFromUser(buf: array<byte>, n: nat) returns (left: nat)
      requires Valid() && currentLen + n <= GLOBALFIFO_SIZE && buf != mem
      modifies mem
      ensures left == n - Min(n, buf.Length)
      ensures mem[..currentLen] == old(mem[..currentLen])
      ensures mem[currentLen..currentLen + n - left] == buf[..n - left]
    {
      var i := 0;
      while i < n && i < buf.Length
        invariant 0 <= i <= n && i <= buf.Length
        invariant mem[..currentLen] == old(mem[..currentLen])
        invariant mem[currentLen..currentLen + i] == buf[..i]
      {
        ghost var head := mem[currentLen..currentLen + i];
        mem[currentLen + i] := buf[i];
        assert mem[currentLen..currentLen + i + 1] == head + [buf[i]];
        i := i + 1;
      }
      left := n - i;
    }

    /** The overlapping memcpy, byte by byte from low to high addresses, is a shift down. */
    method ShiftDown(n: nat)
      requires Valid() && n <= currentLen
      modifies mem
      ensures mem[..currentLen - n] == old(mem[n..currentLen])
    {
      var i := 0;
      while i < currentLen - n
        invariant 0 <= i <= currentLen - n
        invariant forall k :: 0 <= k < i ==> mem[k] == old(mem[n + k])
        invariant forall k :: i <= k < mem.Length ==> mem[k] == old(mem[k])
      {
        mem[i] := mem[n + i];
        i := i + 1;
      }
    }

    /** The critical section of read from its first test of the length to the unlock. */
    method Read(buf: array<byte>, count: nat, nonblock: bool) returns (out: Outcome)
      requires Valid() && buf != mem
      modifies this, mem, buf
      ensures Valid()
      ensures out.Asleep? <==> old(Contents()) == [] && !nonblock
      ensures out.Asleep? ==> Contents() == old(Contents()) && buf[..] == old(buf[..])
      ensures out.Done? ==> Apply(old(Contents()), Call.Read(count, nonblock), out.ret) == Some(Contents())
      ensures out.Done? && !out.ret.Fault? ==> var call := Call.Read(count, nonblock);
        ReturnsAtOnce(old(Contents()), call) && out.ret == Answer(old(Contents()), call)
      ensures out == Done(Fault) <==> old(Contents()) != [] && Min(count, |old(Contents())|) > buf.Length
      ensures out.Done? && out.ret.Got? ==>
        var n := |out.ret.bytes|; n <= buf.Length && buf[..n] == out.ret.bytes && buf[n..] == old(buf[n..])
      ensures out == Done(Fault) ==> buf[..] == old(Contents())[..buf.Length]
      ensures out == Done(Again) ==> buf[..] == old(buf[..])
    {
      if currentLen == 0 {
        return if nonblock then Done(Again) else Asleep;
      }
      var n := count;
      if n > currentLen {
        n := currentLen;
      }
      var left := CopyToUser(buf, n);
      if left != 0 {
        return Done(Fault);
      }
      ghost var q := Contents();
      assert buf[..n] == q[..n] && q[n..] == mem[n..currentLen];
      ShiftDown(n);
      currentLen := currentLen - n;
      AnswerUnique(q, Call.Read(count, nonblock), Got(buf[..n]));
      out := Done(Got(buf[..n]));
    }

    /** The critical section of write. */
    method Write(buf: array<byte>, count: nat, nonblock: bool, ghost data: seq<byte>) returns (out: Outcome)
      requires Valid() && buf != mem
      requires |data| == count && buf[..Min(count, buf.Length)] == data[..Min(count, buf.Length)]
      modifies this, mem
      ensures Valid()
      ensures out.Asleep? <==> |old(Contents())| == GLOBALFIFO_SIZE && !nonblock
      ensures out.Asleep? ==> Contents() == old(Contents())
      ensures out.Done? ==> Apply(old(Contents()), Call.Write(data, nonblock), out.ret) == Some(Contents())
      ensures out.Done? && !out.ret.Fault? ==> var call := Call.Write(data, nonblock);
        ReturnsAtOnce(old(Contents()), call) && out.ret == Answer(old(Contents()), call)
      ensures out == Done(Fault) <==>
        var room := GLOBALFIFO_SIZE - |old(Contents())|; room > 0 && Min(count, room) > buf.Length
    {
      if currentLen == GLOBALFIFO_SIZE {
        return if nonblock then Done(Again) else Asleep;
      }
      var n := count;
      if n > GLOBALFIFO_SIZE - currentLen {
        n := GLOBALFIFO_SIZE - currentLen;
      }
      ghost var q := Contents();
      var left := CopyFromUser(buf, n);
      if left != 0 {
        return Done(Fault);
      }
      assert buf[..n] == data[..n] by {
        assert data[..n] == data[..Min(count, buf.Length)][..n];
        assert buf[..n] == buf[..Min(count, buf.Length)][..n];
      }
      currentLen := currentLen + n;
      assert Contents() == q + data[..n];
      AnswerUnique(q, Call.Write(data, nonblock), Put(n));
      out := Done(Put(n));
    }
  }
}
