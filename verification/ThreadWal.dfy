/**
 The thread-local write-ahead log (thread_wal_write, thread_wal_flush_buffer_locked,
 thread_wal_rotate, thread_wal_seal and the timer callback), with I/O that does not fail: frames
 pass through a 4096-byte buffer into the current file, which is sealed when it would grow to
 its limit.
 */
module ThreadWal {
  import opened Common
  import opened Codec

  const BUFFER: nat := 4096

  datatype Sync = Immediate | Debounced | Async

  lemma {:induction false} LogAppend(a: seq<Frame>, b: seq<Frame>, crc: Bytes -> U32)
    ensures LogBytes(a + b, crc) == LogBytes(a, crc) + LogBytes(b, crc)
  {
    if a == [] {
      assert a + b == b;
    } else {
      assert (a + b)[1..] == a[1..] + b;
      LogAppend(a[1..], b, crc);
    }
  }

  lemma LogOne(f: Frame, crc: Bytes -> U32)
    ensures LogBytes([f], crc) == FrameBytes(f, crc)
  {
    assert [f][1..] == [];
  }

  /** Frames of several files, one after the other. */
  ghost function Joined(files: seq<seq<Frame>>): seq<Frame> {
    if files == [] then [] else Joined(files[..|files| - 1]) + files[|files| - 1]
  }

  lemma JoinedPush(files: seq<seq<Frame>>, last: seq<Frame>)
    ensures Joined(files + [last]) == Joined(files) + last
  {
    assert (files + [last])[..|files|] == files;
  }

  /** A file holds whole frames only, so reading it back gives just those. */
  lemma FileReads(fs: seq<Frame>, crc: Bytes -> U32)
    requires forall i | 0 <= i < |fs| :: Writable(fs[i])
    ensures ReadLog(LogBytes(fs, crc), crc) == fs
  {
    hide LogBytes, ReadLog, Whole;
    var b := LogBytes(fs, crc);
    ReadCut(fs, crc, |b|);
    WholeAll(fs, crc);
    assert b[..|b|] == b && fs[..|fs|] == fs;
  }

  lemma {:induction false} WholeAll(fs: seq<Frame>, crc: Bytes -> U32)
    ensures Whole(fs, |LogBytes(fs, crc)|) == |fs|
  {
    if fs != [] { WholeAll(fs[1..], crc); }
  }

  lemma LogSize(fs: seq<Frame>, crc: Bytes -> U32)
    ensures fs == [] <==> LogBytes(fs, crc) == []
  {
  }

  /** The bytes left in the buffer by a write of size bytes into a buffer that holds used: a frame that
      does not fit finds it emptied, and it is emptied again in immediate mode and above half. */
  ghost function Left(used: nat, size: nat, mode: Sync): nat {
    var filled := if used + size > 4096 then size else used + size;
    if mode == Immediate || filled > 2048 then 0 else filled
  }

  class Wal {
    const crc: Bytes -> U32
    const mode: Sync
    const maxSize: nat
    const batchSize: nat
    const buf: array<Byte>
    var used: nat
    var batchCount: nat
    var file: Bytes           // contents of the current file
    var synced: nat           // bytes of it known to be on disk
    var currentSize: nat
    var sealed: seq<Bytes>    // contents of the sealed files, oldest first
    var onDisk: seq<nat>      // bytes of each sealed file known to be on disk
    var open: bool

    // the frames those bytes are
    ghost var inBuffer: seq<Frame>
    ghost var inFile: seq<Frame>
    ghost var inSealed: seq<seq<Frame>>

    /** Everything accepted so far, in order. */
    ghost function Accepted(): seq<Frame>
      reads this
    {
      Joined(inSealed) + inFile + inBuffer
    }

    /** Holds in the middle of an operation too. */
    ghost predicate Core()
      reads this, buf
    {
      && buf.Length == BUFFER && used <= BUFFER && batchSize == (if mode == Immediate then 1 else 0)
      && buf[..used] == LogBytes(inBuffer, crc) && file == LogBytes(inFile, crc)
      && |sealed| == |inSealed| && (forall i | 0 <= i < |sealed| :: sealed[i] == LogBytes(inSealed[i], crc))
      && |onDisk| == |sealed| && (forall i | 0 <= i < |sealed| :: onDisk[i] == |sealed[i]|)
      && batchCount == |inBuffer| && currentSize == |file| && synced <= |file|
      && (mode == Immediate ==> synced == |file|)
    }

    /** A file stays below its limit unless it holds a single frame, the buffer is at most half full,
        and in immediate mode nothing is left in it. */
    ghost predicate Valid()
      reads this, buf
    {
      && Core() && (mode == Immediate ==> inBuffer == []) && used <= 2048
      && (|file| + used < maxSize || |inFile| + |inBuffer| <= 1)
    }

    constructor (crc: Bytes -> U32, mode: Sync, maxSize: nat)
      ensures Valid() && fresh(buf) && Accepted() == [] && open
      ensures this.crc == crc && this.mode == mode && this.maxSize == maxSize
    {
      this.crc := crc;
      this.mode := mode;
      this.maxSize := maxSize;
      batchSize := if mode == Immediate then 1 else 0;
      buf := new Byte[BUFFER](_ => 0);
      used, batchCount, currentSize, synced := 0, 0, 0, 0;
      file, sealed, onDisk, open := [], [], [], true;
      inBuffer, inFile, inSealed := [], [], [];
    }

    /** thread_wal_flush_buffer_locked. */
    method Flush()
      requires Core()
      modifies this`used, this`batchCount, this`file, this`synced, this`currentSize, this`inBuffer, this`inFile
      ensures Core() && inBuffer == [] && used == 0 && inFile == old(inFile) + old(inBuffer)
      ensures file == old(file + buf[..used])
      ensures mode != Immediate ==> synced == old(synced)
    {
      hide LogBytes;
      LogSize(inBuffer, crc);
      LogAppend(inFile, inBuffer, crc);
      if batchCount == 0 || used == 0 {
        assert inFile + [] == inFile && file + [] == file;
        return;
      }
      file := file + buf[..used];
      currentSize := currentSize + used;
      if mode == Immediate { synced := |file|; }
      used, batchCount := 0, 0;
      inFile, inBuffer := inFile + inBuffer, [];
      LogSize([], crc);
    }

    /** thread_wal_rotate: the current file is synced and sealed, a new one is opened. */
    method Rotate()
      requires Core() && inBuffer == []
      modifies this`file, this`synced, this`currentSize, this`sealed, this`onDisk, this`inFile, this`inSealed
      ensures Core() && sealed == old(sealed) + [old(file)] && file == [] && inFile == []
      ensures inSealed == old(inSealed) + [old(inFile)]
    {
      synced := |file|;
      sealed, onDisk := sealed + [file], onDisk + [synced];
      inSealed := inSealed + [inFile];
      file, synced, currentSize := [], 0, 0;
      inFile := [];
    }

    /** Copy a frame to the end of the buffer. */
    method Buffer(f: Frame)
      requires Core() && used + HEADER + |f.data| <= BUFFER
      modifies this`used, this`batchCount, this`inBuffer, buf
      ensures Core() && inBuffer == old(inBuffer) + [f] && used == old(used) + HEADER + |f.data|
    {
      var b := FrameBytes(f, crc);
      FrameLength(f, crc);
      LogAppend(inBuffer, [f], crc);
      LogOne(f, crc);
      hide LogBytes, FrameBytes;
      CopyIn(b);
      used := used + |b|;
      batchCount := batchCount + 1;
      inBuffer := inBuffer + [f];
    }

    /** memcpy behind the used part of the buffer. */
    method CopyIn(b: Bytes)
      requires used + |b| <= buf.Length
      modifies buf
      ensures buf[..used + |b|] == old(buf[..used]) + b
    {
      forall i | 0 <= i < |b| { buf[used + i] := b[i]; }
    }

    /** A frame larger than the buffer goes straight to the file. */
    method WriteThrough(f: Frame)
      requires Core() && inBuffer == []
      modifies this`file, this`synced, this`currentSize, this`inFile
      ensures Core() && inFile == old(inFile) + [f] && |file| == old(|file|) + HEADER + |f.data|
      ensures synced == if mode != Async then |file| else old(synced)
    {
      LogAppend(inFile, [f], crc);
      LogOne(f, crc);
      hide LogBytes;
      file := file + FrameBytes(f, crc);
      currentSize := currentSize + HEADER + |f.data|;
      inFile := inFile + [f];
      if mode != Async { synced := |file|; }
    }

    /** The first half of thread_wal_write: rotate when the file would reach its limit. */
    method MakeRoom(size: nat)
      requires Valid()
      modifies this
      ensures Core() && Accepted() == old(Accepted()) && open == old(open)
      ensures sealed == if old(|file| + used) + size >= maxSize then old(sealed) + [old(file + buf[..used])] else old(sealed)
      ensures mode == Immediate ==> inBuffer == []
      ensures |file| + used + size < maxSize || inFile + inBuffer == []
    {
      hide Core, Joined, LogBytes;
      CoreSizes();
      if currentSize + used + size >= maxSize {
        assert used == 0 ==> file + buf[..used] == file;
        if batchCount > 0 {
          assert Joined(inSealed) + inFile + inBuffer == Joined(inSealed) + (inFile + inBuffer) + [];
          Flush();
        }
        JoinedPush(inSealed, inFile);
        assert Joined(inSealed) + inFile + [] + [] == Joined(inSealed) + inFile + [];
        Rotate();
      }
    }

    /** The second half: into the buffer, or past it when the frame is too large. */
    method Place(f: Frame)
      requires Core() && (mode == Immediate ==> inBuffer == [])
      requires |file| + used + HEADER + |f.data| < maxSize || inFile + inBuffer == []
      modifies this`used, this`batchCount, this`file, this`synced, this`currentSize, this`inBuffer, this`inFile, buf
      ensures Valid() && inFile + inBuffer == old(inFile + inBuffer) + [f]
      ensures used == Left(old(used), HEADER + |f.data|, mode)
      ensures synced == if mode == Immediate || (mode == Debounced && HEADER + |f.data| > 4096) then |file| else old(synced)
    {
      hide Core, LogBytes;
      var size := HEADER + |f.data|;
      ghost var was, sum := inFile + inBuffer, |file| + used;
      CoreSizes();
      if used + size > BUFFER {
        Flush();
        assert inFile + inBuffer == was && |file| + used == sum;
        if size > BUFFER {
          WriteThrough(f);
          CoreSizes();
          assert inFile + inBuffer == was + [f];
          return;
        }
      }
      Buffer(f);
      CoreSizes();
      assert inFile + inBuffer == was + [f] && |file| + used == sum + size;
      if used > BUFFER / 2 || (batchSize > 0 && batchCount >= batchSize) {
        Flush();
        CoreSizes();
        assert inFile + inBuffer == was + [f] && |file| + used == sum + size;
      }
    }

    /** thread_wal_write with no encryption and no limit on sealed files. Sealed files, current file
        and buffer together hold exactly the accepted frames in order; each frame lies in one of
        them; in immediate mode the frame is on disk on return, and so is a frame larger than the buffer
        in debounced mode; a file is sealed exactly when this frame would make it reach its limit. */
    method Write(f: Frame)
      requires Valid() && open
      modifies this, buf
      ensures Valid() && open && Accepted() == old(Accepted()) + [f]
      ensures mode == Immediate ==> inBuffer == [] && synced == |file|
      ensures 33 + |f.data| > 4096 && mode != Async ==> synced == |file|
      ensures sealed == if old(|file| + used) + 33 + |f.data| >= maxSize then old(sealed) + [old(file + buf[..used])] else old(sealed)
    {
      hide Core, LogBytes, Joined;
      MakeRoom(HEADER + |f.data|);
      ghost var head, was := Joined(inSealed), inFile + inBuffer;
      assert head + inFile + inBuffer == head + was;
      Place(f);
      CoreSizes();
      assert head + inFile + inBuffer == head + (inFile + inBuffer) == head + was + [f];
    }

    /** wal_flush_timer_callback: drain an idle buffer; only debounced mode syncs. */
    method Drain()
      requires Valid() && open
      modifies this`used, this`batchCount, this`file, this`synced, this`currentSize, this`inBuffer, this`inFile
      ensures Valid() && Accepted() == old(Accepted()) && inBuffer == []
      ensures mode == Debounced ==> synced == |file|
    {
      hide LogBytes, Joined;
      assert Joined(inSealed) + inFile + inBuffer == Joined(inSealed) + (inFile + inBuffer) + [];
      if batchCount > 0 { Flush(); }
      if mode == Debounced { synced := |file|; }
    }

    /** thread_wal_seal: everything accepted is then in sealed files. */
    method Seal()
      requires Valid() && open
      modifies this
      ensures Core() && !open && inBuffer == [] && inFile == []
      ensures Accepted() == old(Accepted()) == Joined(inSealed)
    {
      hide LogBytes, Joined;
      assert Joined(inSealed) + inFile + inBuffer == Joined(inSealed) + (inFile + inBuffer);
      if batchCount > 0 { Flush(); }
      JoinedPush(inSealed, inFile);
      Rotate();
      assert Joined(inSealed) + [] + [] == Joined(inSealed);
      open := false;
    }

    lemma CoreSizes()
      requires Core()
      ensures batchCount == |inBuffer| && currentSize == |file| && buf.Length == BUFFER && used <= BUFFER
      ensures batchSize == (if mode == Immediate then 1 else 0) && (mode == Immediate ==> synced == |file|)
      ensures inBuffer == [] <==> used == 0
    {
      LogSize(inBuffer, crc);
    }
  }

  // ---------------------------------------------------------------- whole runs

  datatype Act = WriteFrame(frame: Frame) | TimerFires

  ghost function Given(acts: seq<Act>): seq<Frame> {
    if acts == [] then []
    else
      var last := acts[|acts| - 1];
      Given(acts[..|acts| - 1]) + (if last.WriteFrame? then [last.frame] else [])
  }

  /** Every run of writes and timer events, sealed at the end or not: the files and the buffer hold
      exactly the frames given, in order; after sealing, the sealed files alone do. */
  method Run(crc: Bytes -> U32, mode: Sync, maxSize: nat, acts: seq<Act>, seal: bool) returns (w: Wal)
    ensures w.Core() && w.Accepted() == Given(acts) && w.mode == mode
    ensures seal ==> Joined(w.inSealed) == Given(acts)
    ensures !seal ==> w.Valid()
  {
    hide LogBytes, Joined;
    w := new Wal(crc, mode, maxSize);
    var i := 0;
    while i < |acts|
      invariant 0 <= i <= |acts| && fresh(w) && fresh(w.buf) && w.Valid() && w.open && w.mode == mode
      invariant w.Accepted() == Given(acts[..i])
    {
      assert acts[..i + 1][..i] == acts[..i];
      match acts[i] {
        case WriteFrame(f) => w.Write(f);
        case TimerFires => w.Drain();
      }
      i := i + 1;
    }
    assert acts[..i] == acts;
    if seal { w.Seal(); }
  }
}
