/**
 * The facade over the kernel (`Native()`), the mapped-memory object it hands
 * out, and the `File` handle that wraps a descriptor.
 *
 * The kernel is an oracle: every facade method receives the kernel's reply
 * (a value and an optional error message) as a parameter, and the facade
 * records in the ghost log `issued` every call it actually makes.
 */
module Linux {
  import opened Ints
  import opened Errors
  import opened Api
  import opened Files

  /** A raw kernel call, with the arguments the facade passes. */
  datatype Syscall =
    | SysRead(fd: FileDescriptor, count: nat)
    | SysWrite(fd: FileDescriptor, data: seq<byte>)
    | SysOpen(path: Path, flags: Word, perm: FilePermissions)
    | SysClose(fd: FileDescriptor)
    | SysStat(path: Path)
    | SysFstat(fd: FileDescriptor)
    | SysLstat(path: Path)
    | SysPoll(files: seq<FileToPoll>, milliseconds: Int64)
    | SysSeek(fd: FileDescriptor, offset: Int64, whence: SeekWhence)
    | SysMmap(fd: FileDescriptor, offset: Int64, length: Int64, prot: MemoryProtection, flags: Word)

  /** What the kernel answers: a value, and the message of the error it reports, if any. */
  datatype Reply<T> = Reply(value: T, errno: Option<string>)

  /** An untyped address: nil, or the address of an element of a buffer. */
  datatype Pointer = Nil | ElementOf(base: array<byte>, index: nat)

  /** The taxonomy each kernel call's failures are classified through. */
  function TaxonomyOf(call: Syscall): (op: Op)
    ensures op != ProtectMemory && op != Heap
  {
    match call
    case SysRead(_, _) => Read
    case SysWrite(_, _) => Write
    case SysOpen(_, _, _) => Open
    case SysClose(_) => Close
    case SysStat(_) => Stat
    case SysFstat(_) => Stat
    case SysLstat(_) => Stat
    case SysPoll(_, _) => Poll
    case SysSeek(_, _, _) => Seek
    case SysMmap(_, _, _, _, _) => Map
  }

  /** `new(XError).parse(err)` for the taxonomy of the call that failed. */
  function Classify(call: Syscall, errno: Option<string>): (r: Option<Error>)
    ensures errno.None? <==> r.None?
    ensures r.Some? ==> Valid(r.value)
    ensures r.Some? && r.value.Variant? ==>
      r.value.op == TaxonomyOf(call) && Message(r.value.op, r.value.ordinal) == errno.value
    ensures r.Some? && r.value.Raw? ==> r.value == Raw(errno.value) && NoTag(Table(TaxonomyOf(call)), errno.value)
  {
    match errno
    case None => None
    case Some(m) =>
      TablesWellFormed(TaxonomyOf(call));
      Parse(TaxonomyOf(call), Some(Raw(m)))
  }

  /** A message from the call's own table is classified as that table's variant. */
  lemma {:induction false} ClassifyKnown(call: Syscall, i: nat)
    requires i < |Table(TaxonomyOf(call))|
    ensures Classify(call, Some(Message(TaxonomyOf(call), i))) == Some(Variant(TaxonomyOf(call), i))
  {
    ParseMessage(TaxonomyOf(call), i);
  }

  /** Stat, StatFile and StatLink classify a failure alike: all three go through StatError. */
  lemma StatCallsShareTaxonomy(path: Path, link: Path, fd: FileDescriptor, errno: Option<string>)
    ensures Classify(SysStat(path), errno) == Classify(SysFstat(fd), errno) == Classify(SysLstat(link), errno)
    ensures TaxonomyOf(SysStat(path)) == Stat
  {
    assert TaxonomyOf(SysStat(path)) == TaxonomyOf(SysFstat(fd)) == TaxonomyOf(SysLstat(link)) == Stat;
  }

  // ---- What the source hands to `parse`, and what it should

  /**
   * `syscall.Errno(err)` converted to `error`: never nil. When the call
   * succeeded the error number is 0, whose text is "errno 0".
   */
  function ErrnoValue(errno: Option<string>): (e: Error)
    ensures e.Raw?
    ensures errno.Some? ==> e.message == errno.value
    ensures errno.None? ==> e.message == "errno 0"
  {
    Raw(if errno.None? then "errno 0" else errno.value)
  }

  /** Read, Write and Poll as written: `parse(syscall.Errno(err))`, which always yields an error. */
  function ClassifyErrnoAsWritten(call: Syscall, errno: Option<string>): (r: Option<Error>)
    ensures r.Some?
    ensures errno.Some? ==> r == Classify(call, errno)
  {
    Parse(TaxonomyOf(call), Some(ErrnoValue(errno)))
  }

  /** No field of the read, write or poll taxonomy carries the text "errno 0". */
  lemma LacksErrnoZero(op: Op)
    requires op == Read || op == Write || op == Poll
    ensures NoTag(Table(op), "errno 0")
  {
    if op == Read {
      assert NoTag(ReadTable, "errno 0");
    } else if op == Write {
      assert NoTag(WriteTable, "errno 0");
    } else {
      assert NoTag(PollTable, "errno 0");
    }
  }

  /** As written, a read, write or poll that succeeds reports the unrecognised error "errno 0"; corrected, it reports none. */
  lemma SuccessReportedAsError(call: Syscall)
    requires call.SysRead? || call.SysWrite? || call.SysPoll?
    ensures ClassifyErrnoAsWritten(call, None) == Some(Raw("errno 0"))
    ensures Classify(call, None) == None
  {
    LacksErrnoZero(TaxonomyOf(call));
    assert Text(ErrnoValue(None)) == "errno 0";
  }

  /** The result of a call that may panic instead of returning. */
  datatype Outcome = Returned(err: Option<Error>) | Panicked

  /**
   * Close as written: `err.(syscall.Errno)` asserts the dynamic type of the
   * error syscall.Close returned, and that assertion panics on the nil error
   * of a close that succeeded.
   */
  function CloseAsWritten(fd: FileDescriptor, errno: Option<string>): (o: Outcome)
    ensures errno.None? <==> o.Panicked?
    ensures errno.Some? ==> o == Returned(Classify(SysClose(fd), errno))
  {
    match errno
    case None => Panicked
    case Some(m) => Returned(Parse(Close, Some(Raw(m))))
  }

  /** A successful close panics as written; corrected, it reports no error. */
  lemma CloseSuccessPanics(fd: FileDescriptor)
    ensures CloseAsWritten(fd, None) == Panicked
    ensures Classify(SysClose(fd), None) == None
  {
  }

  /**
   * The timeout poll(2) receives as written: the Duration's count of
   * nanoseconds, which the kernel reads as a C int of milliseconds.
   */
  function PollTimeoutAsWritten(timeout: Int64): (ms: Int32)
    ensures -0x8000_0000 <= timeout < 0x8000_0000 ==> ms as int == timeout as int
  {
    ToInt32(timeout)
  }

  /** `Duration.Milliseconds()`: the timeout in whole milliseconds, truncated toward zero. */
  function PollMilliseconds(timeout: Int64): (ms: Int64)
    ensures timeout >= 0 ==> 0 <= ms as int * 1_000_000 <= timeout as int < (ms as int + 1) * 1_000_000
    ensures timeout < 0 ==> (ms as int - 1) * 1_000_000 < timeout as int <= ms as int * 1_000_000 <= 0
  {
    var t := timeout as int;
    (if t >= 0 then t / 1_000_000 else -((-t) / 1_000_000)) as Int64
  }

  /** As written a one-second poll waits a million seconds, and a three-second poll waits forever. */
  lemma PollTimeoutInNanoseconds()
    ensures PollTimeoutAsWritten(1_000_000_000) == 1_000_000_000 && PollMilliseconds(1_000_000_000) == 1000
    ensures PollTimeoutAsWritten(3_000_000_000) < 0 && PollMilliseconds(3_000_000_000) == 3000
  {
  }

  /**
   * Below one millisecond the two readings part ways on the sign: a Duration
   * of -1ns reaches poll(2) as written as -1, which waits forever, while the
   * whole-millisecond count truncates it to 0, which returns at once.
   */
  lemma PollSubMillisecond()
    ensures PollTimeoutAsWritten(-1) < 0
    ensures PollMilliseconds(-1) == 0 && PollMilliseconds(-999_999) == 0 && PollMilliseconds(-1_000_000) == -1
  {
  }

  /** The error an empty poll list gets without reaching the kernel: PollError.Fault. */
  function EmptyPoll(files: seq<FileToPoll>): (r: Option<(Int64, Error)>)
    ensures r.Some? <==> |files| == 0
    ensures r.Some? ==>
      r.value.0 == 0 && r.value.1 == Variants(Poll)[0] &&
      Table(Poll)[0].name == "Fault" && Text(r.value.1) == "bad address"
  {
    if |files| == 0 then Some((0, Variants(Poll)[0])) else None
  }

  /** The native flag word of open: the access mode, creation flags and status flags OR-ed together. */
  function OpenFlagWord(access: FileAccessMode, creation: FileCreationFlags, status: FileStatusFlags): Word
  {
    access | creation | status
  }

  /** Every flag asked for reaches the kernel: the access mode, ... */
  lemma OpenFlagWordKeepsAccess(access: FileAccessMode, creation: FileCreationFlags, status: FileStatusFlags)
    ensures OpenFlagWord(access, creation, status) & access == access
  {
    OrHasLeft(access, creation);
    OrKeeps(access | creation, status, access);
  }

  /** ... the creation flags ... */
  lemma OpenFlagWordKeepsCreation(access: FileAccessMode, creation: FileCreationFlags, status: FileStatusFlags)
    ensures OpenFlagWord(access, creation, status) & creation == creation
  {
    OrHasRight(access, creation);
    OrKeeps(access | creation, status, creation);
  }

  /** ... and the status flags. */
  lemma OpenFlagWordKeepsStatus(access: FileAccessMode, creation: FileCreationFlags, status: FileStatusFlags)
    ensures OpenFlagWord(access, creation, status) & status == status
  {
    OrHasRight(access | creation, status);
  }

  /** No flag that was not asked for reaches the kernel: a bit clear in all three parts is clear in the word. */
  lemma OpenFlagWordAddsNothing(access: FileAccessMode, creation: FileCreationFlags, status: FileStatusFlags, m: Word)
    requires access & m == 0 && creation & m == 0 && status & m == 0
    ensures OpenFlagWord(access, creation, status) & m == 0
  {
    OrOfThreeAvoids(access, creation, status, m);
  }

  /** The native flags argument of mmap: the mapping type OR-ed with the mapping flags. */
  function MapFlagWord(mtype: MapType, flags: Map): Word
  {
    mtype | flags
  }

  /** Any OR of Map flags on any MapType can be split back into the two: the composition loses nothing. */
  lemma MapFlagWordSplits(mtype: MapType, chosen: seq<Map>)
    requires mtype in MapTypes
    requires forall i | 0 <= i < |chosen| :: chosen[i] in MapFlags
    ensures MapFlagWord(mtype, Combine(chosen)) & MapTypeMask == mtype
    ensures MapFlagWord(mtype, Combine(chosen)) & !MapTypeMask == Combine(chosen)
  {
    MapFlagsAvoidMapType();
    CombineAvoidsMapType(chosen);
    SplitAtMapTypeMask(mtype, Combine(chosen));
  }

  /** The text of syscall.EACCES. */
  const PermissionDenied: string := "permission denied"

  /** The facade object `Native()` returns. */
  class API {
    /** Every kernel call made through this facade, oldest first. */
    ghost var issued: seq<Syscall>

    constructor ()
      ensures issued == []
    {
      issued := [];
    }

    /**
     * The kernel stores `stored` at the front of `buf` and leaves the rest as
     * it was. The count is the kernel's uintptr result read as an int64, so a
     * failed read gives -1.
     */
    method Read(fd: FileDescriptor, buf: array<byte>, stored: seq<byte>, reply: Reply<Uint64>)
      returns (n: Bytes, err: Option<Error>)
      requires buf.Length > 0 && |stored| <= buf.Length
      modifies this, buf
      ensures issued == old(issued) + [SysRead(fd, buf.Length)]
      ensures buf[..] == stored + old(buf[|stored|..])
      ensures n == ToInt64(reply.value) && err == Classify(SysRead(fd, buf.Length), reply.errno)
    {
      ghost var rest := buf[|stored|..];
      var call := SysRead(fd, buf.Length);
      issued := issued + [call];
      forall i | 0 <= i < |stored| {
        buf[i] := stored[i];
      }
      assert buf[..] == stored + rest;
      n, err := ToInt64(reply.value), Classify(call, reply.errno);
    }

    method Write(fd: FileDescriptor, buf: array<byte>, reply: Reply<Uint64>) returns (n: Bytes, err: Option<Error>)
      requires buf.Length > 0
      modifies this
      ensures issued == old(issued) + [SysWrite(fd, buf[..])]
      ensures n == ToInt64(reply.value) && err == Classify(SysWrite(fd, buf[..]), reply.errno)
    {
      var call := SysWrite(fd, buf[..]);
      issued := issued + [call];
      n, err := ToInt64(reply.value), Classify(call, reply.errno);
    }

    /** The handle is returned whatever the kernel says; its descriptor is the kernel's int cut to int32. */
    method Open(path: Path, access: FileAccessMode, creation: FileCreationFlags, status: FileStatusFlags,
                perm: FilePermissions, reply: Reply<Int64>) returns (f: File, err: Option<Error>)
      modifies this
      ensures issued == old(issued) + [SysOpen(path, OpenFlagWord(access, creation, status), perm)]
      ensures fresh(f) && f.linux == this && f.descriptor == ToInt32(reply.value) && !f.closed
      ensures err == Classify(SysOpen(path, OpenFlagWord(access, creation, status), perm), reply.errno)
    {
      var call := SysOpen(path, OpenFlagWord(access, creation, status), perm);
      issued := issued + [call];
      f := new File(this, ToInt32(reply.value));
      err := Classify(call, reply.errno);
    }

    method Close(fd: FileDescriptor, reply: Option<string>) returns (err: Option<Error>)
      modifies this
      ensures issued == old(issued) + [SysClose(fd)]
      ensures err == Classify(SysClose(fd), reply)
    {
      issued := issued + [SysClose(fd)];
      err := Classify(SysClose(fd), reply);
    }

    method Stat(path: Path, reply: Reply<FileHeader>) returns (header: FileHeader, err: Option<Error>)
      modifies this
      ensures issued == old(issued) + [SysStat(path)]
      ensures header == reply.value && err == Classify(SysStat(path), reply.errno)
    {
      issued := issued + [SysStat(path)];
      header, err := reply.value, Classify(SysStat(path), reply.errno);
    }

    method StatFile(fd: FileDescriptor, reply: Reply<FileHeader>) returns (header: FileHeader, err: Option<Error>)
      modifies this
      ensures issued == old(issued) + [SysFstat(fd)]
      ensures header == reply.value && err == Classify(SysFstat(fd), reply.errno)
    {
      issued := issued + [SysFstat(fd)];
      header, err := reply.value, Classify(SysFstat(fd), reply.errno);
    }

    method StatLink(path: Path, reply: Reply<FileHeader>) returns (header: FileHeader, err: Option<Error>)
      modifies this
      ensures issued == old(issued) + [SysLstat(path)]
      ensures header == reply.value && err == Classify(SysLstat(path), reply.errno)
    {
      issued := issued + [SysLstat(path)];
      header, err := reply.value, Classify(SysLstat(path), reply.errno);
    }

    /** An empty list is answered with PollError.Fault and never reaches the kernel. */
    method Poll(files: seq<FileToPoll>, timeout: Int64, reply: Reply<Uint64>) returns (n: Int64, err: Option<Error>)
      modifies this
      ensures |files| == 0 ==> issued == old(issued) && n == 0 && err == Some(Variant(Errors.Poll, 0))
      ensures |files| > 0 ==> issued == old(issued) + [SysPoll(files, PollMilliseconds(timeout))]
      ensures |files| > 0 ==> n == ToInt64(reply.value) && err == Classify(SysPoll(files, PollMilliseconds(timeout)), reply.errno)
    {
      var early := EmptyPoll(files);
      if early.Some? {
        n, err := early.value.0, Some(early.value.1);
        return;
      }
      var call := SysPoll(files, PollMilliseconds(timeout));
      issued := issued + [call];
      n, err := ToInt64(reply.value), Classify(call, reply.errno);
    }

    method Seek(fd: FileDescriptor, offset: Int64, whence: SeekWhence, reply: Reply<Int64>) returns (pos: Int64, err: Option<Error>)
      modifies this
      ensures issued == old(issued) + [SysSeek(fd, offset, whence)]
      ensures pos == reply.value && err == Classify(SysSeek(fd, offset, whence), reply.errno)
    {
      issued := issued + [SysSeek(fd, offset, whence)];
      pos, err := reply.value, Classify(SysSeek(fd, offset, whence), reply.errno);
    }

    /**
     * The address hint is not passed on. The mapping keeps exactly `prot`
     * and the bytes the kernel mapped (none when it failed).
     */
    method MapFileIntoMemory(addr: Pointer, length: Int64, prot: MemoryProtection, mtype: MapType, flags: Map,
                             fd: FileDescriptor, offset: Uint64, reply: Reply<seq<byte>>)
      returns (m: Mmap, err: Option<Error>)
      modifies this
      ensures issued == old(issued) + [SysMmap(fd, ToInt64(offset), length, prot, MapFlagWord(mtype, flags))]
      ensures fresh(m) && fresh(m.slice) && m.check == prot && m.slice[..] == reply.value
      ensures err == Classify(SysMmap(fd, ToInt64(offset), length, prot, MapFlagWord(mtype, flags)), reply.errno)
    {
      var call := SysMmap(fd, ToInt64(offset), length, prot, MapFlagWord(mtype, flags));
      issued := issued + [call];
      m := new Mmap(prot, reply.value);
      err := Classify(call, reply.errno);
    }
  }

  /** Go's `copy(dst, src)`: the first min(|dst|, |src|) bytes of src over dst, the rest of dst as it was. */
  function Copy(dst: seq<byte>, src: seq<byte>): (r: seq<byte>)
    ensures |r| == |dst|
    ensures forall i | 0 <= i < |r| :: r[i] == if i < |src| then src[i] else dst[i]
  {
    var k := if |dst| <= |src| then |dst| else |src|;
    src[..k] + dst[k..]
  }

  /** Copying from an empty tail, as a read at the very end of a mapping does, leaves `dst` as it was. */
  lemma CopyFromEmpty(dst: seq<byte>)
    ensures Copy(dst, []) == dst
  {
    assert forall i | 0 <= i < |dst| :: Copy(dst, [])[i] == dst[i];
  }

  /** Memory mapped by MapFileIntoMemory, tagged with the protection it was mapped with. */
  class Mmap {
    const check: MemoryProtection
    const slice: array<byte>

    constructor (check: MemoryProtection, bytes: seq<byte>)
      ensures this.check == check && fresh(slice) && slice[..] == bytes
    {
      this.check := check;
      slice := new byte[|bytes|](i requires 0 <= i < |bytes| => bytes[i]);
    }

    /** The error both directions report when the protection forbids them: MapError.AccessDenied. */
    static function AccessDenied(): (e: Option<Error>)
      ensures e == Some(Variant(Errors.Map, 0)) && Table(Errors.Map)[0].name == "AccessDenied"
    {
      MapPermissionDenied();
      Parse(Errors.Map, Some(Raw(PermissionDenied)))
    }

    /**
     * Copies the mapping from `off` on into `p` when reading is allowed and
     * reports len(p) even when fewer bytes were left to copy.
     */
    method ReadAt(p: array<byte>, off: Int64) returns (n: int, err: Option<Error>)
      requires check & MemoryAllowReads != 0 ==> 0 <= off as int <= slice.Length
      modifies p
      ensures check & MemoryAllowReads == 0 ==> n == 0 && err == AccessDenied() && p[..] == old(p[..])
      ensures check & MemoryAllowReads != 0 ==>
        n == p.Length && err == None && p[..] == Copy(old(p[..]), old(slice[off..]))
    {
      if check & MemoryAllowReads == 0 {
        n, err := 0, AccessDenied();
        return;
      }
      ghost var src := slice[off..];
      var k := if p.Length <= slice.Length - off as int then p.Length else slice.Length - off as int;
      forall i | 0 <= i < k {
        p[i] := slice[off as int + i];
      }
      assert p[..] == Copy(old(p[..]), src);
      n, err := p.Length, None;
    }

    /**
     * Copies `p` into the mapping from `off` on when writing is allowed and
     * reports len(p) even when fewer bytes fit.
     */
    method WriteAt(p: array<byte>, off: Int64) returns (n: int, err: Option<Error>)
      requires check & MemoryAllowWrites != 0 ==> 0 <= off as int <= slice.Length
      modifies slice
      ensures check & MemoryAllowWrites == 0 ==> n == 0 && err == AccessDenied() && slice[..] == old(slice[..])
      ensures check & MemoryAllowWrites != 0 ==>
        n == p.Length && err == None && slice[..] == old(slice[..off]) + Copy(old(slice[off..]), old(p[..]))
    {
      if check & MemoryAllowWrites == 0 {
        n, err := 0, AccessDenied();
        return;
      }
      ghost var before := slice[..];
      ghost var src := p[..];
      var k := if p.Length <= slice.Length - off as int then p.Length else slice.Length - off as int;
      forall i | 0 <= i < k {
        slice[off as int + i] := p[i];
      }
      assert slice[..] == before[..off] + Copy(before[off..], src);
      n, err := p.Length, None;
    }

    /** Unmapping reports the kernel's error as it is, without classifying it. */
    method Close(reply: Option<string>) returns (err: Option<Error>)
      ensures reply.None? ==> err.None?
      ensures reply.Some? ==> err == Some(Raw(reply.value))
    {
      err := if reply.None? then None else Some(Raw(reply.value));
    }

    /** The number of mapped bytes. */
    function Len(): nat
    {
      slice.Length
    }

    /** The address of the first mapped byte, or nil for an empty mapping. */
    function UnsafePointer(): (ptr: Pointer)
      ensures ptr.Nil? <==> Len() == 0
      ensures ptr.ElementOf? ==> ptr.base == slice && ptr.index == 0 && ptr.index < Len()
    {
      if slice.Length == 0 then Nil else ElementOf(slice, 0)
    }
  }

  /** A file opened with the facade. */
  class File {
    const linux: API
    const descriptor: FileDescriptor
    var closed: bool

    constructor (linux: API, descriptor: FileDescriptor)
      ensures this.linux == linux && this.descriptor == descriptor && !closed
    {
      this.linux := linux;
      this.descriptor := descriptor;
      closed := false;
    }

    method Read(p: array<byte>, stored: seq<byte>, reply: Reply<Uint64>) returns (n: Int64, err: Option<Error>)
      requires p.Length > 0 && |stored| <= p.Length
      modifies linux, p
      ensures linux.issued == old(linux.issued) + [SysRead(descriptor, p.Length)]
      ensures p[..] == stored + old(p[|stored|..])
      ensures n == ToInt64(reply.value) && err == Classify(SysRead(descriptor, p.Length), reply.errno)
    {
      n, err := linux.Read(descriptor, p, stored, reply);
    }

    method Write(p: array<byte>, reply: Reply<Uint64>) returns (n: Int64, err: Option<Error>)
      requires p.Length > 0
      modifies linux
      ensures linux.issued == old(linux.issued) + [SysWrite(descriptor, p[..])]
      ensures n == ToInt64(reply.value) && err == Classify(SysWrite(descriptor, p[..]), reply.errno)
    {
      n, err := linux.Write(descriptor, p, reply);
    }

    method Seek(offset: Int64, whence: Int64, reply: Reply<Int64>) returns (pos: Int64, err: Option<Error>)
      modifies linux
      ensures linux.issued == old(linux.issued) + [SysSeek(descriptor, offset, whence as SeekWhence)]
      ensures pos == reply.value && err == Classify(SysSeek(descriptor, offset, whence as SeekWhence), reply.errno)
    {
      pos, err := linux.Seek(descriptor, offset, whence as SeekWhence, reply);
    }

    method Stat(reply: Reply<FileHeader>) returns (header: FileHeader, err: Option<Error>)
      modifies linux
      ensures linux.issued == old(linux.issued) + [SysFstat(descriptor)]
      ensures header == reply.value && err == Classify(SysFstat(descriptor), reply.errno)
    {
      header, err := linux.StatFile(descriptor, reply);
    }

    /** The first close closes the descriptor in the kernel; every later one is a no-op. */
    method Close(reply: Option<string>) returns (err: Option<Error>)
      modifies this, linux
      ensures closed
      ensures old(closed) ==> err == None && linux.issued == old(linux.issued)
      ensures !old(closed) ==>
        err == Classify(SysClose(descriptor), reply) && linux.issued == old(linux.issued) + [SysClose(descriptor)]
    {
      var was := closed;
      closed := true;
      if !was {
        err := linux.Close(descriptor, reply);
      } else {
        err := None;
      }
    }
  }

  /** Closing a file twice closes its descriptor exactly once, and the second close succeeds. */
  method CloseTwice(f: File, first: Option<string>, second: Option<string>) returns (e1: Option<Error>, e2: Option<Error>)
    requires !f.closed
    modifies f, f.linux
    ensures f.closed
    ensures e1 == Classify(SysClose(f.descriptor), first) && e2 == None
    ensures f.linux.issued == old(f.linux.issued) + [SysClose(f.descriptor)]
  {
    e1 := f.Close(first);
    e2 := f.Close(second);
  }
}
