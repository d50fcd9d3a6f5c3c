/**
 * The literal-valued enumerations and the small ABI records of the API:
 * memory protection, mapping type and flags, poll events, seek origins,
 * the `Time` value and the poll request record.
 */
module Api {
  import opened Ints
  import opened Layout

  /** Go's `int`, as a 64-bit word for the flag categories composed with `|`. */
  type Word = bv64

  /** A word with exactly one bit set. */
  predicate SingleBit(x: Word)
  {
    x != 0 && x & (x - 1) == 0
  }

  /** Every element of `s` differs from every other. */
  predicate Distinct<T(==)>(s: seq<T>)
  {
    forall i, j | 0 <= i < j < |s| :: s[i] != s[j]
  }

  /** The bitwise OR of all of `s`. */
  function Combine(s: seq<Word>): Word
  {
    if s == [] then 0 else s[0] | Combine(s[1..])
  }

  // Single bit-vector facts, stated on plain words so that each is proved on its own.

  lemma OrHasLeft(x: Word, y: Word)
    ensures (x | y) & x == x
  {
  }

  lemma OrHasRight(x: Word, y: Word)
    ensures (x | y) & y == y
  {
  }

  lemma OrKeeps(x: Word, y: Word, z: Word)
    requires x & z == z
    ensures (x | y) & z == z
  {
  }

  lemma OrAvoids(x: Word, y: Word, m: Word)
    requires x & m == 0 && y & m == 0
    ensures (x | y) & m == 0
  {
  }

  lemma OrOfThreeAvoids(x: Word, y: Word, z: Word, m: Word)
    requires x & m == 0
    requires y & m == 0
    requires z & m == 0
    ensures (x | y | z) & m == 0
  {
    OrAvoids(x, y, m);
    OrAvoids(x | y, z, m);
  }

  // ---- MemoryProtection (used by MapFileIntoMemory and ProtectMemory)

  type MemoryProtection = Word

  const MemoryNotAccessible: MemoryProtection := 0x0
  const MemoryAllowReads: MemoryProtection := 0x1
  const MemoryAllowWrites: MemoryProtection := 0x2
  const MemoryAllowExecution: MemoryProtection := 0x4
  const MemoryAllowAtomics: MemoryProtection := 0x8

  const MemoryAllows: seq<MemoryProtection> :=
    [MemoryAllowReads, MemoryAllowWrites, MemoryAllowExecution, MemoryAllowAtomics]

  lemma MemoryProtectionBits()
    ensures MemoryNotAccessible == 0
    ensures forall i | 0 <= i < |MemoryAllows| :: SingleBit(MemoryAllows[i])
    ensures Distinct(MemoryAllows)
  {
  }

  // ---- MapType: exclusive mapping kinds

  type MapType = Word

  const MapShared: MapType := 0x01
  const MapPrivate: MapType := 0x02
  const MapSharedValidateFlags: MapType := 0x03

  const MapTypes: seq<MapType> := [MapShared, MapPrivate, MapSharedValidateFlags]

  lemma MapTypeValues()
    ensures Distinct(MapTypes)
    ensures MapSharedValidateFlags == MapShared | MapPrivate == 3
  {
  }

  // ---- Map: mapping flags, OR-ed onto the MapType

  type Map = Word

  const MapAnonymous: Map := 0x20
  const Map32Bit: Map := 0x40
  const MapExactAddress: Map := 0x10
  const MapExactAddressOnce: Map := 0x100000
  const MapGrowsDown: Map := 0x100
  const MapHugeTables: Map := 0x40000
  const MapHuge2MB: Map := 0x54000000
  const MapHuge1GB: Map := 0x78000000
  const MapKeepAwayFromSwap: Map := 0x2000
  const MapDoNotReserveSwap: Map := 0x4000
  const MapPopulate: Map := 0x8000
  const MapStack: Map := 0x20000
  const MapSync: Map := 0x80000
  const MapUninitialized: Map := 0x4000000

  const MapFlags: seq<Map> := [
    MapAnonymous, Map32Bit, MapExactAddress, MapExactAddressOnce, MapGrowsDown,
    MapHugeTables, MapHuge2MB, MapHuge1GB, MapKeepAwayFromSwap, MapDoNotReserveSwap,
    MapPopulate, MapStack, MapSync, MapUninitialized
  ]

  /** The bits a MapType may occupy. */
  const MapTypeMask: Word := 0x3

  lemma MapFlagsAvoidMapType()
    ensures forall i | 0 <= i < |MapFlags| :: MapFlags[i] & MapTypeMask == 0
    ensures forall i | 0 <= i < |MapTypes| :: MapTypes[i] & MapTypeMask == MapTypes[i]
  {
  }

  /** An OR of words whose low two bits are clear keeps them clear. */
  lemma {:induction false} CombineAvoidsMapType(s: seq<Word>)
    requires forall i | 0 <= i < |s| :: s[i] & MapTypeMask == 0
    ensures Combine(s) & MapTypeMask == 0
  {
    if s != [] {
      CombineAvoidsMapType(s[1..]);
    }
  }

  /** A word with its type in the low two bits and its flags above splits back into the two. */
  lemma SplitAtMapTypeMask(mtype: Word, flags: Word)
    requires mtype & MapTypeMask == mtype && flags & MapTypeMask == 0
    ensures (mtype | flags) & MapTypeMask == mtype
    ensures (mtype | flags) & !MapTypeMask == flags
  {
  }

  /**
   * The huge-page size flags are not single bits: both encode a page size in
   * the bits from 26 up, and both contain the bit of MapUninitialized.
   */
  lemma HugePageFlagsOverlap()
    ensures !SingleBit(MapHuge2MB) && !SingleBit(MapHuge1GB)
    ensures MapHuge2MB & MapHuge1GB != 0
    ensures MapHuge2MB & MapUninitialized == MapUninitialized
    ensures MapHuge1GB & MapUninitialized == 0
  {
  }

  // ---- Poll events, an int16 in FileToPoll

  type Poll = bv16

  const HasReadAvailable: Poll := 0x001
  const HasPriority: Poll := 0x002
  const HasWriteAvailable: Poll := 0x004
  const HasPeerFinishedWriting: Poll := 0x2000
  const HasPeerConnectionClosed: Poll := 0x010
  const HasError: Poll := 0x008
  const HasInvalidRequest: Poll := 0x020

  const PollEvents: seq<Poll> := [
    HasReadAvailable, HasPriority, HasWriteAvailable, HasPeerFinishedWriting,
    HasPeerConnectionClosed, HasError, HasInvalidRequest
  ]

  /** Seven distinct single bits, all below the sign bit of an int16. */
  lemma PollEventBits()
    ensures |PollEvents| == 7 && Distinct(PollEvents)
    ensures forall i | 0 <= i < |PollEvents| ::
      PollEvents[i] != 0 && PollEvents[i] & (PollEvents[i] - 1) == 0 && PollEvents[i] < 0x8000
  {
  }

  // ---- SeekWhence, as declared

  type SeekWhence = Int64

  const SeekRelativeToStart: SeekWhence := 0
  const SeekRelative: SeekWhence := 1
  const SeekRelativeToEnd: SeekWhence := 1
  const SeekHole: SeekWhence := 2
  const SeekData: SeekWhence := 3

  /** The five origins a seek may be relative to. */
  datatype SeekOrigin = FromStart | FromCurrent | FromEnd | NextHole | NextData

  /** The whence value the declared constants give each origin. */
  function DeclaredWhence(o: SeekOrigin): (w: SeekWhence)
    ensures 0 <= w <= 3
  {
    match o
    case FromStart => SeekRelativeToStart
    case FromCurrent => SeekRelative
    case FromEnd => SeekRelativeToEnd
    case NextHole => SeekHole
    case NextData => SeekData
  }

  /**
   * As declared, "relative to the current offset" and "relative to the end"
   * are the same number, and SeekHole is the number the kernel reads as
   * "relative to the end".
   */
  lemma DeclaredWhenceCollides()
    ensures DeclaredWhence(FromCurrent) == DeclaredWhence(FromEnd)
    ensures DeclaredWhence(NextHole) == NativeWhence(FromEnd)
  {
  }

  /** The kernel's numbering: SEEK_SET 0, SEEK_CUR 1, SEEK_END 2, SEEK_DATA 3, SEEK_HOLE 4. */
  function NativeWhence(o: SeekOrigin): (w: SeekWhence)
    ensures 0 <= w <= 4
  {
    match o
    case FromStart => 0
    case FromCurrent => 1
    case FromEnd => 2
    case NextHole => 4
    case NextData => 3
  }

  /** The native numbering tells every origin apart; the declared one agrees with it except where it collides. */
  lemma NativeWhenceInjective(a: SeekOrigin, b: SeekOrigin)
    ensures NativeWhence(a) == NativeWhence(b) <==> a == b
    ensures a != FromEnd && a != NextHole ==> DeclaredWhence(a) == NativeWhence(a)
  {
  }

  // ---- Records

  type Bytes = Int64
  type Path = string
  type DeviceID = Uint64
  type IndexNode = Uint64
  type UserID = Uint32
  type GroupID = Uint32

  /** FileDescriptor identifies an open file for the process (an int32). */
  type FileDescriptor = Int32

  /** A timespec: seconds then nanoseconds, both int64. */
  datatype Time = Time(seconds: Int64, nanos: Int64)

  /** One entry of a poll request: the file, the events asked for, and the events the kernel reports. */
  datatype FileToPoll = FileToPoll(file: FileDescriptor, notify: Poll, result: Poll)

  // ---- Layouts of the records: each Kind lists its record's fields in declaration order

  /** `Time`: a zero-sized host-layout marker, then `seconds` and `nanos`, both int64. */
  const TimeKind: Kind := Struct([Marker, Int(W64), Int(W64)])

  /** `FileToPoll`: `file`, an int32, then `notify` and `result`, both int16. */
  const FileToPollKind: Kind := Struct([Int(W32), Int(W16), Int(W16)])

  const TimeOffsets: seq<nat> := [0, 0, 8]
  const FileToPollOffsets: seq<nat> := [0, 4, 6]

  /** The sizes and alignments of the integer fields and of the marker. */
  lemma ScalarSizes()
    ensures Size(Marker) == 0 && Align(Marker) == 1
    ensures Size(Uint(W64)) == Align(Uint(W64)) == Size(Int(W64)) == Align(Int(W64)) == 8
    ensures Size(Uint(W32)) == Align(Uint(W32)) == Size(Int(W32)) == Align(Int(W32)) == 4
    ensures Size(Int(W16)) == Align(Int(W16)) == 2
  {
    assert FieldsEnd([], 0) == 0 && FieldsAlign([]) == 1;
  }

  /** `Time` is 16 bytes, 8-aligned: Seconds at 0, Nanos at 8. */
  lemma TimeLayout()
    ensures Offsets(TimeKind.fields, 0) == TimeOffsets
    ensures Size(TimeKind) == 16 && Align(TimeKind) == 8
    ensures Packed(TimeKind.fields, 0)
  {
    var fs := TimeKind.fields;
    var os := TimeOffsets;
    ScalarSizes();
    forall i | 0 <= i < |fs|
      ensures os[i] == After(fs, 0, os, i) && os[i] == AlignUp(After(fs, 0, os, i), Align(fs[i]))
    {
      if i == 0 {} else if i == 1 {} else {}
    }
    PlacedIsOffsets(fs, 0, os);
    PlacedEnd(fs, 0, os);
    AdjacentIsPacked(fs, 0, os);
    assert FieldsAlign(fs[2..]) == 8 && FieldsAlign(fs[1..]) == 8;
  }

  /** `FileToPoll` is 8 bytes, 4-aligned: File at 0, Notify at 4, Result at 6. */
  lemma FileToPollLayout()
    ensures Offsets(FileToPollKind.fields, 0) == FileToPollOffsets
    ensures Size(FileToPollKind) == 8 && Align(FileToPollKind) == 4
    ensures Packed(FileToPollKind.fields, 0)
  {
    var fs := FileToPollKind.fields;
    var os := FileToPollOffsets;
    ScalarSizes();
    forall i | 0 <= i < |fs|
      ensures os[i] == After(fs, 0, os, i) && os[i] == AlignUp(After(fs, 0, os, i), Align(fs[i]))
    {
      if i == 0 {} else if i == 1 {} else {}
    }
    PlacedIsOffsets(fs, 0, os);
    PlacedEnd(fs, 0, os);
    AdjacentIsPacked(fs, 0, os);
    assert FieldsAlign(fs[2..]) == 2 && FieldsAlign(fs[1..]) == 2;
  }
}
