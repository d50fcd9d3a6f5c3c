/**
 * The data half of the file API: the `FileHeader` record filled in by stat,
 * its memory layout, and the open flag and permission constants.
 */
module Files {
  import opened Ints
  import opened Api
  import opened Layout

  /** MaxRead is the largest byte count a single read transfers. */
  const MaxRead: Bytes := 0x7ffff000

  /** Metadata the filesystem records on a file, in the field order of the kernel's `struct stat`. */
  datatype FileHeader = FileHeader(
    device: DeviceID,
    indexNode: IndexNode,
    hardLinks: Uint64,
    permissions: FilePermissions,
    user: UserID,
    group: GroupID,
    padding: Int32,
    special: DeviceID,
    size: Bytes,
    blockSize: Bytes,
    blockCount: Int64,
    accessedAt: Time,
    modifiedAt: Time,
    modifiedMetadataAt: Time,
    reserved: Reserved)

  /** The three blank int64s that close the record. */
  type Reserved = s: seq<Int64> | |s| == 3 witness [0, 0, 0]

  // ---- Layout: FileHeaderFields[0] is the host-layout marker, and FileHeaderFields[k] for k >= 1
  // is the kind of the k-th argument of the FileHeader constructor.

  /** The fields of `FileHeader` in declaration order, the blank ones included. */
  const FileHeaderFields: seq<Kind> := [
    Marker,
    Uint(W64),         // device
    Uint(W64),         // indexNode
    Uint(W64),         // hardLinks
    Uint(W32),         // permissions
    Uint(W32),         // user
    Uint(W32),         // group
    Int(W32),          // padding
    Uint(W64),         // special
    Int(W64),          // size
    Int(W64),          // blockSize
    Int(W64),          // blockCount
    TimeKind,          // accessedAt
    TimeKind,          // modifiedAt
    TimeKind,          // modifiedMetadataAt
    Array(3, Int(W64)) // reserved
  ]

  const FileHeaderKind: Kind := Struct(FileHeaderFields)

  const FileHeaderOffsets: seq<nat> := [0, 0, 8, 16, 24, 28, 32, 36, 40, 48, 56, 64, 72, 88, 104, 120]

  /** The sizes and alignments of the compound fields of FileHeader; ScalarSizes gives the rest. */
  lemma FileHeaderFieldSizes()
    ensures Size(TimeKind) == 16 && Align(TimeKind) == 8
    ensures Size(Array(3, Int(W64))) == 24 && Align(Array(3, Int(W64))) == 8
  {
    ScalarSizes();
    TimeLayout();
  }

  /** The offsets in FileHeaderOffsets are both Go's placement and a padding-free one. */
  lemma FileHeaderPlaced()
    ensures Placed(FileHeaderFields, 0, FileHeaderOffsets)
    ensures Adjacent(FileHeaderFields, 0, FileHeaderOffsets)
  {
    var fs := FileHeaderFields;
    var os := FileHeaderOffsets;
    ScalarSizes();
    FileHeaderFieldSizes();
    forall i | 0 <= i < |fs|
      ensures os[i] == After(fs, 0, os, i) && os[i] == AlignUp(After(fs, 0, os, i), Align(fs[i]))
    {
      // one case per field
      if i == 0 {} else if i == 1 {} else if i == 2 {} else if i == 3 {} else if i == 4 {} else if i == 5 {}
      else if i == 6 {} else if i == 7 {} else if i == 8 {} else if i == 9 {} else if i == 10 {}
      else if i == 11 {} else if i == 12 {} else if i == 13 {} else if i == 14 {} else {}
    }
  }

  /**
   * FileHeader is 144 bytes, 8-aligned, and every field starts exactly where
   * the previous one ends, so no field is preceded by hidden padding.
   */
  lemma FileHeaderLayout()
    ensures Offsets(FileHeaderFields, 0) == FileHeaderOffsets
    ensures Size(FileHeaderKind) == 144 && Align(FileHeaderKind) == 8
    ensures Packed(FileHeaderFields, 0)
  {
    var fs := FileHeaderFields;
    var os := FileHeaderOffsets;
    ScalarSizes();
    FileHeaderFieldSizes();
    FileHeaderPlaced();
    PlacedIsOffsets(fs, 0, os);
    PlacedEnd(fs, 0, os);
    AdjacentIsPacked(fs, 0, os);
    assert Align(fs[1]) == 8;
  }

  // ---- Open flags: the values are the platform's syscall constants

  type FileCreationFlags = Word
  type FileStatusFlags = Word
  type FileAccessMode = Word

  const O_RDONLY: Word
  const O_WRONLY: Word
  const O_RDWR: Word
  const O_CLOEXEC: Word
  const O_CREAT: Word
  const O_DIRECTORY: Word
  const O_EXCL: Word
  const O_NOCTTY: Word
  const O_NOFOLLOW: Word
  const O_TRUNC: Word
  const O_APPEND: Word
  const O_ASYNC: Word
  const O_DIRECT: Word
  const O_DSYNC: Word
  const O_LARGEFILE: Word
  const O_NOATIME: Word
  const O_NONBLOCK: Word
  const O_SYNC: Word

  const FileCloseOnExecute: FileCreationFlags := O_CLOEXEC
  const FileCreateIfNeeded: FileCreationFlags := O_CREAT
  const FileAssertDirectory: FileCreationFlags := O_DIRECTORY
  const FileAssertCreation: FileCreationFlags := O_EXCL
  const FileIsNotTheTerminal: FileCreationFlags := O_NOCTTY
  const FileTrapSymbolicLink: FileCreationFlags := O_NOFOLLOW
  const FileTemporaryInside: FileCreationFlags := 0x400000  // octal 020000000
  const FileTruncatedToZero: FileCreationFlags := O_TRUNC

  const FileAppend: FileStatusFlags := O_APPEND
  const FileAsync: FileStatusFlags := O_ASYNC
  const FileDirect: FileStatusFlags := O_DIRECT
  const FileSyncData: FileStatusFlags := O_DSYNC
  const FileSize64: FileStatusFlags := O_LARGEFILE
  const FileDoNotUpdateAccessTime: FileStatusFlags := O_NOATIME
  const FileNonBlocking: FileStatusFlags := O_NONBLOCK
  const FilePath: FileStatusFlags := 0x200000  // octal 010000000
  const FileSync: FileStatusFlags := O_SYNC

  const FileAccessReadOnly: FileAccessMode := O_RDONLY
  const FileAccessWriteOnly: FileAccessMode := O_WRONLY
  const FileAccessReadWrite: FileAccessMode := O_RDWR

  // ---- Permission bits, with the POSIX <sys/stat.h> values

  type FilePermissions = bv32

  const S_IRUSR: FilePermissions := 0x100  // 0400
  const S_IWUSR: FilePermissions := 0x80   // 0200
  const S_IXUSR: FilePermissions := 0x40   // 0100
  const S_IRGRP: FilePermissions := 0x20   // 040
  const S_IWGRP: FilePermissions := 0x10   // 020
  const S_IXGRP: FilePermissions := 0x8    // 010
  const S_IROTH: FilePermissions := 0x4    // 04
  const S_IWOTH: FilePermissions := 0x2    // 02
  const S_IXOTH: FilePermissions := 0x1    // 01
  const S_ISUID: FilePermissions := 0x800  // 04000
  const S_ISGID: FilePermissions := 0x400  // 02000
  const S_ISVTX: FilePermissions := 0x200  // 01000

  const FileReadableByUser: FilePermissions := S_IRUSR
  const FileWritableByUser: FilePermissions := S_IWUSR
  const FileExecutableByUser: FilePermissions := S_IXUSR
  const FileReadableByGroup: FilePermissions := S_IRGRP
  const FileWritableByGroup: FilePermissions := S_IWGRP
  const FileExecutableByGroup: FilePermissions := S_IXGRP
  const FileReadableByOthers: FilePermissions := S_IROTH
  const FileWritableByOthers: FilePermissions := S_IWOTH
  const FileExecutableByOthers: FilePermissions := S_IXOTH
  const FileExecutesAsOwner: FilePermissions := S_ISUID
  const FileExecutesAsGroup: FilePermissions := S_ISGID
  const FilesInheritGroup: FilePermissions := S_ISGID
  const FilesLockedToOwner: FilePermissions := S_ISVTX
  const DirectorySearchableByUser: FilePermissions := S_IXUSR
  const DirectorySearchableByGroup: FilePermissions := S_IXGRP
  const DirectorySearchableByOthers: FilePermissions := S_IXOTH

  /** The twelve permission bits that have a name of their own. */
  const PermissionBits: seq<FilePermissions> := [
    FileReadableByUser, FileWritableByUser, FileExecutableByUser,
    FileReadableByGroup, FileWritableByGroup, FileExecutableByGroup,
    FileReadableByOthers, FileWritableByOthers, FileExecutableByOthers,
    FileExecutesAsOwner, FileExecutesAsGroup, FilesLockedToOwner
  ]

  /** The directory names are aliases of other bits, and the twelve named bits are distinct single bits of 07777. */
  lemma PermissionAliases()
    ensures FilesInheritGroup == FileExecutesAsGroup
    ensures DirectorySearchableByUser == FileExecutableByUser
    ensures DirectorySearchableByGroup == FileExecutableByGroup
    ensures DirectorySearchableByOthers == FileExecutableByOthers
    ensures Distinct(PermissionBits)
    ensures forall i | 0 <= i < |PermissionBits| ::
      PermissionBits[i] != 0 && PermissionBits[i] & (PermissionBits[i] - 1) == 0 && PermissionBits[i] <= 0xfff
  {
  }

  /** AT_FDCWD: a descriptor argument meaning "relative to the working directory". */
  const FileRelativeToWorkingDirectory: Int64 := -100
}
