# A verified model of a verbose-style Linux system call API

This project models in Dafny the core of a Go package. The package puts a typed API over
the Linux system calls: read, write, open, close, the three stat variants, poll, seek and
mmap. Every operation has its own error taxonomy. A taxonomy is a struct type whose fields
carry the kernel's messages as struct tags. A raw kernel error is classified by finding the
first field whose tag equals the error's text. That field's ordinal becomes the typed error.
An error that no tag matches is passed through unchanged.

The model has six modules:

- `Ints` (`ints.dfy`) — Go's fixed-width integers and the wrapping conversions the source
  uses (`int32(int)`, `int64(uintptr)`).
- `Errors` (`errors.dfy`) — the taxonomy engine of `errors.go`:
  - every taxonomy table, field by field;
  - `Error()` as `Message`, `parse` as `Parse` (its search loop is `FindTag`), and `Types()`
    as a method proved against `Variants`.
- `Api` (`api.dfy`) — the literal enumerations of `api.go`:
  - memory protection, map types and map flags, poll events, the seek origins;
  - the `Time` and `FileToPoll` records and their memory layouts.
- `Layout` (`layout.dfy`) — Go's rules for struct layout: aligned offsets, size rounded up to
  the alignment, and a zero-sized `structs.HostLayout` marker. These rules give the memory
  layout of the ABI records.
- `Files` (`file.dfy`) — the data of `file.go`: the `FileHeader` record and its layout,
  `MaxRead`, the open flags and the permission bits.
- `Linux` (`linux.dfy`) — the facade, the mapped memory and the file handle:
  - the facade `API` returned by `Native()`, as a class;
  - the mapped-memory object `Mmap`, whose read and write are checked against its protection;
  - the `File` handle with its close-once flag;
  - the pure logic between the caller and the kernel:
    - the flag words handed to open and mmap;
    - the short circuit for an empty poll list;
    - the taxonomy each call's failures go through.

The kernel is not modelled. Each facade method takes the kernel's reply as a parameter: a
`Reply(value, errno)`, where `errno` is the text of the error the kernel reports, if any.
The facade records every kernel call it actually makes in the ghost log `API.issued`. That
log is how the model states "the empty poll list never reaches the kernel" and "a file is
closed in the kernel exactly once".

## Model

| member | source | states |
|---|---|---|
| Ints.ToInt32 | api_linux.go:22 | `FileDescriptor(fd)` keeps the int's value modulo 2^32 in the int32 range, and keeps it unchanged when it already fits |
| Ints.ToInt64 | api_linux.go:55 | `int64(uintptr)` keeps the value modulo 2^64, is the identity below 2^63, and is negative exactly when the top bit is set |
| Errors.Table | errors.go:24-26 | the fields of each taxonomy struct (errors.go:45-150) in declaration order, never empty; `TablesWellFormed` shows their tags are non-empty and distinct |
| Errors.Message | errors.go:9-15 | `Error()` of a field is its tag, or its name when the tag is empty |
| Errors.Text | errors.go:9-21 | `err.Error()`: a typed error says its field's message, a raw error its own text; `ParseMessage` and `VariantsDistinctAndNamed` show that the text of variant `i` classifies back to variant `i` |
| Errors.FindTag | errors.go:25-31 | the search loop finds the first field, in declaration order, whose tag equals the message, and reports none when no field carries it |
| Errors.Parse | errors.go:17-33 | nil stays nil; an error whose text is a tag becomes the variant of the first field with that tag; any other error comes back unchanged; the result is always a valid error |
| Errors.Variants | errors.go:35-42 | one variant per field of the taxonomy |
| Errors.Types | errors.go:35-42 | the loop gives field `i` the ordinal `i` for every field |
| Errors.TablesWellFormed | errors.go:45-150 | in every taxonomy the tags are non-empty and pairwise distinct, and every ordinal fits the `byte` that holds it |
| Errors.FirstTagUnique | errors.go:25-30 | the first field carrying field `i`'s tag is field `i` itself |
| Errors.VariantsDistinctAndNamed | errors.go:9-15 | the variants `Types()` returns are pairwise distinct, and each one's `Error()` is its field's tag |
| Errors.ParseMessage | errors.go:17-33 | a raw error carrying field `i`'s message is classified as variant `i` |
| Errors.ParseRoundTrip | errors.go:17-42 | parsing a variant returned by `Types()` gives that variant back |
| Errors.ParseIdempotent | errors.go:17-33 | classifying an already classified error changes nothing |
| Errors.StatDoesNotExist | api_test.go:19 | "no such file or directory" classifies as `StatError.DoesNotExist`, the first of `Types()` |
| Errors.MapPermissionDenied | errors.go:127-128 | "permission denied" classifies as `MapError.AccessDenied`, ordinal 0 |
| Api.MemoryProtectionBits | api.go:45-51 | MemoryNotAccessible is 0, and the four permissions are distinct single bits |
| Api.MapTypeValues | api.go:55-59 | the three map types are distinct, and MapSharedValidateFlags is MapShared with MapPrivate |
| Api.MapFlagsAvoidMapType | api.go:63-78 | no map flag touches the two bits a map type occupies, and every map type lies within them |
| Api.CombineAvoidsMapType | api.go:63-78 | OR-ing any number of such flags keeps the two map-type bits clear |
| Api.HugePageFlagsOverlap | api.go:70-77 | the 2MB and 1GB huge-page flags are not single bits, they overlap, and the 2MB one contains MapUninitialized |
| Api.PollEventBits | api.go:88-99 | the seven poll events are distinct single bits below the int16 sign bit |
| Api.DeclaredWhence | api.go:104-110 | the whence the declared constants give each origin, always 0 to 3; `DeclaredWhenceCollides` and `NativeWhenceInjective` compare it with the kernel's numbering |
| Api.DeclaredWhenceCollides | api.go:104-110 | as declared, SeekRelative and SeekRelativeToEnd are the same number, and SeekHole is the number the kernel reads as "from the end" |
| Api.NativeWhence | api.go:104-110 | the kernel's seek numbering, 0 to 4 |
| Api.NativeWhenceInjective | api.go:104-110 | the corrected numbering tells all five origins apart, and agrees with the declared constants everywhere except at the end and the hole |
| Api.TimeLayout | api.go:123-128 | `Time` is 16 bytes and 8-aligned, with Seconds at 0 and Nanos at 8, and has no hidden padding |
| Api.FileToPollLayout | api.go:81-85 | `FileToPoll` is 8 bytes and 4-aligned, with File at 0, Notify at 4 and Result at 6 |
| Layout.AlignUp | file.go:18-37 | a field's offset is the least multiple of its alignment at or after the end of the previous field |
| Layout.OffsetsAligned | file.go:18-37 | every field is placed at a multiple of its alignment, fields do not overlap, and all of them lie within the struct |
| Layout.PlacedIsOffsets | file.go:18-37 | offsets that follow the placement rule field by field are the offsets Go computes |
| Layout.PlacedEnd | file.go:18-37 | the fields end right after the last one |
| Layout.AdjacentIsPacked | file.go:18-37 | when no field needs rounding up, the struct has no hidden padding |
| Files.FileHeaderPlaced | file.go:18-37 | the offsets of `FileHeader`, blank fields included, follow Go's rule and need no rounding up |
| Files.FileHeaderLayout | file.go:18-37 | `FileHeader` is 144 bytes and 8-aligned, as the kernel's `struct stat` is on x86-64 (other architectures, arm64 among them, lay it out differently); its explicit blank fields leave no hidden padding |
| Files.PermissionAliases | file.go:106-128 | the three directory names and FilesInheritGroup are aliases of other bits, and the twelve named bits are distinct single bits within 07777 |
| Linux.TaxonomyOf | api_linux.go:12-56 | the taxonomy each facade call parses its failures with: read, write, open, close, seek and mmap their own, the three stat calls StatError, and never ProtectMemory or Heap |
| Linux.Classify | api_linux.go:12-56 | a failure is classified through the taxonomy of the call that failed; success gives no error; a variant's message is the kernel's message; an unrecognised message comes back raw |
| Linux.ClassifyKnown | api_linux.go:12-56 | every message of a call's own taxonomy classifies as that taxonomy's variant |
| Linux.StatCallsShareTaxonomy | api_linux.go:28-42 | Stat, StatFile and StatLink classify every failure alike, through StatError |
| Linux.ErrnoValue | api_linux.go:14 | `syscall.Errno(err)` as an `error` is never nil; for a success it reads "errno 0" |
| Linux.ClassifyErrnoAsWritten | api_linux.go:12-19 | read, write and poll as written always return an error, which on failure is the one `Classify` gives |
| Linux.LacksErrnoZero | errors.go:45-115 | no field of ReadError and WriteError (errors.go:45-69) or of PollError (errors.go:110-115) carries "errno 0" |
| Linux.SuccessReportedAsError | api_linux.go:12-19 | as written, a successful read, write or poll returns the raw error "errno 0"; corrected, it returns none |
| Linux.CloseAsWritten | api_linux.go:24-27 | as written, close panics exactly when the kernel reports success, and otherwise returns what `Classify` gives |
| Linux.CloseSuccessPanics | api_linux.go:24-27 | a successful close panics as written; corrected, it returns no error |
| Linux.PollTimeoutAsWritten | api_linux.go:47 | as written, the kernel receives the Duration's nanosecond count, cut to a C int, as its millisecond timeout |
| Linux.PollMilliseconds | api.go:30-32 | the corrected timeout is the Duration in whole milliseconds, truncated toward zero |
| Linux.PollTimeoutInNanoseconds | api_linux.go:43-48 | as written, a one-second timeout becomes a million seconds and a three-second one a negative timeout, which waits forever |
| Linux.PollSubMillisecond | api_linux.go:47 | a Duration of -1ns reaches the kernel as written as -1, waiting forever; the whole-millisecond count turns -1ns and -999999ns into a zero timeout, which returns at once, and keeps -1ms as -1 |
| Linux.EmptyPoll | api_linux.go:44-46 | exactly an empty list is answered without the kernel, with count 0 and `PollError.Fault` ("bad address") |
| Linux.OpenFlagWord | api_linux.go:21 | the flag word passed to open; the four lemmas below show it holds every bit of the access mode, the creation flags and the status flags and no other bit |
| Linux.OpenFlagWordKeepsAccess | api_linux.go:21 | the word passed to open contains the access mode |
| Linux.OpenFlagWordKeepsCreation | api_linux.go:21 | the word passed to open contains the creation flags |
| Linux.OpenFlagWordKeepsStatus | api_linux.go:21 | the word passed to open contains the status flags |
| Linux.OpenFlagWordAddsNothing | api_linux.go:21 | a bit clear in the access mode, the creation flags and the status flags is clear in the word |
| Linux.MapFlagWord | api_linux.go:55 | the flags word passed to mmap; `MapFlagWordSplits` shows it splits back into its map type and its map flags |
| Linux.MapFlagWordSplits | api_linux.go:55 | the word passed to mmap splits back into its map type (the low two bits) and its map flags (the rest) |
| Linux.API.constructor | api_linux.go:9-11 | a new facade has issued no kernel call |
| Linux.API.Read | api_linux.go:12-15 | one read of `len(buf)` bytes is issued; the bytes the kernel stores fill the front of `buf` and the rest is kept; the count is the kernel's result as an int64; the error is classified through ReadError |
| Linux.API.Write | api_linux.go:16-19 | one write of the buffer's bytes is issued; the count and error are as for Read, through WriteError |
| Linux.API.Open | api_linux.go:20-23 | one open with the composed flag word is issued; a fresh open handle owns the int32 form of the returned descriptor; the error goes through OpenError |
| Linux.API.Close | api_linux.go:24-27 | one close of the descriptor is issued, and its error goes through CloseError |
| Linux.API.Stat | api_linux.go:28-32 | one stat of the path is issued; the header is the kernel's and the error goes through StatError |
| Linux.API.StatFile | api_linux.go:33-37 | one fstat of the descriptor is issued, classified as Stat is |
| Linux.API.StatLink | api_linux.go:38-42 | one lstat of the path is issued, classified as Stat is |
| Linux.API.Poll | api_linux.go:43-49 | an empty list issues nothing and returns 0 with PollError.Fault; otherwise one poll is issued with the timeout in milliseconds, and the result and error go through PollError |
| Linux.API.Seek | api_linux.go:50-53 | one seek with the given offset and whence is issued; the position and the SeekError classification come back |
| Linux.API.MapFileIntoMemory | api_linux.go:54-57 | one mmap is issued, with the offset as an int64 and the composed flag word; the address hint is dropped; the mapping keeps exactly the protection and the mapped bytes; the error goes through MapError |
| Linux.Copy | api_linux.go:71 | Go's `copy`: the first min(len(dst), len(src)) bytes come from src, and the rest of dst is untouched |
| Linux.CopyFromEmpty | api_linux.go:71 | copying from the empty tail of a mapping read at its very end leaves `p` as it was |
| Linux.Mmap.constructor | api_linux.go:56 | the mapping holds the protection and the bytes it was made with |
| Linux.Mmap.AccessDenied | api_linux.go:69 | a refused access is `MapError.AccessDenied`, the classification of EACCES |
| Linux.Mmap.ReadAt | api_linux.go:67-73 | without read permission, nothing is copied, the count is 0 and the error is AccessDenied; with it, the mapping from `off` on is copied into `p` and the count is `len(p)` |
| Linux.Mmap.WriteAt | api_linux.go:75-81 | without write permission, nothing changes and the error is AccessDenied; with it, `p` is copied over the mapping from `off` on, the bytes before `off` are kept, and the count is `len(p)` |
| Linux.Mmap.Close | api_linux.go:83-85 | the unmap error is returned as the kernel gave it, unclassified |
| Linux.Mmap.Len | api_linux.go:87-89 | the number of mapped bytes; `UnsafePointer` is nil exactly when it is 0 |
| Linux.Mmap.UnsafePointer | api_linux.go:91-96 | nil exactly for an empty mapping (`Len() == 0`); otherwise the address of the first mapped byte |
| Linux.File.constructor | file.go:10-14 | a new handle is open and owns its descriptor |
| Linux.File.Read | file.go:43-46 | delegates to the facade's Read on the handle's descriptor; `p` receives the stored bytes at its front and keeps the rest |
| Linux.File.Write | file.go:49-52 | delegates to the facade's Write on the handle's descriptor |
| Linux.File.Seek | file.go:55-57 | delegates to the facade's Seek, passing whence unchanged |
| Linux.File.Stat | file.go:60 | delegates to the facade's StatFile on the handle's descriptor |
| Linux.File.Close | file.go:63-68 | the first close marks the handle closed and issues exactly one kernel close; a later close issues nothing and reports success; closed never reverts |
| Linux.CloseTwice | file.go:62-68 | closing a handle twice issues exactly one kernel close, and the second close succeeds |

`Mmap.ReadAt` and `Mmap.WriteAt` report `len(p)` with no error even when fewer bytes were
copied, as api_linux.go:72,80 do. A read at `off == Len()` copies nothing (`CopyFromEmpty`)
and still reports `len(p)`.

## Left out

- The kernel itself. Every reply is a parameter.
- `Linux.API.Read`, `Linux.File.Read`: the bytes the kernel stores into the buffer are a
  parameter, `stored`. The model promises that they fill the front of the buffer and that
  the rest is kept. It does not tie their number to the returned count.
- The `Result` events poll writes back and the header stat fills in are not tracked.
- `syscall.O_*` values: the source takes them from Go's `syscall` package, which is not part
  of this model. They are uninterpreted constants. Only `FileTemporaryInside` (020000000) and
  `FilePath` (010000000) are literal in the source, and those two have their values here.
- `syscall.S_*` values: these come from the same package. They are given their POSIX
  <sys/stat.h> values.
- `Errors.Types`, `Errors.Message`, `Errors.Parse`: Go's reflection over the taxonomy struct
  becomes an explicit table of (field name, tag) pairs per operation.
- `ErrMethods` is a Go `byte`, so an ordinal wraps at 256. `Errors.TablesWellFormed` shows that
  every table has far fewer fields, so the wrap never happens.
- `Linux.File.Close`: the `atomic.Bool` swap is modelled as a sequential test and set.
  Concurrent closes are not modelled.
- `Linux.File.Close`, `Linux.CloseTwice`: `Open` returns a `File` by value
  (api.go:21, api_linux.go:22), so each copy of it has its own `Closed` flag. In the model a
  `File` is a shared object, so close-once holds per object. In Go it holds only per copy.
- `Mmap`: unmapping does not track whether the mapping was already unmapped, because the
  source keeps no such state either.
- `Linux.Mmap.ReadAt`, `Linux.Mmap.WriteAt`: when access is allowed, they require
  `0 <= off <= len(slice)`. Outside that range the slice expression panics, and the panic is
  not modelled.
- `Linux.API.Read`, `Linux.API.Write`, `Linux.File.Read`, `Linux.File.Write`: they require a non-empty buffer, because `&buf[0]`
  (api_linux.go:13,17) panics on an empty one. The panic is not modelled.
- `Linux.API.Poll`: the doc comment says Poll returns "the index of the next file". Poll in
  fact returns the kernel's count of files with events, and the model returns that count.
- `Linux.PollMilliseconds`: a millisecond count beyond the C int range (over 24 days) is not
  cut to 32 bits.
- ProtectMemory and Heap: their taxonomies are modelled, but the `API` struct (api.go:12-41)
  declares no operation of either name; only the comments at api.go:43 and errors.go:140,147 mention them.
- `open.go` and `internal/test.go` are not part of this model. The first declares no
  functions. It redeclares every constant of file.go:70-139, with longer doc comments:
  - `MaxRead` (open.go:6);
  - the open flags;
  - the permission bits (open.go:144-173);
  - the access modes (open.go:176-182);
  - `FileRelativeToWorkingDirectory` (open.go:184).

  Some of them lose their type there (open.go:107, 129, 133).
  The second compares the records with the native C layout at test time.
- An empty poll list gets `PollError.Fault` ("bad address"), as api_linux.go:44-46 returns.
  The comment on `Fault` (errors.go:111) speaks of a nil list; the one on `Invalid`
  (errors.go:113) speaks of too many files or a bad timeout.

## Findings

| source | as written | input that shows it | evidently intended | confidence | as-written member | corrected member |
|---|---|---|---|---|---|---|
| api.go:104-110 | SeekRelative and SeekRelativeToEnd are both 1, and SeekHole is 2 | seeking with SeekRelativeToEnd moves relative to the current offset; seeking with SeekHole seeks from the end | the kernel's numbering: SEEK_SET 0, SEEK_CUR 1, SEEK_END 2, SEEK_DATA 3, SEEK_HOLE 4 | high, not executed | `Api.DeclaredWhence`, `Api.DeclaredWhenceCollides` | `Api.NativeWhence`, `Api.NativeWhenceInjective` |
| api_linux.go:14,18,48 | the error number is converted to `syscall.Errno` and passed to `parse` even when it is 0 | a read that succeeds returns the non-nil error "errno 0" | success returns a nil error | high, not executed | `Linux.ClassifyErrnoAsWritten`, `Linux.SuccessReportedAsError` | `Linux.Classify` |
| api_linux.go:26 | `err.(syscall.Errno)` asserts the type of the error returned by `syscall.Close` | a close that succeeds returns a nil error, and the assertion panics | a successful close returns nil | high, not executed | `Linux.CloseAsWritten`, `Linux.CloseSuccessPanics` | `Linux.API.Close` |
| api_linux.go:47 | `uintptr(timeout)` passes the Duration's nanoseconds as poll's millisecond timeout | a 1s timeout waits 10^9 ms; a 3s timeout wraps to a negative int and waits forever | the timeout in milliseconds, since the API is documented to have millisecond precision; the correction keeps `Duration.Milliseconds()` truncation, so a Duration in (-1ms, 0) becomes 0 rather than a negative wait-forever (`Linux.PollSubMillisecond`) | medium, not executed | `Linux.PollTimeoutAsWritten`, `Linux.PollTimeoutInNanoseconds` | `Linux.PollMilliseconds` |

The facade methods of the model use the corrected behaviour:

- `API.Read`, `API.Write` and `API.Poll` return no error on success.
- `API.Close` returns the classified error and never panics.
- `API.Poll` passes `PollMilliseconds(timeout)` to the kernel.
