/**
 * The error taxonomy engine. Every operation owns an ordered table of
 * (field name, kernel message) pairs; a typed error is an ordinal into its
 * operation's table. `Parse` classifies a raw kernel error by scanning the
 * table for the first entry whose message equals the error's text, and
 * passes any error it does not recognise through untouched.
 */
module Errors {

  datatype Option<T> = None | Some(value: T)

  /** The operations that own an error table. */
  datatype Op = Read | Write | Open | Close | Stat | Poll | Seek | Map | ProtectMemory | Heap

  /** One field of a taxonomy: its Go field name and its struct tag, the kernel's message. */
  datatype Field = Field(name: string, tag: string)

  /**
   * An error value as the facade hands it out: either the variant with the
   * given ordinal of `op`'s taxonomy, or an error the taxonomy did not
   * recognise, known only by its message.
   */
  datatype Error = Variant(op: Op, ordinal: nat) | Raw(message: string)

  const ReadTable: seq<Field> := [
    Field("WouldBlock", "resource temporarily unavailable"),
    Field("BadFile", "bad file descriptor"),
    Field("Fault", "bad address"),
    Field("Interrupted", "interrupted system call"),
    Field("Invalid", "invalid argument"),
    Field("IO", "I/O error"),
    Field("Directory", "is a directory")
  ]

  const WriteTable: seq<Field> := [
    Field("WouldBlock", "resource temporarily unavailable"),
    Field("BadFile", "bad file descriptor"),
    Field("NoDestination", "destination address required"),
    Field("QuotaExhausted", "disk quota exceeded"),
    Field("Fault", "bad address"),
    Field("TooMuch", "file too large"),
    Field("Interrupted", "interrupted system call"),
    Field("Invalid", "invalid argument"),
    Field("IO", "I/O error"),
    Field("NoMoreSpace", "no space left on device"),
    Field("NotPermitted", "operation not permitted"),
    Field("BrokenPipe", "broken pipe")
  ]

  const OpenTable: seq<Field> := [
    Field("AccessDenied", "permission denied"),
    Field("BadFile", "bad file descriptor"),
    Field("Busy", "device or resource busy"),
    Field("QuotaExhausted", "disk quota exceeded"),
    Field("AlreadyExists", "file exists"),
    Field("Fault", "bad address"),
    Field("FileTooLarge", "file too large"),
    Field("NotPermitted", "operation not permitted"),
    Field("ReadOnly", "read-only file system"),
    Field("FileInUse", "file in use"),
    Field("WouldBlock", "resource temporarily unavailable")
  ]

  const CloseTable: seq<Field> := [
    Field("BadFile", "bad file descriptor"),
    Field("Interrupted", "interrupted system call"),
    Field("IO", "I/O error"),
    Field("QuotaExhausted", "disk quota exceeded"),
    Field("NoMoreSpace", "no space left on device")
  ]

  const StatTable: seq<Field> := [
    Field("DoesNotExist", "no such file or directory"),
    Field("AccessDenied", "permission denied"),
    Field("BadFile", "bad file descriptor"),
    Field("Fault", "bad address"),
    Field("Invalid", "invalid argument"),
    Field("Loop", "too many levels of symbolic links"),
    Field("NameTooLong", "file name too long"),
    Field("OutOfMemory", "cannot allocate memory"),
    Field("NotDirectory", "not a directory"),
    Field("StatFileTooLarge", "value too large for defined data type")
  ]

  const PollTable: seq<Field> := [
    Field("Fault", "bad address"),
    Field("Interrupted", "interrupted system call"),
    Field("Invalid", "invalid argument"),
    Field("OutOfMemory", "cannot allocate memory")
  ]

  const SeekTable: seq<Field> := [
    Field("BadFile", "bad file descriptor"),
    Field("Invalid", "invalid argument"),
    Field("NotFound", "no such device or address"),
    Field("Overflow", "value too large for defined data type"),
    Field("Illegal", "illegal seek")
  ]

  const MapTable: seq<Field> := [
    Field("AccessDenied", "permission denied"),
    Field("Locked", "resource temporarily unavailable"),
    Field("BadFile", "bad file descriptor"),
    Field("AlreadyExists", "file exists"),
    Field("Invalid", "invalid argument"),
    Field("TooManyFiles", "too many open files"),
    Field("Unsupported", "no such device"),
    Field("OutOfMemory", "cannot allocate memory"),
    Field("Overflow", "value too large for defined data type"),
    Field("NotPermitted", "operation not permitted")
  ]

  const ProtectMemoryTable: seq<Field> := [
    Field("AccessDenied", "permission denied"),
    Field("Invalid", "invalid argument"),
    Field("OutOfMemory", "cannot allocate memory")
  ]

  const HeapTable: seq<Field> := [
    Field("OutOfMemory", "cannot allocate memory")
  ]

  /** The declaration-ordered fields of `op`'s error struct. */
  function Table(op: Op): (fields: seq<Field>)
    ensures |fields| >= 1
  {
    match op
    case Read => ReadTable
    case Write => WriteTable
    case Open => OpenTable
    case Close => CloseTable
    case Stat => StatTable
    case Poll => PollTable
    case Seek => SeekTable
    case Map => MapTable
    case ProtectMemory => ProtectMemoryTable
    case Heap => HeapTable
  }

  /** A variant names a field that exists; any other ordinal makes `Error()` panic. */
  predicate Valid(e: Error)
  {
    e.Variant? ==> e.ordinal < |Table(e.op)|
  }

  /** `ErrMethods.Error`: the field's tag, or its name when the tag is empty. */
  function Message(op: Op, ordinal: nat): (m: string)
    requires ordinal < |Table(op)|
    ensures Table(op)[ordinal].tag != "" ==> m == Table(op)[ordinal].tag
    ensures Table(op)[ordinal].tag == "" ==> m == Table(op)[ordinal].name
  {
    var field := Table(op)[ordinal];
    if field.tag != "" then field.tag else field.name
  }

  /** `err.Error()`: what the error says about itself. */
  function Text(e: Error): string
    requires Valid(e)
  {
    match e
    case Variant(op, i) => Message(op, i)
    case Raw(m) => m
  }

  /** `i` is the first field, in declaration order, whose tag is `msg`. */
  predicate FirstTag(fields: seq<Field>, i: nat, msg: string)
  {
    i < |fields| && fields[i].tag == msg &&
    forall j | 0 <= j < i :: fields[j].tag != msg
  }

  /** No field has the tag `msg`. */
  predicate NoTag(fields: seq<Field>, msg: string)
  {
    forall j | 0 <= j < |fields| :: fields[j].tag != msg
  }

  /** The search loop of `parse`, from field `from` on. */
  function FindTag(fields: seq<Field>, msg: string, from: nat): (r: Option<nat>)
    requires from <= |fields|
    requires forall j | 0 <= j < from :: fields[j].tag != msg
    ensures r.Some? ==> FirstTag(fields, r.value, msg)
    ensures r.None? ==> NoTag(fields, msg)
    decreases |fields| - from
  {
    if from == |fields| then None
    else if fields[from].tag == msg then Some(from)
    else FindTag(fields, msg, from + 1)
  }

  /**
   * `ErrMethods.parse`: nil stays nil; an error whose text is the tag of a
   * field becomes the variant of the first such field; anything else is
   * returned unchanged.
   */
  function Parse(op: Op, err: Option<Error>): (r: Option<Error>)
    requires err.Some? ==> Valid(err.value)
    ensures err.None? <==> r.None?
    ensures r.Some? ==> Valid(r.value)
    ensures err.Some? && NoTag(Table(op), Text(err.value)) ==> r == err
    ensures forall i | err.Some? && FirstTag(Table(op), i, Text(err.value)) :: r == Some(Variant(op, i))
    ensures err.Some? && r != err ==>
      r.value.Variant? && r.value.op == op && FirstTag(Table(op), r.value.ordinal, Text(err.value))
  {
    match err
    case None => None
    case Some(e) =>
      match FindTag(Table(op), Text(e), 0)
      case Some(i) => Some(Variant(op, i))
      case None => err
  }

  /** The value `Types()` builds: field `i` carries ordinal `i`. */
  function Variants(op: Op): (vs: seq<Error>)
    ensures |vs| == |Table(op)|
  {
    seq(|Table(op)|, i requires 0 <= i < |Table(op)| => Variant(op, i))
  }

  /** `ErrMethods.Types`: sets every field's ordinal to its position, one field at a time. */
  method Types(op: Op) returns (types: seq<Error>)
    ensures types == Variants(op)
  {
    var n := |Table(op)|;
    types := [];
    var i := 0;
    while i < n
      invariant 0 <= i <= n
      invariant |types| == i
      invariant forall k | 0 <= k < i :: types[k] == Variant(op, k)
    {
      types := types + [Variant(op, i)];
      i := i + 1;
    }
  }

  /** Every table's tags are non-empty and pairwise distinct; every ordinal fits Go's byte. */
  predicate WellFormed(fields: seq<Field>)
  {
    |fields| <= 0x100 &&
    (forall i | 0 <= i < |fields| :: fields[i].tag != "") &&
    (forall i, j | 0 <= i < j < |fields| :: fields[i].tag != fields[j].tag)
  }

  // One lemma per table keeps each string comparison proof small.
  lemma ReadTableWellFormed() ensures WellFormed(ReadTable) {}
  lemma WriteTableWellFormed() ensures WellFormed(WriteTable) {}
  lemma OpenTableWellFormed() ensures WellFormed(OpenTable) {}
  lemma CloseTableWellFormed() ensures WellFormed(CloseTable) {}
  lemma StatTableWellFormed() ensures WellFormed(StatTable) {}
  lemma PollTableWellFormed() ensures WellFormed(PollTable) {}
  lemma SeekTableWellFormed() ensures WellFormed(SeekTable) {}
  lemma MapTableWellFormed() ensures WellFormed(MapTable) {}
  lemma ProtectMemoryTableWellFormed() ensures WellFormed(ProtectMemoryTable) {}
  lemma HeapTableWellFormed() ensures WellFormed(HeapTable) {}

  lemma TablesWellFormed(op: Op)
    ensures WellFormed(Table(op))
  {
    match op
    case Read => ReadTableWellFormed();
    case Write => WriteTableWellFormed();
    case Open => OpenTableWellFormed();
    case Close => CloseTableWellFormed();
    case Stat => StatTableWellFormed();
    case Poll => PollTableWellFormed();
    case Seek => SeekTableWellFormed();
    case Map => MapTableWellFormed();
    case ProtectMemory => ProtectMemoryTableWellFormed();
    case Heap => HeapTableWellFormed();
  }

  /** With distinct tags, the first field carrying a tag is the only one. */
  lemma {:induction false} FirstTagUnique(op: Op, i: nat)
    requires i < |Table(op)|
    ensures FirstTag(Table(op), i, Table(op)[i].tag)
  {
    TablesWellFormed(op);
  }

  /** `Types()` gives pairwise distinct variants, each answering its field's tag through `Error()`. */
  lemma VariantsDistinctAndNamed(op: Op)
    ensures forall i, j | 0 <= i < j < |Variants(op)| :: Variants(op)[i] != Variants(op)[j]
    ensures forall i | 0 <= i < |Variants(op)| ::
      Valid(Variants(op)[i]) && Text(Variants(op)[i]) == Table(op)[i].tag
  {
    TablesWellFormed(op);
  }

  /** A raw error carrying field `i`'s message is classified as variant `i`. */
  lemma {:induction false} ParseMessage(op: Op, i: nat)
    requires i < |Table(op)|
    ensures Parse(op, Some(Raw(Message(op, i)))) == Some(Variant(op, i))
  {
    FirstTagUnique(op, i);
    TablesWellFormed(op);
    assert Text(Raw(Message(op, i))) == Table(op)[i].tag;
  }

  /** Parsing any variant of `Types()` gives that variant back. */
  lemma {:induction false} ParseRoundTrip(op: Op, i: nat)
    requires i < |Table(op)|
    ensures Parse(op, Some(Variants(op)[i])) == Some(Variants(op)[i])
  {
    ParseMessage(op, i);
    assert Variants(op)[i] == Variant(op, i);
    TablesWellFormed(op);
    assert Text(Variant(op, i)) == Text(Raw(Message(op, i)));
  }

  /** Parsing twice is parsing once. */
  lemma {:induction false} ParseIdempotent(op: Op, err: Option<Error>)
    requires err.Some? ==> Valid(err.value)
    ensures Parse(op, Parse(op, err)) == Parse(op, err)
  {
    var r := Parse(op, err);
    if r != err {
      var k := r.value.ordinal;
      FirstTagUnique(op, k);
      TablesWellFormed(op);
      assert r.value == Variant(op, k) && Text(r.value) == Table(op)[k].tag;
    }
  }

  /** A stat of a missing path yields `StatError.DoesNotExist`, ordinal 0 of `Types()`. */
  lemma StatDoesNotExist()
    ensures Table(Stat)[0].name == "DoesNotExist"
    ensures Parse(Stat, Some(Raw("no such file or directory"))) == Some(Variants(Stat)[0])
  {
    ParseMessage(Stat, 0);
  }

  /** "permission denied" is `MapError.AccessDenied`, ordinal 0. */
  lemma MapPermissionDenied()
    ensures Table(Map)[0].name == "AccessDenied"
    ensures Parse(Map, Some(Raw("permission denied"))) == Some(Variant(Map, 0))
  {
    ParseMessage(Map, 0);
  }
}
