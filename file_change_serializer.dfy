/**
 * FileChangeSerializer: the wire form of an editor's file change, sent between
 * the script-authoring client and the server.
 *
 * Layout, in order: the Int16 type-and-version tag, the Boolean FromDisk, the
 * Buffer and FileName strings, the Int32 number of line changes, then for each
 * line change its StartLine, EndLine, StartColumn and EndColumn (Int32) and its
 * NewText string.
 */
module FileChangeSerializer {
  import opened Wrappers
  import opened Sequences
  import opened BinaryFormat

  datatype LineChange = LineChange(startLine: int32, endLine: int32, startColumn: int32, endColumn: int32, newText: string)

  /** A file change; a null entry of LineChanges is None. */
  datatype FileChange = FileChange(fromDisk: bool, buffer: string, fileName: string, lineChanges: seq<Option<LineChange>>)

  /** `new LineChange()`: every position zero, no text. */
  const DefaultLineChange: LineChange := LineChange(0, 0, 0, 0, "")

  /** The exceptions Serialize and Deserialize end with; the parameter name of ArgumentNullException. */
  datatype SerializerError =
    | ArgumentNullException(paramName: string)
    | InvalidOperationException       // the type-and-version tag does not match
    | ReadFailed(cause: ReadError)    // the reader ran out of bytes or met a malformed value

  /** `lineChange ?? new LineChange()`. */
  function OrDefault(lineChange: Option<LineChange>): LineChange
  {
    match lineChange
    case None => DefaultLineChange
    case Some(change) => change
  }

  /** The entries with every null one replaced by the default line change. */
  function NonNull(lcs: seq<Option<LineChange>>): (r: seq<Option<LineChange>>)
    ensures |r| == |lcs|
  {
    seq(|lcs|, k requires 0 <= k < |lcs| => Some(OrDefault(lcs[k])))
  }

  /** What a file change reads back as: the same fields, its null entries replaced by the default line change. */
  function Normalized(fc: FileChange): FileChange
  {
    fc.(lineChanges := NonNull(fc.lineChanges))
  }

  /** The line changes Serialize writes for the entries, in order. */
  function Defaults(lcs: seq<Option<LineChange>>): (r: seq<LineChange>)
    ensures |r| == |lcs|
  {
    if |lcs| == 0 then [] else [OrDefault(lcs[0])] + Defaults(lcs[1..])
  }

  /** What the writer can hold: the count fits an Int32, every string's byte count too. */
  predicate Encodable(fc: FileChange)
  {
    && |fc.lineChanges| < 0x8000_0000
    && BinaryFormat.Encodable(fc.buffer)
    && BinaryFormat.Encodable(fc.fileName)
    && forall i :: 0 <= i < |fc.lineChanges| ==> BinaryFormat.Encodable(OrDefault(fc.lineChanges[i]).newText)
  }

  // ---------------------------------------------------------------------------
  // The bytes, as specification functions
  // ---------------------------------------------------------------------------

  function EncodeLineChange(lc: LineChange): seq<uint8>
    requires BinaryFormat.Encodable(lc.newText)
  {
    EncodeInt32(lc.startLine) + EncodeInt32(lc.endLine) + EncodeInt32(lc.startColumn) + EncodeInt32(lc.endColumn)
    + EncodeString(lc.newText)
  }

  function EncodeLineChanges(lcs: seq<Option<LineChange>>): seq<uint8>
    requires forall i :: 0 <= i < |lcs| ==> BinaryFormat.Encodable(OrDefault(lcs[i]).newText)
  {
    if |lcs| == 0 then [] else EncodeLineChange(OrDefault(lcs[0])) + EncodeLineChanges(lcs[1..])
  }

  /** FromDisk, Buffer and FileName: the fields between the tag and the count. */
  function EncodeHeader(fc: FileChange): seq<uint8>
    requires BinaryFormat.Encodable(fc.buffer) && BinaryFormat.Encodable(fc.fileName)
  {
    EncodeBool(fc.fromDisk) + EncodeString(fc.buffer) + EncodeString(fc.fileName)
  }

  function EncodeFileChange(tag: int16, fc: FileChange): seq<uint8>
    requires Encodable(fc)
  {
    EncodeInt16(tag) + EncodeHeader(fc) + EncodeInt32(|fc.lineChanges|) + EncodeLineChanges(fc.lineChanges)
  }

  /** One line change: the four positions, then the text; the first read that fails ends it with its exception. */
  function DecodeLineChange(s: seq<uint8>, i: nat): (r: Result<(LineChange, nat), ReadError>)
    ensures r.Ok? ==> i + 17 <= r.value.1 <= |s|
  {
    match DecodeInt32(s, i)
    case Err(e) => Err(e)
    case Ok((startLine, i1)) =>
    match DecodeInt32(s, i1)
    case Err(e) => Err(e)
    case Ok((endLine, i2)) =>
    match DecodeInt32(s, i2)
    case Err(e) => Err(e)
    case Ok((startColumn, i3)) =>
    match DecodeInt32(s, i3)
    case Err(e) => Err(e)
    case Ok((endColumn, i4)) =>
    match DecodeString(s, i4)
    case Err(e) => Err(e)
    case Ok((newText, end)) => Ok((LineChange(startLine, endLine, startColumn, endColumn, newText), end))
  }

  /** `count` line changes one after the other; none when the count is zero or negative. */
  function DecodeLineChanges(s: seq<uint8>, i: nat, count: int): (r: Result<(seq<LineChange>, nat), ReadError>)
    ensures r.Ok? ==> i <= r.value.1 && |r.value.0| == if count < 0 then 0 else count
    decreases count
  {
    if count <= 0 then Ok(([], i))
    else
      match DecodeLineChange(s, i)
      case Err(e) => Err(e)
      case Ok((first, j)) =>
        match DecodeLineChanges(s, j, count - 1)
        case Err(e) => Err(e)
        case Ok((rest, end)) => Ok(([first] + rest, end))
  }

  /** The fields between the tag and the count, FromDisk, Buffer and FileName, as a file change with no line changes yet. */
  function DecodeHeader(s: seq<uint8>, i: nat): (r: Result<(FileChange, nat), ReadError>)
    ensures r.Ok? ==> r.value.1 <= |s| && r.value.0.lineChanges == []
  {
    match DecodeBool(s, i)
    case Err(e) => Err(e)
    case Ok((fromDisk, i1)) =>
    match DecodeString(s, i1)
    case Err(e) => Err(e)
    case Ok((buffer, i2)) =>
    match DecodeString(s, i2)
    case Err(e) => Err(e)
    case Ok((fileName, end)) => Ok((FileChange(fromDisk, buffer, fileName, []), end))
  }

  /** The decoded line changes as entries of LineChanges: none of them null. */
  function Somes(xs: seq<LineChange>): (r: seq<Option<LineChange>>)
    ensures |r| == |xs|
  {
    if |xs| == 0 then [] else Somes(xs[..|xs| - 1]) + [Some(xs[|xs| - 1])]
  }

  /** Everything after the tag: the header fields, the count and that many line changes. */
  function DecodeBody(s: seq<uint8>, i: nat): (r: Result<(FileChange, nat), ReadError>)
    ensures r.Ok? ==> i <= r.value.1
  {
    match DecodeHeader(s, i)
    case Err(e) => Err(e)
    case Ok((header, i1)) =>
    match DecodeInt32(s, i1)
    case Err(e) => Err(e)
    case Ok((count, i2)) =>
    match DecodeLineChanges(s, i2, count)
    case Err(e) => Err(e)
    case Ok((lines, end)) => Ok((header.(lineChanges := Somes(lines)), end))
  }

  /** The record at position `i` and the position after it, or the exception Deserialize throws. */
  function DecodeFileChange(tag: int16, s: seq<uint8>, i: nat): (r: Result<(FileChange, nat), SerializerError>)
    ensures r.Ok? ==> i + 2 <= r.value.1
  {
    match DecodeInt16(s, i)
    case Err(e) => Err(ReadFailed(e))
    case Ok((typeAndVersion, i1)) =>
    if typeAndVersion != tag then Err(InvalidOperationException)
    else
    match DecodeBody(s, i1)
    case Err(e) => Err(ReadFailed(e))
    case Ok((fileChange, end)) => Ok((fileChange, end))
  }

  // ---------------------------------------------------------------------------
  // The bytes as the writer appends them, one write after the other
  // ---------------------------------------------------------------------------

  function EmitLineChange(out: seq<uint8>, lc: LineChange): (r: seq<uint8>)
    requires BinaryFormat.Encodable(lc.newText)
    ensures r == out + EncodeLineChange(lc)
  {
    var a, b, c, d := EncodeInt32(lc.startLine), EncodeInt32(lc.endLine), EncodeInt32(lc.startColumn), EncodeInt32(lc.endColumn);
    Regroup5(out, a, b, c, d, EncodeString(lc.newText));
    out + a + b + c + d + EncodeString(lc.newText)
  }

  /** The `foreach` over the line changes. */
  function EmitLineChanges(out: seq<uint8>, lcs: seq<Option<LineChange>>): (r: seq<uint8>)
    requires forall i :: 0 <= i < |lcs| ==> BinaryFormat.Encodable(OrDefault(lcs[i]).newText)
    ensures r == out + EncodeLineChanges(lcs)
    decreases |lcs|
  {
    if |lcs| == 0 then out
    else
      var r := EmitLineChanges(EmitLineChange(out, OrDefault(lcs[0])), lcs[1..]);
      AppendAssoc(out, EncodeLineChange(OrDefault(lcs[0])), EncodeLineChanges(lcs[1..]));
      r
  }

  function EmitFileChange(out: seq<uint8>, tag: int16, fc: FileChange): (r: seq<uint8>)
    requires Encodable(fc)
    ensures r == out + EncodeFileChange(tag, fc)
  {
    var a, b, c, d, e := EncodeInt16(tag), EncodeBool(fc.fromDisk), EncodeString(fc.buffer),
                         EncodeString(fc.fileName), EncodeInt32(|fc.lineChanges|);
    Regroup3(out + a, b, c, d);
    Regroup4(out, a, b + c + d, e, EncodeLineChanges(fc.lineChanges));
    EmitLineChanges(out + a + b + c + d + e, fc.lineChanges)
  }

  // ---------------------------------------------------------------------------
  // Serialize and Deserialize
  // ---------------------------------------------------------------------------

  /** Serialize: rejects a null writer or file change, then writes the layout field by field. */
  method Serialize(writer: BinaryWriter?, tag: int16, fileChange: Option<FileChange>)
    returns (failure: Option<SerializerError>)
    requires fileChange.Some? ==> Encodable(fileChange.value)
    modifies writer
    ensures writer == null ==> failure == Some(ArgumentNullException("writer"))
    ensures writer != null && fileChange.None? ==>
      failure == Some(ArgumentNullException("fileChange")) && writer.bytes == old(writer.bytes)
    ensures writer != null && fileChange.Some? ==>
      failure == None && writer.bytes == old(writer.bytes) + EncodeFileChange(tag, fileChange.value)
  {
    if writer == null {
      return Some(ArgumentNullException("writer"));
    }
    if fileChange.None? {
      return Some(ArgumentNullException("fileChange"));
    }
    var fc := fileChange.value;
    writer.WriteInt16(tag);
    writer.WriteBool(fc.fromDisk);
    writer.WriteString(fc.buffer);
    writer.WriteString(fc.fileName);
    writer.WriteInt32(|fc.lineChanges|);
    ghost var start := writer.bytes;
    var i := 0;
    while i < |fc.lineChanges|
      invariant 0 <= i <= |fc.lineChanges|
      invariant EmitLineChanges(writer.bytes, fc.lineChanges[i..]) == EmitLineChanges(start, fc.lineChanges)
    {
      var change := OrDefault(fc.lineChanges[i]);
      ghost var before := writer.bytes;
      writer.WriteInt32(change.startLine);
      writer.WriteInt32(change.endLine);
      writer.WriteInt32(change.startColumn);
      writer.WriteInt32(change.endColumn);
      writer.WriteString(change.newText);
      assert writer.bytes == EmitLineChange(before, change);
      assert fc.lineChanges[i..][1..] == fc.lineChanges[i + 1..];
      i := i + 1;
    }
    assert writer.bytes == EmitFileChange(old(writer.bytes), tag, fc);
    failure := None;
  }

  /**
   * The body of Deserialize's counted loop: the four positions, then the text.
   * The first read that fails ends it with that read's exception.
   */
  method ReadLineChange(reader: BinaryReader) returns (r: Result<LineChange, ReadError>)
    requires reader.Valid()
    modifies reader
    ensures reader.Valid()
    ensures Agrees(r, DecodeLineChange(reader.data, old(reader.pos)), reader.pos)
  {
    var startLine :- reader.ReadInt32();
    var endLine :- reader.ReadInt32();
    var startColumn :- reader.ReadInt32();
    var endColumn :- reader.ReadInt32();
    var newText :- reader.ReadString();
    return Ok(LineChange(startLine, endLine, startColumn, endColumn, newText));
  }

  /**
   * `whole` is `decoded` followed by `tail`: both fail with the same error, or
   * both succeed, the line changes add up and both end at the same position.
   */
  ghost predicate Composes(whole: Result<(seq<LineChange>, nat), ReadError>, decoded: seq<LineChange>,
                           tail: Result<(seq<LineChange>, nat), ReadError>)
  {
    && whole.Ok? == tail.Ok?
    && (tail.Ok? ==> whole.value.0 == decoded + tail.value.0 && whole.value.1 == tail.value.1)
    && (tail.Err? ==> whole.error == tail.error)
  }

  lemma SomesSnoc(xs: seq<LineChange>, x: LineChange)
    ensures Somes(xs + [x]) == Somes(xs) + [Some(x)]
  {
    assert (xs + [x])[..|xs|] == xs;
  }

  lemma ProgressStart(whole: Result<(seq<LineChange>, nat), ReadError>)
    ensures Composes(whole, [], whole)
  {
    if whole.Ok? {
      assert [] + whole.value.0 == whole.value.0;
    }
  }

  lemma ComposesTrans(a: Result<(seq<LineChange>, nat), ReadError>, d1: seq<LineChange>,
                      b: Result<(seq<LineChange>, nat), ReadError>, d2: seq<LineChange>,
                      c: Result<(seq<LineChange>, nat), ReadError>)
    requires Composes(a, d1, b) && Composes(b, d2, c)
    ensures Composes(a, d1 + d2, c)
  {
    if c.Ok? {
      AppendAssoc(d1, d2, c.value.0);
    }
  }

  /** The counted loop, one step unrolled: a decoded line change followed by `count - 1` more. */
  lemma DecodeLineChangesStep(s: seq<uint8>, i: nat, count: int, lc: LineChange, j: nat)
    requires count > 0 && DecodeLineChange(s, i).Ok? && DecodeLineChange(s, i).value.0 == lc && DecodeLineChange(s, i).value.1 == j
    ensures Composes(DecodeLineChanges(s, i, count), [lc], DecodeLineChanges(s, j, count - 1))
  {
  }

  /** The counted loop, one step on: a decoded line change moves from what is left to what is done. */
  lemma ProgressStep(whole: Result<(seq<LineChange>, nat), ReadError>, decoded: seq<LineChange>,
                     s: seq<uint8>, i: nat, left: int, lc: LineChange, j: nat, decoded': seq<LineChange>, left': int)
    requires Composes(whole, decoded, DecodeLineChanges(s, i, left))
    requires decoded' == decoded + [lc] && left' == left - 1
    requires left > 0 && DecodeLineChange(s, i).Ok? && DecodeLineChange(s, i).value.0 == lc && DecodeLineChange(s, i).value.1 == j
    ensures Composes(whole, decoded', DecodeLineChanges(s, j, left'))
  {
    DecodeLineChangesStep(s, i, left, lc, j);
    ComposesTrans(whole, decoded, DecodeLineChanges(s, i, left), [lc], DecodeLineChanges(s, j, left'));
  }

  lemma ProgressFail(whole: Result<(seq<LineChange>, nat), ReadError>, decoded: seq<LineChange>,
                     s: seq<uint8>, i: nat, left: int)
    requires Composes(whole, decoded, DecodeLineChanges(s, i, left))
    requires left > 0 && DecodeLineChange(s, i).Err?
    ensures whole.Err? && whole.error == DecodeLineChange(s, i).error
  {
  }

  lemma ProgressDone(whole: Result<(seq<LineChange>, nat), ReadError>, decoded: seq<LineChange>,
                     s: seq<uint8>, i: nat, left: int)
    requires Composes(whole, decoded, DecodeLineChanges(s, i, left))
    requires left <= 0
    ensures whole.Ok? && whole.value.0 == decoded && whole.value.1 == i
  {
    assert decoded + [] == decoded;
  }

  /** The `for` loop of Deserialize: `count` line changes, added one by one; none for a count of zero or less. */
  method ReadLineChanges(reader: BinaryReader, count: int32) returns (r: Result<seq<Option<LineChange>>, ReadError>)
    requires reader.Valid()
    modifies reader
    ensures reader.Valid()
    ensures var d := DecodeLineChanges(reader.data, old(reader.pos), count);
      if d.Ok? then r.Ok? && r.value == Somes(d.value.0) && reader.pos == d.value.1
      else r.Err? && r.error == d.error
  {
    ghost var whole := DecodeLineChanges(reader.data, reader.pos, count);
    ProgressStart(whole);
    var lineChanges: seq<Option<LineChange>> := [];
    ghost var decoded: seq<LineChange> := [];
    var i := 0;
    ghost var left: int := count;
    while i < count
      invariant reader.Valid()
      invariant 0 <= i && (count < 0 ==> i == 0) && (count >= 0 ==> i <= count) && left == count - i
      invariant lineChanges == Somes(decoded)
      invariant Composes(whole, decoded, DecodeLineChanges(reader.data, reader.pos, left))
      decreases count - i
    {
      ghost var p := reader.pos;
      var lineChange := ReadLineChange(reader);
      if lineChange.Err? {
        ProgressFail(whole, decoded, reader.data, p, left);
        return Err(lineChange.error);
      }
      ghost var decoded', left' := decoded + [lineChange.value], left - 1;
      ProgressStep(whole, decoded, reader.data, p, left, lineChange.value, reader.pos, decoded', left');
      SomesSnoc(decoded, lineChange.value);
      lineChanges := lineChanges + [Some(lineChange.value)];
      decoded, left := decoded', left';
      i := i + 1;
    }
    ProgressDone(whole, decoded, reader.data, reader.pos, left);
    return Ok(lineChanges);
  }

  /** FromDisk, Buffer and FileName, read in that order into a new file change. */
  method ReadHeader(reader: BinaryReader) returns (r: Result<FileChange, ReadError>)
    requires reader.Valid()
    modifies reader
    ensures reader.Valid()
    ensures Agrees(r, DecodeHeader(reader.data, old(reader.pos)), reader.pos)
  {
    var fromDisk :- reader.ReadBoolean();
    var buffer :- reader.ReadString();
    var fileName :- reader.ReadString();
    return Ok(FileChange(fromDisk, buffer, fileName, []));
  }

  /** The reads after the tag: the header fields, the count, then the counted loop. */
  method ReadBody(reader: BinaryReader) returns (r: Result<FileChange, ReadError>)
    requires reader.Valid()
    modifies reader
    ensures reader.Valid()
    ensures Agrees(r, DecodeBody(reader.data, old(reader.pos)), reader.pos)
  {
    var fileChange :- ReadHeader(reader);
    var count :- reader.ReadInt32();
    var lineChanges :- ReadLineChanges(reader, count);
    return Ok(fileChange.(lineChanges := lineChanges));
  }

  /** Deserialize: rejects a null reader, checks the tag before anything else, then reads the rest of the record. */
  method Deserialize(reader: BinaryReader?, tag: int16) returns (r: Result<FileChange, SerializerError>)
    requires reader != null ==> reader.Valid()
    modifies reader
    ensures reader == null ==> r == Err(ArgumentNullException("reader"))
    ensures reader != null ==>
      reader.Valid() && Agrees(r, DecodeFileChange(tag, reader.data, old(reader.pos)), reader.pos)
    ensures reader != null ==>
      (r == Err(InvalidOperationException) <==>
         DecodeInt16(reader.data, old(reader.pos)).Ok? && DecodeInt16(reader.data, old(reader.pos)).value.0 != tag)
    ensures reader != null && r == Err(InvalidOperationException) ==> reader.pos == old(reader.pos) + 2
  {
    if reader == null {
      return Err(ArgumentNullException("reader"));
    }
    var typeAndVersion := reader.ReadInt16();
    if typeAndVersion.Err? {
      return Err(ReadFailed(typeAndVersion.error));
    }
    if typeAndVersion.value != tag {
      return Err(InvalidOperationException);
    }
    var fileChange := ReadBody(reader);
    if fileChange.Err? {
      return Err(ReadFailed(fileChange.error));
    }
    r := Ok(fileChange.value);
  }

  // ---------------------------------------------------------------------------
  // What Serialize writes, Deserialize reads back
  // ---------------------------------------------------------------------------

  /** Where each field of a serialized line change starts. */
  lemma LineChangeLayout(s: seq<uint8>, i: nat, lc: LineChange)
    requires BinaryFormat.Encodable(lc.newText) && At(s, i, EncodeLineChange(lc))
    ensures At(s, i, EncodeInt32(lc.startLine)) && At(s, i + 4, EncodeInt32(lc.endLine))
    ensures At(s, i + 8, EncodeInt32(lc.startColumn)) && At(s, i + 12, EncodeInt32(lc.endColumn))
    ensures At(s, i + 16, EncodeString(lc.newText))
  {
    var a, b, c, d := EncodeInt32(lc.startLine), EncodeInt32(lc.endLine), EncodeInt32(lc.startColumn), EncodeInt32(lc.endColumn);
    AtSplit(s, i, a + b + c + d, EncodeString(lc.newText));
    AtSplit(s, i, a + b + c, d);
    AtSplit(s, i, a + b, c);
    AtSplit(s, i, a, b);
  }

  /** Five successful reads, each starting where the one before stopped, decode a line change. */
  lemma DecodeLineChangeOk(s: seq<uint8>, i: nat, lc: LineChange, end: nat)
    requires DecodeInt32(s, i).Ok? && DecodeInt32(s, i).value.0 == lc.startLine && DecodeInt32(s, i).value.1 == i + 4
    requires DecodeInt32(s, i + 4).Ok? && DecodeInt32(s, i + 4).value.0 == lc.endLine && DecodeInt32(s, i + 4).value.1 == i + 8
    requires DecodeInt32(s, i + 8).Ok? && DecodeInt32(s, i + 8).value.0 == lc.startColumn && DecodeInt32(s, i + 8).value.1 == i + 12
    requires DecodeInt32(s, i + 12).Ok? && DecodeInt32(s, i + 12).value.0 == lc.endColumn && DecodeInt32(s, i + 12).value.1 == i + 16
    requires DecodeString(s, i + 16).Ok? && DecodeString(s, i + 16).value.0 == lc.newText && DecodeString(s, i + 16).value.1 == end
    ensures DecodeLineChange(s, i).Ok? && DecodeLineChange(s, i).value.0 == lc && DecodeLineChange(s, i).value.1 == end
  {
  }

  lemma LineChangeRoundTrip(s: seq<uint8>, i: nat, lc: LineChange)
    requires BinaryFormat.Encodable(lc.newText) && At(s, i, EncodeLineChange(lc))
    ensures DecodeLineChange(s, i).Ok? && DecodeLineChange(s, i).value.0 == lc
    ensures DecodeLineChange(s, i).value.1 == i + |EncodeLineChange(lc)|
  {
    LineChangeLayout(s, i, lc);
    Int32RoundTrip(s, i, lc.startLine);
    Int32RoundTrip(s, i + 4, lc.endLine);
    Int32RoundTrip(s, i + 8, lc.startColumn);
    Int32RoundTrip(s, i + 12, lc.endColumn);
    StringRoundTrip(s, i + 16, lc.newText);
    DecodeLineChangeOk(s, i, lc, i + 16 + |EncodeString(lc.newText)|);
  }

  /** The counted loop reads back every entry the foreach wrote, in order, a null one as the default. */
  lemma {:induction false} LineChangesRoundTrip(s: seq<uint8>, i: nat, lcs: seq<Option<LineChange>>)
    requires forall k :: 0 <= k < |lcs| ==> BinaryFormat.Encodable(OrDefault(lcs[k]).newText)
    requires At(s, i, EncodeLineChanges(lcs))
    ensures DecodeLineChanges(s, i, |lcs|).Ok? && DecodeLineChanges(s, i, |lcs|).value.0 == Defaults(lcs)
    ensures DecodeLineChanges(s, i, |lcs|).value.1 == i + |EncodeLineChanges(lcs)|
    decreases |lcs|
  {
    if |lcs| > 0 {
      var j := i + |EncodeLineChange(OrDefault(lcs[0]))|;
      LineChangesLayout(s, i, lcs);
      LineChangeRoundTrip(s, i, OrDefault(lcs[0]));
      LineChangesRoundTrip(s, j, lcs[1..]);
      DecodeLineChangesOk(s, i, lcs, j, j + |EncodeLineChanges(lcs[1..])|);
    }
  }

  /** The first line change, then the rest read where it stopped, decode all of them. */
  lemma DecodeLineChangesOk(s: seq<uint8>, i: nat, lcs: seq<Option<LineChange>>, j: nat, end: nat)
    requires |lcs| > 0
    requires DecodeLineChange(s, i).Ok? && DecodeLineChange(s, i).value.0 == OrDefault(lcs[0]) && DecodeLineChange(s, i).value.1 == j
    requires DecodeLineChanges(s, j, |lcs[1..]|).Ok? && DecodeLineChanges(s, j, |lcs[1..]|).value.0 == Defaults(lcs[1..])
    requires DecodeLineChanges(s, j, |lcs[1..]|).value.1 == end
    ensures DecodeLineChanges(s, i, |lcs|).Ok? && DecodeLineChanges(s, i, |lcs|).value.0 == Defaults(lcs)
    ensures DecodeLineChanges(s, i, |lcs|).value.1 == end
  {
  }

  /** Where the first serialized line change and the rest start. */
  lemma LineChangesLayout(s: seq<uint8>, i: nat, lcs: seq<Option<LineChange>>)
    requires forall k :: 0 <= k < |lcs| ==> BinaryFormat.Encodable(OrDefault(lcs[k]).newText)
    requires |lcs| > 0 && At(s, i, EncodeLineChanges(lcs))
    ensures At(s, i, EncodeLineChange(OrDefault(lcs[0])))
    ensures At(s, i + |EncodeLineChange(OrDefault(lcs[0]))|, EncodeLineChanges(lcs[1..]))
    ensures |EncodeLineChanges(lcs)| == |EncodeLineChange(OrDefault(lcs[0]))| + |EncodeLineChanges(lcs[1..])|
  {
    AtSplit(s, i, EncodeLineChange(OrDefault(lcs[0])), EncodeLineChanges(lcs[1..]));
  }

  lemma {:induction false} SomesIndex(xs: seq<LineChange>, k: nat)
    requires k < |xs|
    ensures Somes(xs)[k] == Some(xs[k])
    decreases |xs|
  {
    if k < |xs| - 1 {
      SomesIndex(xs[..|xs| - 1], k);
    }
  }

  lemma {:induction false} DefaultsIndex(lcs: seq<Option<LineChange>>, k: nat)
    requires k < |lcs|
    ensures Defaults(lcs)[k] == OrDefault(lcs[k])
    decreases |lcs|
  {
    if k > 0 {
      DefaultsIndex(lcs[1..], k - 1);
    }
  }

  /** The entries Deserialize builds from the decoded line changes are the non-null form of the entries written. */
  lemma SomesDefaults(lcs: seq<Option<LineChange>>)
    ensures Somes(Defaults(lcs)) == NonNull(lcs)
  {
    forall k | 0 <= k < |lcs|
      ensures Somes(Defaults(lcs))[k] == NonNull(lcs)[k]
    {
      SomesIndex(Defaults(lcs), k);
      DefaultsIndex(lcs, k);
    }
  }

  /** Three successful reads, each starting where the one before stopped, decode the header. */
  lemma DecodeHeaderOk(s: seq<uint8>, i: nat, fromDisk: bool, i1: nat, buffer: string, i2: nat, fileName: string, end: nat)
    requires DecodeBool(s, i).Ok? && DecodeBool(s, i).value.0 == fromDisk && DecodeBool(s, i).value.1 == i1
    requires DecodeString(s, i1).Ok? && DecodeString(s, i1).value.0 == buffer && DecodeString(s, i1).value.1 == i2
    requires DecodeString(s, i2).Ok? && DecodeString(s, i2).value.0 == fileName && DecodeString(s, i2).value.1 == end
    ensures DecodeHeader(s, i).Ok? && DecodeHeader(s, i).value.0 == FileChange(fromDisk, buffer, fileName, [])
    ensures DecodeHeader(s, i).value.1 == end
  {
  }

  /** Where each header field starts. */
  lemma HeaderLayout(s: seq<uint8>, i: nat, fc: FileChange)
    requires BinaryFormat.Encodable(fc.buffer) && BinaryFormat.Encodable(fc.fileName)
    requires At(s, i, EncodeHeader(fc))
    ensures At(s, i, EncodeBool(fc.fromDisk)) && At(s, i + 1, EncodeString(fc.buffer))
    ensures At(s, i + 1 + |EncodeString(fc.buffer)|, EncodeString(fc.fileName))
    ensures |EncodeHeader(fc)| == 1 + |EncodeString(fc.buffer)| + |EncodeString(fc.fileName)|
  {
    var f, b := EncodeBool(fc.fromDisk), EncodeString(fc.buffer);
    AtSplit(s, i, f + b, EncodeString(fc.fileName));
    AtSplit(s, i, f, b);
  }

  lemma HeaderRoundTrip(s: seq<uint8>, i: nat, fc: FileChange)
    requires BinaryFormat.Encodable(fc.buffer) && BinaryFormat.Encodable(fc.fileName)
    requires At(s, i, EncodeHeader(fc))
    ensures DecodeHeader(s, i).Ok? && DecodeHeader(s, i).value.0 == fc.(lineChanges := [])
    ensures DecodeHeader(s, i).value.1 == i + |EncodeHeader(fc)|
  {
    HeaderLayout(s, i, fc);
    var j := i + 1 + |EncodeString(fc.buffer)|;
    BoolRoundTrip(s, i, fc.fromDisk);
    StringRoundTrip(s, i + 1, fc.buffer);
    StringRoundTrip(s, j, fc.fileName);
    DecodeHeaderOk(s, i, fc.fromDisk, i + 1, fc.buffer, j, fc.fileName, j + |EncodeString(fc.fileName)|);
  }

  /** The header, the count and the line changes, each read where the one before stopped, decode the body. */
  lemma DecodeBodyOk(s: seq<uint8>, i: nat, header: FileChange, i1: nat, count: int32, i2: nat, lines: seq<LineChange>, end: nat)
    requires DecodeHeader(s, i).Ok? && DecodeHeader(s, i).value.0 == header && DecodeHeader(s, i).value.1 == i1
    requires DecodeInt32(s, i1).Ok? && DecodeInt32(s, i1).value.0 == count && DecodeInt32(s, i1).value.1 == i2
    requires DecodeLineChanges(s, i2, count).Ok? && DecodeLineChanges(s, i2, count).value.0 == lines
    requires DecodeLineChanges(s, i2, count).value.1 == end
    ensures DecodeBody(s, i).Ok? && DecodeBody(s, i).value.0 == header.(lineChanges := Somes(lines))
    ensures DecodeBody(s, i).value.1 == end
  {
  }

  /** Where the tag, the header, the count and the line changes of a serialized record start. */
  lemma FileChangeLayout(tag: int16, s: seq<uint8>, i: nat, fc: FileChange)
    requires Encodable(fc) && At(s, i, EncodeFileChange(tag, fc))
    ensures At(s, i, EncodeInt16(tag)) && At(s, i + 2, EncodeHeader(fc))
    ensures At(s, i + 2 + |EncodeHeader(fc)|, EncodeInt32(|fc.lineChanges|))
    ensures At(s, i + 6 + |EncodeHeader(fc)|, EncodeLineChanges(fc.lineChanges))
    ensures |EncodeFileChange(tag, fc)| == 6 + |EncodeHeader(fc)| + |EncodeLineChanges(fc.lineChanges)|
  {
    var t, h, c := EncodeInt16(tag), EncodeHeader(fc), EncodeInt32(|fc.lineChanges|);
    AtSplit(s, i, t + h + c, EncodeLineChanges(fc.lineChanges));
    AtSplit(s, i, t + h, c);
    AtSplit(s, i, t, h);
  }

  /** The fields after the tag read back as written, null entries as default line changes. */
  lemma BodyRoundTrip(s: seq<uint8>, i: nat, fc: FileChange)
    requires Encodable(fc) && At(s, i, EncodeHeader(fc))
    requires At(s, i + |EncodeHeader(fc)|, EncodeInt32(|fc.lineChanges|))
    requires At(s, i + 4 + |EncodeHeader(fc)|, EncodeLineChanges(fc.lineChanges))
    ensures DecodeBody(s, i).Ok? && DecodeBody(s, i).value.0 == Normalized(fc)
    ensures DecodeBody(s, i).value.1 == i + 4 + |EncodeHeader(fc)| + |EncodeLineChanges(fc.lineChanges)|
  {
    var j := i + |EncodeHeader(fc)|;
    HeaderRoundTrip(s, i, fc);
    Int32RoundTrip(s, j, |fc.lineChanges|);
    LineChangesRoundTrip(s, j + 4, fc.lineChanges);
    SomesDefaults(fc.lineChanges);
    DecodeBodyOk(s, i, fc.(lineChanges := []), j, |fc.lineChanges|, j + 4, Defaults(fc.lineChanges),
                 j + 4 + |EncodeLineChanges(fc.lineChanges)|);
  }

  lemma DecodeFileChangeOk(tag: int16, s: seq<uint8>, i: nat, fc: FileChange, end: nat)
    requires DecodeInt16(s, i).Ok? && DecodeInt16(s, i).value.0 == tag
    requires DecodeBody(s, i + 2).Ok? && DecodeBody(s, i + 2).value.0 == fc && DecodeBody(s, i + 2).value.1 == end
    ensures DecodeFileChange(tag, s, i).Ok? && DecodeFileChange(tag, s, i).value.0 == fc
    ensures DecodeFileChange(tag, s, i).value.1 == end
  {
  }

  /** Deserialize reads back what Serialize wrote with the same tag: the same record, null entries as default line changes. */
  lemma FileChangeRoundTrip(tag: int16, s: seq<uint8>, i: nat, fc: FileChange)
    requires Encodable(fc) && At(s, i, EncodeFileChange(tag, fc))
    ensures DecodeFileChange(tag, s, i).Ok? && DecodeFileChange(tag, s, i).value.0 == Normalized(fc)
    ensures DecodeFileChange(tag, s, i).value.1 == i + |EncodeFileChange(tag, fc)|
  {
    FileChangeLayout(tag, s, i, fc);
    Int16RoundTrip(s, i, tag);
    BodyRoundTrip(s, i + 2, fc);
    DecodeFileChangeOk(tag, s, i, Normalized(fc), i + 6 + |EncodeHeader(fc)| + |EncodeLineChanges(fc.lineChanges)|);
  }

  /** The bytes one Serialize call appends, read from where they start, whatever surrounds them. */
  lemma SerializeDeserialize(tag: int16, fc: FileChange, before: seq<uint8>, after: seq<uint8>)
    requires Encodable(fc)
    ensures var s := before + EncodeFileChange(tag, fc) + after;
      && DecodeFileChange(tag, s, |before|).Ok?
      && DecodeFileChange(tag, s, |before|).value.0 == Normalized(fc)
      && DecodeFileChange(tag, s, |before|).value.1 == |before| + |EncodeFileChange(tag, fc)|
  {
    AtAppend(before, EncodeFileChange(tag, fc), after);
    FileChangeRoundTrip(tag, before + EncodeFileChange(tag, fc) + after, |before|, fc);
  }

  /** A record read with a different tag fails with InvalidOperationException, whatever follows the tag. */
  lemma WrongTag(tag: int16, other: int16, fc: FileChange, before: seq<uint8>, after: seq<uint8>)
    requires Encodable(fc) && other != tag
    ensures DecodeFileChange(other, before + EncodeFileChange(tag, fc) + after, |before|) == Err(InvalidOperationException)
  {
    var s := before + EncodeFileChange(tag, fc) + after;
    AtAppend(before, EncodeFileChange(tag, fc), after);
    FileChangeLayout(tag, s, |before|, fc);
    Int16RoundTrip(s, |before|, tag);
  }

  /** A null entry is written exactly as the default line change would be. */
  lemma {:induction false} NullWrittenAsDefault(lcs: seq<Option<LineChange>>)
    requires forall k :: 0 <= k < |lcs| ==> BinaryFormat.Encodable(OrDefault(lcs[k]).newText)
    ensures EncodeLineChanges(NonNull(lcs)) == EncodeLineChanges(lcs)
    decreases |lcs|
  {
    if |lcs| > 0 {
      assert NonNull(lcs)[1..] == NonNull(lcs[1..]);
      NullWrittenAsDefault(lcs[1..]);
    }
  }

  /** Serializing a record and its normalized form gives the same bytes: reading back loses nothing Serialize wrote. */
  lemma NormalizedSameBytes(tag: int16, fc: FileChange)
    requires Encodable(fc)
    ensures Encodable(Normalized(fc)) && EncodeFileChange(tag, Normalized(fc)) == EncodeFileChange(tag, fc)
  {
    NullWrittenAsDefault(fc.lineChanges);
  }
}
