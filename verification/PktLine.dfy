// Git pkt-line framing (`PktReader`, `PktWriter`) and the draining of a clean payload.
module PktLine {
  import opened Wrappers
  import opened Bytes
  import opened Hex
  import opened Utf8

  const MAX_PKT_PAYLOAD: nat := 65516
  const HEADER_LEN: nat := 4
  const NEWLINE: byte := 10
  const CLEAN_PAYLOAD_CAP: nat := 128 * 1024 * 1024 * 1024

  datatype IoError = UnexpectedEof | InvalidData | InvalidInput

  // What stands at a position of the stream, and where it ends.
  datatype Scan<+T> = Found(item: T, end: nat) | Failed(error: IoError)

  datatype Packet = Flush | Delim | ResponseEnd | Data(bytes: Bytes)

  // ---- Headers ----

  function Header(total: nat): (h: Bytes)
    ensures |h| == HEADER_LEN
  {
    HexDigits(total, HEADER_LEN)
  }

  function ParseHeader(h: Bytes): Option<nat>
    requires |h| == HEADER_LEN
  {
    FromRadix16(h)
  }

  lemma {:induction false} HeaderRoundTrip(total: nat)
    requires total < 0x1_0000
    ensures ParseHeader(Header(total)) == Some(total)
  {
    assert Pow16(2) == 256;
    assert Pow16(HEADER_LEN) == 0x1_0000;
    HexRoundTrip(total, HEADER_LEN);
  }

  // ---- What a stream says ----

  // The packet at `pos` and the position behind it.
  function PacketAt(s: Bytes, pos: nat): (r: Scan<Packet>)
    requires pos <= |s|
    ensures r.Found? ==> pos + HEADER_LEN <= r.end <= |s|
  {
    if |s| - pos < HEADER_LEN then Failed(UnexpectedEof)
    else
      match ParseHeader(s[pos..pos + HEADER_LEN])
      case None => Failed(InvalidData)
      case Some(n) =>
        if n == 0 then Found(Flush, pos + HEADER_LEN)
        else if n == 1 then Found(Delim, pos + HEADER_LEN)
        else if n == 2 then Found(ResponseEnd, pos + HEADER_LEN)
        else if n < HEADER_LEN then Failed(InvalidData)
        else if |s| < pos + n then Failed(UnexpectedEof)
        else Found(Data(s[pos + HEADER_LEN..pos + n]), pos + n)
  }

  function WithoutNewline(b: Bytes): Bytes {
    if b != [] && b[|b| - 1] == NEWLINE then b[..|b| - 1] else b
  }

  function TextListAt(s: Bytes, pos: nat): (r: Scan<seq<Bytes>>)
    requires pos <= |s|
    ensures r.Found? ==> r.end <= |s|
    decreases |s| - pos
  {
    match PacketAt(s, pos)
    case Failed(e) => Failed(e)
    case Found(Flush, next) => Found([], next)
    case Found(Data(bytes), next) =>
      if !ValidUtf8(WithoutNewline(bytes)) then Failed(InvalidData)
      else
        (match TextListAt(s, next)
         case Failed(e) => Failed(e)
         case Found(lines, end) => Found([WithoutNewline(bytes)] + lines, end))
    case Found(_, _) => Failed(InvalidData)
  }

  // Data packets up to a flush, `total` bytes having gone before.
  function BinaryAt(s: Bytes, pos: nat, total: nat, cap: nat): (r: Scan<Bytes>)
    requires pos <= |s|
    ensures r.Found? ==> r.end <= |s|
    decreases |s| - pos
  {
    match PacketAt(s, pos)
    case Failed(e) => Failed(e)
    case Found(Flush, next) => Found([], next)
    case Found(Data(bytes), next) =>
      if total + |bytes| > cap then Failed(InvalidData)
      else
        (match BinaryAt(s, next, total + |bytes|, cap)
         case Failed(e) => Failed(e)
         case Found(more, end) => Found(bytes + more, end))
    case Found(_, _) => Failed(InvalidData)
  }

  // ---- What the writer writes ----

  function TextFrame(line: Bytes): Bytes
    requires |line| < MAX_PKT_PAYLOAD
  {
    Header(|line| + 1 + HEADER_LEN) + line + [NEWLINE]
  }

  // Byte by byte: four digits of the total length, the line, a newline.
  lemma {:induction false} TextFrameBytes(line: Bytes)
    requires |line| <= 65515
    ensures var f := TextFrame(line);
            && |f| == |line| + 5 && f[..4] == HexDigits(|line| + 5, 4)
            && f[4..|line| + 4] == line && f[|line| + 4] == 10
  {
  }

  const FLUSH: Bytes := [48, 48, 48, 48]

  predicate AllFit(lines: seq<Bytes>) {
    forall i :: 0 <= i < |lines| ==> |lines[i]| < MAX_PKT_PAYLOAD
  }

  // The lines from the `i`th on and a flush; cut off in front of the first that does not fit.
  function TextFrames(lines: seq<Bytes>, i: nat): Bytes
    requires i <= |lines|
    decreases |lines| - i
  {
    if i == |lines| then FLUSH
    else if |lines[i]| >= MAX_PKT_PAYLOAD then []
    else TextFrame(lines[i]) + TextFrames(lines, i + 1)
  }

  // Data packets and a flush.
  function BinaryFrames(data: Bytes): Bytes
    decreases |data|
  {
    if data == [] then FLUSH else BinaryFrame(data) + BinaryFrames(data[FrameSize(data)..])
  }

  // As much of the data as one packet takes.
  function FrameSize(data: Bytes): (n: nat)
    ensures n <= |data| && n <= MAX_PKT_PAYLOAD && (data != [] ==> n > 0)
  {
    if |data| < MAX_PKT_PAYLOAD then |data| else MAX_PKT_PAYLOAD
  }

  function BinaryFrame(data: Bytes): Bytes {
    Header(FrameSize(data) + HEADER_LEN) + data[..FrameSize(data)]
  }

  // Full packets and a rest: four bytes of header for every 65516 bytes begun, and four for the flush.
  lemma {:induction false} FramesCount(data: Bytes)
    ensures |BinaryFrames(data)| == |data| + 4 * ((|data| + 65515) / 65516) + 4
    decreases |data|
  {
    if data != [] {
      FramesCount(data[FrameSize(data)..]);
    }
  }

  // ---- Round trips ----

  // The four lengths below four: three control packets, and one that is refused.
  lemma {:induction false} ControlPackets(s: Bytes, pos: nat, n: nat)
    requires n < 4 && Occurs(s, pos, HexDigits(n, 4))
    ensures PacketAt(s, pos) == if n == 0 then Found(Flush, pos + 4)
        else if n == 1 then Found(Delim, pos + 4)
        else if n == 2 then Found(ResponseEnd, pos + 4) else Failed(InvalidData)
  {
    HeaderRoundTrip(n);
    OccursSlice(s, pos, Header(n));
  }

  lemma {:induction false} FrameRoundTrip(s: Bytes, pos: nat, payload: Bytes)
    requires |payload| <= MAX_PKT_PAYLOAD && Occurs(s, pos, Header(|payload| + HEADER_LEN) + payload)
    ensures PacketAt(s, pos) == Found(Data(payload), pos + HEADER_LEN + |payload|)
  {
    HeaderRoundTrip(|payload| + HEADER_LEN);
    OccursSplit(s, pos, Header(|payload| + HEADER_LEN), payload);
    OccursSlice(s, pos, Header(|payload| + HEADER_LEN));
    OccursSlice(s, pos + HEADER_LEN, payload);
  }

  lemma {:induction false} FlushRoundTrip(s: Bytes, pos: nat)
    requires Occurs(s, pos, FLUSH)
    ensures PacketAt(s, pos) == Found(Flush, pos + |FLUSH|)
  {
    HeaderRoundTrip(0);
    assert Header(0) == FLUSH;
    OccursSlice(s, pos, FLUSH);
  }

  lemma {:induction false} FlushEndsList(s: Bytes, pos: nat, total: nat, cap: nat)
    requires Occurs(s, pos, FLUSH)
    ensures TextListAt(s, pos) == Found([], pos + |FLUSH|)
    ensures BinaryAt(s, pos, total, cap) == Found([], pos + |FLUSH|)
  {
    FlushRoundTrip(s, pos);
  }

  lemma {:induction false} FirstLine(s: Bytes, pos: nat, lines: seq<Bytes>, i: nat)
    requires i < |lines| && |lines[i]| < MAX_PKT_PAYLOAD && Occurs(s, pos, TextFrames(lines, i))
    ensures PacketAt(s, pos) == Found(Data(lines[i] + [NEWLINE]), pos + |TextFrame(lines[i])|)
    ensures Occurs(s, pos + |TextFrame(lines[i])|, TextFrames(lines, i + 1))
    ensures |TextFrames(lines, i)| == |TextFrame(lines[i])| + |TextFrames(lines, i + 1)|
  {
    var payload := lines[i] + [NEWLINE];
    OccursSplit(s, pos, TextFrame(lines[i]), TextFrames(lines, i + 1));
    assert TextFrame(lines[i]) == Header(|payload| + HEADER_LEN) + payload;
    FrameRoundTrip(s, pos, payload);
  }

  lemma {:induction false} TextListStep(s: Bytes, pos: nat, lines: seq<Bytes>, i: nat, next: nat, end: nat)
    requires i < |lines| && pos <= |s| && PacketAt(s, pos) == Found(Data(lines[i] + [NEWLINE]), next)
    requires TextListAt(s, next) == Found(lines[i + 1..], end)
    ensures ValidUtf8(lines[i]) ==> TextListAt(s, pos) == Found(lines[i..], end)
  {
    assert WithoutNewline(lines[i] + [NEWLINE]) == lines[i];
    assert [lines[i]] + lines[i + 1..] == lines[i..];
  }

  // For every list of lines that fit, wherever it stands in a stream, reading undoes writing and
  // stops right behind it. (The lines are Rust strings, hence valid UTF-8.)
  lemma {:induction false} TextListRoundTrip(s: Bytes, pos: nat, lines: seq<Bytes>, i: nat)
    requires i <= |lines| && AllFit(lines) && forall j :: 0 <= j < |lines| ==> ValidUtf8(lines[j])
    requires Occurs(s, pos, TextFrames(lines, i))
    ensures TextListAt(s, pos) == Found(lines[i..], pos + |TextFrames(lines, i)|)
    decreases |lines| - i
  {
    if i == |lines| {
      FlushEndsList(s, pos, 0, 0);
      assert lines[i..] == [];
    } else {
      var next := pos + |TextFrame(lines[i])|;
      FirstLine(s, pos, lines, i);
      TextListRoundTrip(s, next, lines, i + 1);
      TextListStep(s, pos, lines, i, next, pos + |TextFrames(lines, i)|);
    }
  }

  lemma {:induction false} BinaryStep(s: Bytes, pos: nat, bytes: Bytes, next: nat, total: nat, cap: nat)
    requires pos <= |s| && PacketAt(s, pos) == Found(Data(bytes), next)
    ensures BinaryAt(s, pos, total, cap) ==
            if total + |bytes| > cap then Failed(InvalidData)
            else Prefixed(bytes, BinaryAt(s, next, total + |bytes|, cap))
  {
  }

  function Prefixed(bytes: Bytes, after: Scan<Bytes>): Scan<Bytes> {
    if after.Failed? then after else Found(bytes + after.item, after.end)
  }

  lemma {:induction false} FirstFrame(s: Bytes, pos: nat, data: Bytes)
    requires data != [] && Occurs(s, pos, BinaryFrames(data))
    ensures PacketAt(s, pos) == Found(Data(data[..FrameSize(data)]), pos + |BinaryFrame(data)|)
    ensures Occurs(s, pos + |BinaryFrame(data)|, BinaryFrames(data[FrameSize(data)..]))
    ensures |BinaryFrames(data)| == |BinaryFrame(data)| + |BinaryFrames(data[FrameSize(data)..])|
  {
    OccursSplit(s, pos, BinaryFrame(data), BinaryFrames(data[FrameSize(data)..]));
    FrameRoundTrip(s, pos, data[..FrameSize(data)]);
  }

  lemma {:induction false} TakeAndDrop(data: Bytes, n: nat)
    requires n <= |data|
    ensures data[..n] + data[n..] == data
  {
  }

  lemma {:induction false} FirstThenRest(s: Bytes, pos: nat, data: Bytes, size: nat, next: nat, end: nat,
          total: nat, cap: nat)
    requires pos <= |s| && next <= |s| && size <= |data|
    requires PacketAt(s, pos) == Found(Data(data[..size]), next)
    requires BinaryAt(s, next, total + size, cap) ==
             if total + |data| <= cap || size == |data| then Found(data[size..], end) else Failed(InvalidData)
    ensures BinaryAt(s, pos, total, cap) ==
            if total + |data| <= cap then Found(data, end) else Failed(InvalidData)
  {
    BinaryStep(s, pos, data[..size], next, total, cap);
    TakeAndDrop(data, size);
  }

  // For every payload, reading undoes writing, unless it exceeds the cap: then it is refused.
  lemma {:induction false} BinaryRoundTrip(s: Bytes, pos: nat, data: Bytes, total: nat, cap: nat)
    requires Occurs(s, pos, BinaryFrames(data))
    ensures BinaryAt(s, pos, total, cap) ==
            if total + |data| <= cap || data == [] then Found(data, pos + |BinaryFrames(data)|)
            else Failed(InvalidData)
    decreases |data|
  {
    if data == [] {
      FlushEndsList(s, pos, total, cap);
    } else {
      var size, next := FrameSize(data), pos + |BinaryFrame(data)|;
      FirstFrame(s, pos, data);
      BinaryRoundTrip(s, next, data[size..], total + size, cap);
      FirstThenRest(s, pos, data, size, next, pos + |BinaryFrames(data)|, total, cap);
    }
  }

  // A loop that has read `done` and stands at `pos` is on its way to what the stream says from `start`.
  ghost predicate Resumes(s: Bytes, start: nat, cap: nat, done: Bytes, pos: nat)
    requires start <= |s| && pos <= |s|
  {
    match BinaryAt(s, pos, |done|, cap)
    case Found(data, end) => BinaryAt(s, start, 0, cap) == Found(done + data, end)
    case Failed(e) => BinaryAt(s, start, 0, cap) == Failed(e)
  }

  lemma {:induction false} ResumesAtStart(s: Bytes, start: nat, cap: nat)
    requires start <= |s|
    ensures Resumes(s, start, cap, [], start)
  {
    assert forall data: Bytes :: [] + data == data;
  }

  lemma {:induction false} ResumesAfterData(s: Bytes, start: nat, cap: nat, done: Bytes, pos: nat, bytes: Bytes,
          next: nat)
    requires start <= |s| && pos <= |s| && next <= |s|
    requires Resumes(s, start, cap, done, pos) && PacketAt(s, pos) == Found(Data(bytes), next)
    requires |done| + |bytes| <= cap
    ensures Resumes(s, start, cap, done + bytes, next)
  {
    assert forall data: Bytes :: done + (bytes + data) == (done + bytes) + data;
  }

  lemma {:induction false} ResumesEnds(s: Bytes, start: nat, cap: nat, done: Bytes, pos: nat)
    requires start <= |s| && pos <= |s|
    requires Resumes(s, start, cap, done, pos)
    ensures match PacketAt(s, pos) {
              case Failed(e) => BinaryAt(s, start, 0, cap) == Failed(e)
              case Found(Flush, next) => BinaryAt(s, start, 0, cap) == Found(done, next)
              case Found(Data(bytes), _) => |done| + |bytes| > cap ==> BinaryAt(s, start, 0, cap) == Failed(InvalidData)
              case Found(_, _) => BinaryAt(s, start, 0, cap) == Failed(InvalidData)
            }
  {
    assert done + [] == done;
  }

  // ---- Reader and writer ----

  class PktReader {
    const input: Bytes
    var pos: nat

    constructor (input: Bytes)
      ensures this.input == input && pos == 0
    {
      this.input := input;
      pos := 0;
    }

    predicate Valid()
      reads this
    {
      pos <= |input|
    }

    method ReadPacket() returns (r: Result<Packet, IoError>)
      requires Valid()
      modifies this
      ensures Valid()
      ensures match PacketAt(input, old(pos)) {
                case Found(packet, next) => r == Ok(packet) && pos == next
                case Failed(e) => r == Err(e)
              }
    {
      if |input| - pos < HEADER_LEN {
        return Err(UnexpectedEof);
      }
      var len := ParseHeader(input[pos..pos + HEADER_LEN]);
      pos := pos + HEADER_LEN;
      if len == None {
        return Err(InvalidData);
      }
      var n := len.value;
      if n == 0 {
        return Ok(Flush);
      } else if n == 1 {
        return Ok(Delim);
      } else if n == 2 {
        return Ok(ResponseEnd);
      } else if n < HEADER_LEN {
        return Err(InvalidData);
      }
      var payloadLen := n - HEADER_LEN;
      if |input| - pos < payloadLen {
        return Err(UnexpectedEof);
      }
      r := Ok(Data(input[pos..pos + payloadLen]));
      pos := pos + payloadLen;
    }

    method ReadTextList() returns (r: Result<seq<Bytes>, IoError>)
      requires Valid()
      modifies this
      ensures Valid()
      ensures match TextListAt(input, old(pos)) {
                case Found(lines, end) => r == Ok(lines) && pos == end
                case Failed(e) => r == Err(e)
              }
    {
      var out: seq<Bytes> := [];
      assert forall lines: seq<Bytes> :: out + lines == lines;
      while true
        invariant Valid()
        invariant match TextListAt(input, pos) {
                    case Found(lines, end) => TextListAt(input, old(pos)) == Found(out + lines, end)
                    case Failed(e) => TextListAt(input, old(pos)) == Failed(e)
                  }
        decreases |input| - pos
      {
        var packet := ReadPacket();
        match packet {
          case Err(e) => return Err(e);
          case Ok(Flush) =>
            assert out + [] == out;
            return Ok(out);
          case Ok(Data(bytes)) =>
            if !ValidUtf8(WithoutNewline(bytes)) {
              return Err(InvalidData);
            }
            ghost var before := out;
            out := out + [WithoutNewline(bytes)];
            assert forall lines: seq<Bytes> :: before + ([WithoutNewline(bytes)] + lines) == out + lines;
          case Ok(_) => return Err(InvalidData);
        }
      }
    }

    method ReadBinaryTo(cap: nat) returns (r: Result<Bytes, IoError>)
      requires Valid()
      modifies this
      ensures Valid()
      ensures match BinaryAt(input, old(pos), 0, cap) {
                case Found(data, end) => r == Ok(data) && pos == end
                case Failed(e) => r == Err(e)
              }
    {
      var out: Bytes, total := [], 0;
      ResumesAtStart(input, pos, cap);
      while true
        invariant Valid() && total == |out| && Resumes(input, old(pos), cap, out, pos)
        decreases |input| - pos
      {
        ResumesEnds(input, old(pos), cap, out, pos);
        ghost var before := pos;
        var packet := ReadPacket();
        match packet {
          case Err(e) => return Err(e);
          case Ok(Flush) => return Ok(out);
          case Ok(Data(bytes)) =>
            if total + |bytes| > cap {
              return Err(InvalidData);
            }
            ResumesAfterData(input, old(pos), cap, out, before, bytes, pos);
            out := out + bytes;
            total := total + |bytes|;
          case Ok(_) => return Err(InvalidData);
        }
      }
    }
  }

  class PktWriter {
    var out: Bytes

    constructor ()
      ensures out == []
    {
      out := [];
    }

    method FlushPacket()
      modifies this
      ensures out == old(out) + FLUSH
    {
      out := out + FLUSH;
    }

    method WriteText(line: Bytes) returns (failure: Option<IoError>)
      modifies this
      ensures failure == if |line| < MAX_PKT_PAYLOAD then None else Some(InvalidInput)
      ensures out == if |line| < MAX_PKT_PAYLOAD then old(out) + TextFrame(line) else old(out)
      ensures failure == None <==> |line| <= 65515
    {
      if |line| + 1 > MAX_PKT_PAYLOAD {
        return Some(InvalidInput);
      }
      out := out + Header(|line| + 1 + HEADER_LEN);
      out := out + line;
      out := out + [NEWLINE];
      assert out == old(out) + TextFrame(line);
      return None;
    }

    // The `i`th line, with `all` to be out in the end.
    method WriteNext(lines: seq<Bytes>, i: nat, ghost all: Bytes) returns (failure: Option<IoError>)
      requires i < |lines| && out + TextFrames(lines, i) == all
      modifies this
      ensures failure == if |lines[i]| < MAX_PKT_PAYLOAD then None else Some(InvalidInput)
      ensures if failure == None then out + TextFrames(lines, i + 1) == all else out == all
    {
      if |lines[i]| < MAX_PKT_PAYLOAD {
        Regroup(out, TextFrame(lines[i]), TextFrames(lines, i + 1));
      } else {
        NothingLeft(out, TextFrames(lines, i));
      }
      failure := WriteText(lines[i]);
    }

    // Stops at the first line that does not fit, the ones before it already written.
    method WriteTextList(lines: seq<Bytes>) returns (failure: Option<IoError>)
      modifies this
      ensures failure == if AllFit(lines) then None else Some(InvalidInput)
      ensures out == old(out) + TextFrames(lines, 0)
    {
      ghost var all := out + TextFrames(lines, 0);
      for i := 0 to |lines|
        invariant forall j :: 0 <= j < i ==> |lines[j]| < MAX_PKT_PAYLOAD
        invariant out + TextFrames(lines, i) == all
      {
        failure := WriteNext(lines, i, all);
        if failure.Some? {
          return;
        }
      }
      FlushPacket();
      return None;
    }

    method WriteAllThenFlush(data: Bytes)
      modifies this
      ensures out == old(out) + BinaryFrames(data)
      ensures |out| == |old(out)| + |data| + 4 * ((|data| + 65515) / 65516) + 4
    {
      FramesCount(data);
      WriteBinary(data);
      FlushPacket();
    }

    // Without the flush, which the caller writes.
    method WriteBinary(data: Bytes)
      modifies this
      ensures out + FLUSH == old(out) + BinaryFrames(data)
    {
      var left := data;
      while left != []
        invariant out + BinaryFrames(left) == old(out) + BinaryFrames(data)
        decreases |left|
      {
        var n := if |left| < MAX_PKT_PAYLOAD then |left| else MAX_PKT_PAYLOAD;
        ghost var before := out;
        out := out + Header(n + HEADER_LEN);
        out := out + left[..n];
        assert out == before + BinaryFrame(left);
        left := left[n..];
      }
    }
  }

  // ---- The clean payload ----

  datatype CleanPayload = InMemory(bytes: Bytes) | Spilled(file: Bytes)

  function Content(p: CleanPayload): Bytes {
    match p
    case InMemory(bytes) => bytes
    case Spilled(file) => file
  }

  // Buffers in memory up to `maxInline` bytes, then moves what it has to a file and goes on there.
  method DrainCleanPayload(reader: PktReader, maxInline: nat) returns (r: Result<(CleanPayload, nat), IoError>)
    requires reader.Valid()
    modifies reader
    ensures reader.Valid()
    ensures match BinaryAt(reader.input, old(reader.pos), 0, CLEAN_PAYLOAD_CAP) {
              case Found(data, end) =>
                && r.Ok? && Content(r.value.0) == data && r.value.1 == |data| && reader.pos == end
                && (r.value.0.Spilled? <==> |data| > maxInline)
              case Failed(e) => r == Err(e)
            }
  {
    var buf: Bytes, spilled: Option<Bytes>, total := [], None, 0;
    ghost var start, done: Bytes := reader.pos, [];
    ResumesAtStart(reader.input, start, CLEAN_PAYLOAD_CAP);
    while true
      invariant done == if spilled.Some? then spilled.value else buf
      invariant total == |done| && (spilled.Some? <==> total > maxInline)
      invariant spilled.Some? ==> buf == []
      invariant reader.Valid() && Resumes(reader.input, start, CLEAN_PAYLOAD_CAP, done, reader.pos)
      decreases |reader.input| - reader.pos
    {
      ResumesEnds(reader.input, start, CLEAN_PAYLOAD_CAP, done, reader.pos);
      ghost var before := reader.pos;
      var packet := reader.ReadPacket();
      match packet {
        case Err(e) => return Err(e);
        case Ok(Flush) => break;
        case Ok(Data(bytes)) =>
          if total + |bytes| > CLEAN_PAYLOAD_CAP {
            return Err(InvalidData);
          }
          ResumesAfterData(reader.input, start, CLEAN_PAYLOAD_CAP, done, before, bytes, reader.pos);
          if spilled.Some? {
            spilled := Some(spilled.value + bytes);
          } else if |buf| + |bytes| > maxInline {
            spilled := Some(buf + bytes);
            buf := [];
          } else {
            buf := buf + bytes;
          }
          total := total + |bytes|;
          done := done + bytes;
        case Ok(_) => return Err(InvalidData);
      }
    }
    return Ok((if spilled.Some? then Spilled(spilled.value) else InMemory(buf), total));
  }

  lemma {:induction false} SentIsRead(data: Bytes, rest: Bytes, cap: nat)
    ensures BinaryAt(BinaryFrames(data) + rest, 0, 0, cap) ==
            if |data| <= cap || data == [] then Found(data, |BinaryFrames(data)|) else Failed(InvalidData)
  {
    var s := BinaryFrames(data) + rest;
    OccursSplit(s, 0, BinaryFrames(data), rest);
    OccursWhole(s);
    BinaryRoundTrip(s, 0, data, 0, cap);
  }

  // Writing a payload and draining it gives back the same bytes and length, spilled or not.
  method SendAndDrain(data: Bytes, rest: Bytes, maxInline: nat) returns (r: Result<(CleanPayload, nat), IoError>)
    ensures |data| <= 0x20_0000_0000 ==> r.Ok? && Content(r.value.0) == data && r.value.1 == |data|
    ensures |data| > 0x20_0000_0000 ==> r == Err(InvalidData)
  {
    var writer := new PktWriter();
    writer.WriteAllThenFlush(data);
    var reader := new PktReader(writer.out + rest);
    assert writer.out == BinaryFrames(data);
    SentIsRead(data, rest, CLEAN_PAYLOAD_CAP);
    r := DrainCleanPayload(reader, maxInline);
  }
}
