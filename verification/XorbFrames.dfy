// The xorb body parser, its verification, and the byte ranges served from a parsed layout.
module XorbFrames {
  import opened Wrappers
  import opened Bytes

  const HEADER_LEN: nat := 8
  const U32_MAX: nat := 0xFFFF_FFFF

  // `length` counts the header and the compressed payload.
  datatype Frame = Frame(start: nat, length: nat, unpacked: nat, scheme: nat)

  datatype ParseError =
    | Empty
    | Truncated(frameIndex: nat, need: nat, have: nat)
    | BadCompressionScheme(frameIndex: nat, scheme: nat)
    | TooLarge(actual: nat, max: nat)

  datatype Parsed = Frames(frames: seq<Frame>) | Malformed(error: ParseError)

  // ---- The parser ----

  function U24(body: Bytes, at: nat): nat
    requires at + 3 <= |body|
  {
    body[at] as nat + 256 * body[at + 1] as nat + 65536 * body[at + 2] as nat
  }

  function FrameAt(body: Bytes, pos: nat): (f: Frame)
    requires pos + HEADER_LEN <= |body|
    ensures f.start == pos && f.length >= HEADER_LEN
  {
    Frame(pos, HEADER_LEN + U24(body, pos + 1), U24(body, pos + 5), body[pos + 4] as nat)
  }

  // A frame starts here; otherwise this is the footer, an unknown trailer or the end.
  predicate StartsFrame(body: Bytes, pos: nat) {
    pos + HEADER_LEN <= |body| && body[pos] == 0
  }

  function FramesFrom(body: Bytes, pos: nat, index: nat): Parsed
    requires pos <= |body|
    decreases |body| - pos
  {
    if !StartsFrame(body, pos) then Frames([])
    else
      var f := FrameAt(body, pos);
      if f.scheme > 2 then Malformed(BadCompressionScheme(index, f.scheme))
      else if pos + f.length > |body| then Malformed(Truncated(index, f.length, |body| - pos))
      else
        match FramesFrom(body, pos + f.length, index + 1)
        case Frames(rest) => Frames([f] + rest)
        case Malformed(e) => Malformed(e)
  }

  function ParseFrames(body: Bytes): Parsed {
    if |body| > U32_MAX then Malformed(TooLarge(|body|, U32_MAX))
    else if FramesFrom(body, 0, 0) == Frames([]) then Malformed(Empty)
    else FramesFrom(body, 0, 0)
  }

  method ParseXorbFrames(body: Bytes) returns (r: Parsed)
    ensures r == ParseFrames(body)
  {
    if |body| > U32_MAX {
      return Malformed(TooLarge(|body|, U32_MAX));
    }
    var frames: seq<Frame>, pos := [], 0;
    while pos + HEADER_LEN <= |body|
      invariant pos <= |body|
      invariant match FramesFrom(body, pos, |frames|) {
                  case Frames(rest) => FramesFrom(body, 0, 0) == Frames(frames + rest)
                  case Malformed(e) => FramesFrom(body, 0, 0) == Malformed(e)
                }
    {
      if body[pos] != 0 {
        break;
      }
      var f := Frame(pos, HEADER_LEN + U24(body, pos + 1), U24(body, pos + 5), body[pos + 4] as nat);
      if f.scheme > 2 {
        return Malformed(BadCompressionScheme(|frames|, f.scheme));
      }
      if pos + f.length > |body| {
        return Malformed(Truncated(|frames|, f.length, |body| - pos));
      }
      ghost var before := frames;
      frames := frames + [f];
      assert forall rest: seq<Frame> :: before + ([f] + rest) == frames + rest;
      pos := pos + f.length;
    }
    assert frames + [] == frames;
    if frames == [] {
      return Malformed(Empty);
    }
    return Frames(frames);
  }

  // ---- What parsed frames look like ----

  function EndOf(f: Frame): nat {
    f.start + f.length
  }

  // The frames follow each other without gap from `from` up to `to`.
  predicate Tile(frames: seq<Frame>, from: nat, to: nat) {
    if frames == [] then from == to
    else frames[0].start == from && frames[0].length >= HEADER_LEN && Tile(frames[1..], EndOf(frames[0]), to)
  }

  // Where the frames end when they start at `pos`.
  function EndFrom(frames: seq<Frame>, pos: nat): nat {
    if frames == [] then pos else EndFrom(frames[1..], EndOf(frames[0]))
  }

  lemma {:induction false} FramesTile(body: Bytes, pos: nat, index: nat)
    requires pos <= |body| && FramesFrom(body, pos, index).Frames?
    ensures var frames := FramesFrom(body, pos, index).frames;
            Tile(frames, pos, EndFrom(frames, pos)) && EndFrom(frames, pos) <= |body|
    decreases |body| - pos
  {
    if StartsFrame(body, pos) {
      var f := FrameAt(body, pos);
      FramesTile(body, pos + f.length, index + 1);
      assert FramesFrom(body, pos, index).frames[1..] == FramesFrom(body, pos + f.length, index + 1).frames;
    }
  }

  function OnDiskBytes(frames: seq<Frame>): nat {
    if frames == [] then 0 else frames[0].length + OnDiskBytes(frames[1..])
  }

  lemma {:induction false} TiledSum(frames: seq<Frame>, from: nat, to: nat)
    requires Tile(frames, from, to)
    ensures from + OnDiskBytes(frames) == to
  {
    if frames != [] {
      TiledSum(frames[1..], EndOf(frames[0]), to);
    }
  }

  lemma {:induction false} TiledBounds(frames: seq<Frame>, from: nat, to: nat, i: nat)
    requires Tile(frames, from, to) && i < |frames|
    ensures from <= frames[i].start && HEADER_LEN <= frames[i].length && EndOf(frames[i]) <= to
    ensures if i + 1 < |frames| then EndOf(frames[i]) == frames[i + 1].start else EndOf(frames[i]) == to
    ensures i == 0 ==> frames[i].start == from
  {
    if i > 0 {
      TiledBounds(frames[1..], EndOf(frames[0]), to, i - 1);
    } else if |frames| > 1 {
      TiledBounds(frames[1..], EndOf(frames[0]), to, 0);
    } else {
      assert Tile(frames[1..], EndOf(frames[0]), to);
    }
    TiledSum(frames, from, to);
    TiledSum(frames[1..], EndOf(frames[0]), to);
  }

  // Frames are contiguous from 0. Their lengths sum to the end of the last one, within the body:
  // the on-disk size the shard upload records fits in u32 and is at most what the xorb upload
  // charged. The same goes for the sum of any first frames.
  lemma {:induction false} AcceptedSizes(body: Bytes)
    requires ParseFrames(body).Frames?
    ensures var frames := ParseFrames(body).frames;
            && frames != [] && frames[0].start == 0
            && (forall i :: 0 <= i < |frames| - 1 ==> EndOf(frames[i]) == frames[i + 1].start)
            && OnDiskBytes(frames) == EndOf(frames[|frames| - 1]) <= |body| < U32_LIMIT
  {
    var frames := ParseFrames(body).frames;
    FramesTile(body, 0, 0);
    TiledSum(frames, 0, EndFrom(frames, 0));
    forall i | 0 <= i < |frames|
      ensures i < |frames| - 1 ==> EndOf(frames[i]) == frames[i + 1].start
      ensures i == |frames| - 1 ==> EndOf(frames[i]) == EndFrom(frames, 0)
    {
      TiledBounds(frames, 0, EndFrom(frames, 0), i);
    }
  }

  // ---- Slices re-parse ----

  function Shift(f: Frame, origin: nat): Frame {
    f.(start := if f.start >= origin then f.start - origin else 0)
  }

  // Frames `s` to `e` as seen from `origin`, behind which none of them starts.
  function Shifted(frames: seq<Frame>, s: nat, e: nat, origin: nat): (r: seq<Frame>)
    requires s <= e <= |frames|
    ensures |r| == e - s && forall i :: 0 <= i < |r| ==> r[i] == Shift(frames[s + i], origin)
    decreases e - s
  {
    if s == e then [] else [Shift(frames[s], origin)] + Shifted(frames, s + 1, e, origin)
  }

  // Parsing from the start of the `s`th frame gives the frames from there on.
  lemma {:induction false} ParseFromFrame(body: Bytes, pos: nat, index: nat, s: nat)
    requires pos <= |body| && FramesFrom(body, pos, index).Frames?
    requires s < |FramesFrom(body, pos, index).frames|
    ensures var frames := FramesFrom(body, pos, index).frames;
            && frames[s].start <= |body|
            && FramesFrom(body, frames[s].start, index + s) == Frames(frames[s..])
    decreases s
  {
    var frames := FramesFrom(body, pos, index).frames;
    if s > 0 {
      var next := pos + FrameAt(body, pos).length;
      ParseFromFrame(body, next, index + 1, s - 1);
      assert frames[1..] == FramesFrom(body, next, index + 1).frames;
      assert frames[s] == frames[1..][s - 1] && frames[s..] == frames[1..][s - 1..];
    }
  }

  // A header reads the same in a slice that holds it.
  lemma {:induction false} FrameInSlice(body: Bytes, from: nat, slice: Bytes, pos: nat)
    requires Occurs(body, from, slice) && from <= pos && pos + HEADER_LEN <= from + |slice|
    ensures FrameAt(slice, pos - from) == FrameAt(body, pos).(start := pos - from)
    ensures StartsFrame(slice, pos - from) <==> StartsFrame(body, pos)
  {
    forall k | pos <= k < pos + HEADER_LEN ensures slice[k - from] == body[k] {
      assert body[from + (k - from)] == slice[k - from];
    }
  }

  lemma {:induction false} FrameThenRest(body: Bytes, from: nat, slice: Bytes, f: Frame, index: nat, rest: seq<Frame>)
    requires Occurs(body, from, slice) && from <= f.start && StandsIn(body, f) && EndOf(f) <= from + |slice|
    requires FramesFrom(slice, EndOf(f) - from, index + 1) == Frames(rest)
    ensures FramesFrom(slice, f.start - from, index) == Frames([Shift(f, from)] + rest)
  {
    FrameInSlice(body, from, slice, f.start);
  }

  predicate StandsIn(body: Bytes, f: Frame) {
    StartsFrame(body, f.start) && f == FrameAt(body, f.start) && f.scheme <= 2
  }

  // The frames from the `i`th on stand in the body, one behind the other.
  predicate Line(body: Bytes, frames: seq<Frame>, i: nat)
    requires i <= |frames|
    decreases |frames| - i
  {
    i < |frames| ==>
      && StandsIn(body, frames[i]) && EndOf(frames[i]) <= |body|
      && (i + 1 < |frames| ==> EndOf(frames[i]) == frames[i + 1].start)
      && Line(body, frames, i + 1)
  }

  lemma {:induction false} ParsedLine(body: Bytes, i: nat)
    requires ParseFrames(body).Frames? && i <= |ParseFrames(body).frames|
    ensures Line(body, ParseFrames(body).frames, i)
    decreases |ParseFrames(body).frames| - i
  {
    var frames := ParseFrames(body).frames;
    if i < |frames| {
      FramesTile(body, 0, 0);
      ParseFromFrame(body, 0, 0, i);
      TiledBounds(frames, 0, EndFrom(frames, 0), i);
      assert frames[i..][0] == frames[i];
      ParsedLine(body, i + 1);
    }
  }

  lemma {:induction false} LineGoesUp(body: Bytes, frames: seq<Frame>, i: nat, j: nat)
    requires i <= j < |frames| && Line(body, frames, i)
    ensures frames[i].start <= frames[j].start < EndOf(frames[j]) <= |body|
    decreases j - i
  {
    if i < j {
      LineGoesUp(body, frames, i + 1, j);
    }
  }

  // Frames `i` to `e`, cut out with `from` as the new origin.
  lemma {:induction false} ParseSlice(body: Bytes, frames: seq<Frame>, from: nat, slice: Bytes, i: nat, e: nat,
          index: nat)
    requires i < e <= |frames| && Line(body, frames, i) && from <= frames[i].start
    requires Occurs(body, from, slice) && from + |slice| == EndOf(frames[e - 1])
    ensures frames[i].start - from <= |slice|
    ensures FramesFrom(slice, frames[i].start - from, index) == Frames(Shifted(frames, i, e, from))
    decreases e - i
  {
    LineGoesUp(body, frames, i, e - 1);
    if i + 1 == e {
      NothingBehind(slice, index + 1);
    } else {
      LineGoesUp(body, frames, i + 1, e - 1);
      ParseSlice(body, frames, from, slice, i + 1, e, index + 1);
    }
    FrameThenRest(body, from, slice, frames[i], index, Shifted(frames, i + 1, e, from));
  }

  lemma {:induction false} NothingBehind(body: Bytes, index: nat)
    ensures FramesFrom(body, |body|, index) == Frames([])
  {
  }

  // For every accepted body and every non-empty range of its frames, the bytes from the first
  // frame's start to the last one's end parse to exactly those frames.
  lemma {:induction false} SliceReparses(body: Bytes, s: nat, e: nat)
    requires ParseFrames(body).Frames? && s < e <= |ParseFrames(body).frames|
    ensures var frames := ParseFrames(body).frames; var from, to := frames[s].start, EndOf(frames[e - 1]);
            from < to <= |body| && ParseFrames(body[from..to]) == Frames(Shifted(frames, s, e, from))
  {
    ParsedLine(body, s);
    var frames := ParseFrames(body).frames;
    var from, to := frames[s].start, EndOf(frames[e - 1]);
    LineGoesUp(body, frames, s, e - 1);
    OccursSlice(body, from, body[from..to]);
    ParseSlice(body, frames, from, body[from..to], s, e, 0);
  }

  // ---- Decompression and verification ----

  // Scheme and payload to chunk; None when the payload does not decompress.
  type Decompressor = (nat, Bytes) -> Option<Bytes>

  datatype VerifyError =
    | Parse(error: ParseError)
    | DecompressFailed(frameIndex: nat)
    | LengthMismatch(frameIndex: nat, declared: nat, actual: nat)
    | HashMismatch

  datatype Unpacked = Chunks(chunks: seq<Bytes>) | Broken(reason: VerifyError)

  predicate InBounds(body: Bytes, frames: seq<Frame>) {
    forall i :: 0 <= i < |frames| ==> HEADER_LEN <= frames[i].length && EndOf(frames[i]) <= |body|
  }

  function Payload(body: Bytes, f: Frame): Bytes
    requires HEADER_LEN <= f.length && EndOf(f) <= |body|
  {
    body[f.start + HEADER_LEN..EndOf(f)]
  }

  // The chunks of the frames from the `i`th on.
  function Unpack(d: Decompressor, body: Bytes, frames: seq<Frame>, i: nat): Unpacked
    requires InBounds(body, frames) && i <= |frames|
    decreases |frames| - i
  {
    if i == |frames| then Chunks([])
    else
      match d(frames[i].scheme, Payload(body, frames[i]))
      case None => Broken(DecompressFailed(i))
      case Some(chunk) =>
        if |chunk| != frames[i].unpacked then Broken(LengthMismatch(i, frames[i].unpacked, |chunk|))
        else
          match Unpack(d, body, frames, i + 1)
          case Chunks(rest) => Chunks([chunk] + rest)
          case Broken(e) => Broken(e)
  }

  lemma {:induction false} ParsedInBounds(body: Bytes)
    requires ParseFrames(body).Frames?
    ensures InBounds(body, ParseFrames(body).frames)
  {
    var frames := ParseFrames(body).frames;
    FramesTile(body, 0, 0);
    forall i | 0 <= i < |frames| ensures HEADER_LEN <= frames[i].length && EndOf(frames[i]) <= |body| {
      TiledBounds(frames, 0, EndFrom(frames, 0), i);
    }
  }

  function Contents(d: Decompressor, body: Bytes): Unpacked {
    match ParseFrames(body)
    case Malformed(e) => Broken(Parse(e))
    case Frames(frames) => ParsedInBounds(body); Unpack(d, body, frames, 0)
  }

  function Concat(chunks: seq<Bytes>): Bytes {
    if chunks == [] then [] else chunks[0] + Concat(chunks[1..])
  }

  // Decompresses into `out`, behind what is there already.
  method DecompressXorbChunksInto(d: Decompressor, body: Bytes, before: Bytes)
    returns (out: Bytes, failure: Option<VerifyError>)
    ensures match Contents(d, body) {
              case Chunks(chunks) => failure == None && out == before + Concat(chunks)
              case Broken(e) => failure == Some(e)
            }
  {
    out := before;
    var parsed := ParseXorbFrames(body);
    if parsed.Malformed? {
      return out, Some(Parse(parsed.error));
    }
    var frames := parsed.frames;
    ParsedInBounds(body);
    for i := 0 to |frames|
      invariant match Unpack(d, body, frames, i) {
                  case Chunks(rest) =>
                    Contents(d, body).Chunks? && out + Concat(rest) == before + Concat(Contents(d, body).chunks)
                  case Broken(e) => Contents(d, body) == Broken(e)
                }
    {
      var f := frames[i];
      var chunk := d(f.scheme, body[f.start + HEADER_LEN..f.start + f.length]);
      if chunk == None {
        return out, Some(DecompressFailed(i));
      }
      if |chunk.value| != f.unpacked {
        return out, Some(LengthMismatch(i, f.unpacked, |chunk.value|));
      }
      out := out + chunk.value;
    }
    failure := None;
  }

  // Hash and length of every chunk, which the merkle aggregation is computed from.
  datatype MerkleLeaf = MerkleLeaf(hash: nat, length: nat)

  function Leaves(dataHash: Bytes -> nat, chunks: seq<Bytes>): seq<MerkleLeaf> {
    seq(|chunks|, i requires 0 <= i < |chunks| => MerkleLeaf(dataHash(chunks[i]), |chunks[i]|))
  }

  function Verdict(d: Decompressor, dataHash: Bytes -> nat, merkle: seq<MerkleLeaf> -> nat, body: Bytes,
          expected: nat): Option<VerifyError> {
    match Contents(d, body)
    case Broken(e) => Some(e)
    case Chunks(chunks) => if merkle(Leaves(dataHash, chunks)) == expected then None else Some(HashMismatch)
  }

  // `done` and then what `rest` says are all of it.
  ghost predicate Completes(done: seq<Bytes>, rest: Unpacked, all: Unpacked) {
    match rest
    case Chunks(chunks) => all == Chunks(done + chunks)
    case Broken(e) => all == Broken(e)
  }

  lemma {:induction false} OneMoreDone(done: seq<Bytes>, chunk: Bytes, rest: Unpacked, all: Unpacked)
    requires Completes(done, if rest.Chunks? then Chunks([chunk] + rest.chunks) else rest, all)
    ensures Completes(done + [chunk], rest, all)
  {
    if rest.Chunks? {
      assert done + ([chunk] + rest.chunks) == (done + [chunk]) + rest.chunks;
    }
  }

  lemma {:induction false} OneMoreLeaf(dataHash: Bytes -> nat, done: seq<Bytes>, chunk: Bytes)
    ensures Leaves(dataHash, done + [chunk]) == Leaves(dataHash, done) + [MerkleLeaf(dataHash(chunk), |chunk|)]
  {
  }

  method VerifyXorbBody(d: Decompressor, dataHash: Bytes -> nat, merkle: seq<MerkleLeaf> -> nat, body: Bytes,
          expected: nat)
    returns (failure: Option<VerifyError>)
    ensures failure == Verdict(d, dataHash, merkle, body, expected)
  {
    var parsed := ParseXorbFrames(body);
    if parsed.Malformed? {
      return Some(Parse(parsed.error));
    }
    var frames, entries: seq<MerkleLeaf> := parsed.frames, [];
    ParsedInBounds(body);
    ghost var done: seq<Bytes> := [];
    for i := 0 to |frames|
      invariant entries == Leaves(dataHash, done)
      invariant Completes(done, Unpack(d, body, frames, i), Contents(d, body))
    {
      var f := frames[i];
      var chunk := d(f.scheme, body[f.start + HEADER_LEN..f.start + f.length]);
      if chunk == None {
        return Some(DecompressFailed(i));
      }
      if |chunk.value| != f.unpacked {
        return Some(LengthMismatch(i, f.unpacked, |chunk.value|));
      }
      entries := entries + [MerkleLeaf(dataHash(chunk.value), |chunk.value|)];
      OneMoreLeaf(dataHash, done, chunk.value);
      OneMoreDone(done, chunk.value, Unpack(d, body, frames, i + 1), Contents(d, body));
      done := done + [chunk.value];
    }
    assert done + [] == done;
    if merkle(entries) != expected {
      return Some(HashMismatch);
    }
    return None;
  }

  // ---- A slice holds its chunks ----

  lemma {:induction false} UnpackCounts(d: Decompressor, body: Bytes, frames: seq<Frame>, i: nat)
    requires InBounds(body, frames) && i <= |frames| && Unpack(d, body, frames, i).Chunks?
    ensures |Unpack(d, body, frames, i).chunks| == |frames| - i
    decreases |frames| - i
  {
    if i < |frames| {
      UnpackCounts(d, body, frames, i + 1);
    }
  }

  // `part` is `frames[s..e]` moved to the slice: the frames from the `s + i`th on unpack alike.
  lemma {:induction false} UnpackSlice(d: Decompressor, body: Bytes, frames: seq<Frame>, s: nat, e: nat,
          part: seq<Frame>, slice: Bytes, i: nat)
    requires InBounds(body, frames) && InBounds(slice, part) && s + i <= e <= |frames| && |part| == e - s
    requires forall j :: 0 <= j < |part| ==> SameFrame(body, frames[s + j], slice, part[j])
    requires Unpack(d, body, frames, s + i).Chunks?
    ensures e - s - i <= |Unpack(d, body, frames, s + i).chunks|
    ensures Unpack(d, slice, part, i) == Chunks(Unpack(d, body, frames, s + i).chunks[..e - s - i])
    decreases e - s - i
  {
    UnpackCounts(d, body, frames, s + i);
    if s + i < e {
      assert SameFrame(body, frames[s + i], slice, part[i]);
      UnpackSlice(d, body, frames, s, e, part, slice, i + 1);
      var all := Unpack(d, body, frames, s + i).chunks;
      assert all[..e - s - i] == [all[0]] + all[1..][..e - s - i - 1];
    }
  }

  predicate SameFrame(body: Bytes, f: Frame, slice: Bytes, g: Frame)
    requires HEADER_LEN <= f.length && EndOf(f) <= |body| && HEADER_LEN <= g.length && EndOf(g) <= |slice|
  {
    f.scheme == g.scheme && f.unpacked == g.unpacked && Payload(body, f) == Payload(slice, g)
  }

  lemma {:induction false} UnpackFrom(d: Decompressor, body: Bytes, frames: seq<Frame>, s: nat)
    requires InBounds(body, frames) && s <= |frames| && Unpack(d, body, frames, 0).Chunks?
    ensures s <= |Unpack(d, body, frames, 0).chunks|
    ensures Unpack(d, body, frames, s) == Chunks(Unpack(d, body, frames, 0).chunks[s..])
  {
    UnpackCounts(d, body, frames, 0);
    if s > 0 {
      UnpackFrom(d, body, frames, s - 1);
      var all := Unpack(d, body, frames, 0).chunks;
      assert all[s - 1..] == [all[s - 1]] + all[s..];
    }
  }

  // Main result for reconstruction: of an intact body, the bytes of frames `s..e` decompress to
  // exactly the chunks `s..e`.
  lemma {:induction false} SliceHoldsItsChunks(d: Decompressor, body: Bytes, s: nat, e: nat)
    requires Contents(d, body).Chunks? && s < e <= |ParseFrames(body).frames|
    ensures var frames := ParseFrames(body).frames; var from, to := frames[s].start, EndOf(frames[e - 1]);
            && from < to <= |body| && |Contents(d, body).chunks| == |frames|
            && Contents(d, body[from..to]) == Chunks(Contents(d, body).chunks[s..e])
  {
    var frames := ParseFrames(body).frames;
    var from, to := frames[s].start, EndOf(frames[e - 1]);
    SliceReparses(body, s, e);
    ParsedInBounds(body);
    ParsedInBounds(body[from..to]);
    var part := Shifted(frames, s, e, from);
    forall j | 0 <= j < |part| ensures SameFrame(body, frames[s + j], body[from..to], part[j]) {
      FrameInPart(body, s, e, s + j);
    }
    UnpackPart(d, body, frames, s, e, part, body[from..to]);
  }

  lemma {:induction false} FrameInPart(body: Bytes, s: nat, e: nat, i: nat)
    requires ParseFrames(body).Frames? && s <= i < e <= |ParseFrames(body).frames|
    ensures var frames := ParseFrames(body).frames;
            var f, from, to := frames[i], frames[s].start, EndOf(frames[e - 1]);
            && from <= f.start && HEADER_LEN <= f.length && EndOf(f) <= to <= |body|
            && SameFrame(body, f, body[from..to], Shift(f, from))
  {
    var frames := ParseFrames(body).frames;
    ParsedLine(body, s);
    ParsedLine(body, i);
    LineGoesUp(body, frames, s, i);
    LineGoesUp(body, frames, i, e - 1);
    if i < e - 1 {
      LineGoesUp(body, frames, i + 1, e - 1);
    }
    SamePayload(body, frames[i], frames[s].start, EndOf(frames[e - 1]));
  }

  lemma {:induction false} UnpackPart(d: Decompressor, body: Bytes, frames: seq<Frame>, s: nat, e: nat,
          part: seq<Frame>, slice: Bytes)
    requires InBounds(body, frames) && InBounds(slice, part) && s <= e <= |frames| && |part| == e - s
    requires forall j :: 0 <= j < |part| ==> SameFrame(body, frames[s + j], slice, part[j])
    requires Unpack(d, body, frames, 0).Chunks?
    ensures |Unpack(d, body, frames, 0).chunks| == |frames|
    ensures Unpack(d, slice, part, 0) == Chunks(Unpack(d, body, frames, 0).chunks[s..e])
  {
    UnpackCounts(d, body, frames, 0);
    UnpackFrom(d, body, frames, s);
    UnpackSlice(d, body, frames, s, e, part, slice, 0);
    assert Unpack(d, body, frames, 0).chunks[s..][..e - s] == Unpack(d, body, frames, 0).chunks[s..e];
  }

  lemma {:induction false} SamePayload(body: Bytes, f: Frame, from: nat, to: nat)
    requires from <= f.start && HEADER_LEN <= f.length && EndOf(f) <= |body| && to <= |body|
    requires EndOf(f) - from <= to - from
    ensures Payload(body, f) == Payload(body[from..to], f.(start := f.start - from))
  {
    var inSlice, inBody := Payload(body[from..to], f.(start := f.start - from)), Payload(body, f);
    forall k | 0 <= k < |inBody| ensures inSlice[k] == inBody[k] {
      assert inBody[k] == body[f.start + HEADER_LEN + k];
      assert inSlice[k] == body[from..to][f.start - from + HEADER_LEN + k];
    }
  }
}
