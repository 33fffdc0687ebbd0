// What a xorb is in bytes, and that the parser accepts exactly that.
module XorbRoundTrip {
  import opened Wrappers
  import opened Bytes
  import opened XorbFrames

  // A chunk as it is packed: the compression scheme, the length before compression, the payload.
  datatype Packed = Packed(scheme: nat, unpacked: nat, payload: Bytes)

  predicate Fits(c: Packed) {
    c.scheme <= 2 && c.unpacked < 0x100_0000 && |c.payload| < 0x100_0000
  }

  predicate AllFit(cs: seq<Packed>) {
    forall i :: 0 <= i < |cs| ==> Fits(cs[i])
  }

  // Version 0, the payload's length in 3 bytes, the scheme, the unpacked length in 3 bytes, the payload.
  function FrameBytes(c: Packed): (b: Bytes)
    requires Fits(c)
    ensures |b| == 8 + |c.payload|
  {
    [0] + LittleEndian(|c.payload|, 3) + [c.scheme as byte] + LittleEndian(c.unpacked, 3) + c.payload
  }

  function XorbBytes(cs: seq<Packed>): Bytes
    requires AllFit(cs)
  {
    if cs == [] then [] else FrameBytes(cs[0]) + XorbBytes(cs[1..])
  }

  // A footer, an unknown trailer, or too little for a header.
  predicate EndsFrames(rest: Bytes) {
    |rest| < 8 || rest[0] != 0
  }

  // ---- One frame ----

  lemma {:induction false} HeaderStands(body: Bytes, pos: nat, c: Packed)
    requires Fits(c) && Occurs(body, pos, FrameBytes(c))
    ensures pos + 8 + |c.payload| <= |body| && body[pos] == 0 && body[pos + 4] == c.scheme as byte
    ensures Occurs(body, pos + 1, LittleEndian(|c.payload|, 3)) && Occurs(body, pos + 5, LittleEndian(c.unpacked, 3))
    ensures Occurs(body, pos + 8, c.payload)
  {
    var size, unpacked := LittleEndian(|c.payload|, 3), LittleEndian(c.unpacked, 3);
    var version: Bytes, scheme: Bytes := [0], [c.scheme as byte];
    OccursSplit(body, pos, version + size + scheme + unpacked, c.payload);
    OccursSplit(body, pos, version + size + scheme, unpacked);
    OccursSplit(body, pos, version + size, scheme);
    OccursSplit(body, pos, version, size);
    assert body[pos + 0] == version[0] && body[pos + 4 + 0] == scheme[0];
  }

  lemma {:induction false} ThreeBytes(body: Bytes, at: nat, x: nat)
    requires x < 0x100_0000 && Occurs(body, at, LittleEndian(x, 3))
    ensures U24(body, at) == x
  {
    Pow256Values();
    NumberRoundTrip(body, at, x, 3);
    assert ReadLE(body, at, 3) == body[at] as nat + 256 * ReadLE(body, at + 1, 2);
    assert ReadLE(body, at + 2, 1) == body[at + 2] as nat + 256 * ReadLE(body, at + 3, 0);
  }

  lemma {:induction false} FrameReads(body: Bytes, pos: nat, c: Packed)
    requires Fits(c) && Occurs(body, pos, FrameBytes(c))
    ensures StartsFrame(body, pos) && pos + 8 + |c.payload| <= |body|
    ensures FrameAt(body, pos) == Frame(pos, 8 + |c.payload|, c.unpacked, c.scheme)
    ensures Payload(body, FrameAt(body, pos)) == c.payload
  {
    HeaderStands(body, pos, c);
    ThreeBytes(body, pos + 1, |c.payload|);
    ThreeBytes(body, pos + 5, c.unpacked);
    OccursSlice(body, pos + 8, c.payload);
  }

  // ---- All frames ----

  function FramesOf(cs: seq<Packed>, pos: nat): (frames: seq<Frame>)
    ensures |frames| == |cs|
  {
    if cs == [] then []
    else [Frame(pos, 8 + |cs[0].payload|, cs[0].unpacked, cs[0].scheme)] + FramesOf(cs[1..], pos + 8 + |cs[0].payload|)
  }

  function Behind(frames: seq<Frame>, parsed: Parsed): Parsed {
    match parsed
    case Frames(rest) => Frames(frames + rest)
    case Malformed(e) => Malformed(e)
  }

  // The frames of `part` stand in the body from `pos` on.
  predicate Stands(body: Bytes, pos: nat, part: seq<Frame>)
    decreases part
  {
    && pos <= |body|
    && (part != [] ==>
          && StartsFrame(body, pos) && part[0] == FrameAt(body, pos) && part[0].scheme <= 2
          && Stands(body, pos + part[0].length, part[1..]))
  }

  // Frames that stand in the body are parsed, and then comes what stands behind them.
  lemma {:induction false} StandingAreParsed(body: Bytes, pos: nat, index: nat, part: seq<Frame>)
    requires Stands(body, pos, part)
    ensures var end := EndFrom(part, pos);
            end <= |body| && FramesFrom(body, pos, index) == Behind(part, FramesFrom(body, end, index + |part|))
    decreases |part|
  {
    if part == [] {
      EmptyBehind(FramesFrom(body, pos, index));
    } else {
      var next := pos + part[0].length;
      StandingAreParsed(body, next, index + 1, part[1..]);
      assert part == [part[0]] + part[1..];
      OneMoreBehind(part[0], part[1..], FramesFrom(body, pos, index), FramesFrom(body, next, index + 1),
                    FramesFrom(body, EndFrom(part, pos), index + |part|));
    }
  }

  lemma {:induction false} OneMoreStands(body: Bytes, pos: nat, f: Frame, rest: seq<Frame>)
    requires StartsFrame(body, pos) && f == FrameAt(body, pos) && f.scheme <= 2 && Stands(body, pos + f.length, rest)
    ensures Stands(body, pos, [f] + rest) && EndFrom([f] + rest, pos) == EndFrom(rest, pos + f.length)
  {
    assert ([f] + rest)[1..] == rest;
  }

  lemma {:induction false} PackedStand(body: Bytes, pos: nat, cs: seq<Packed>)
    requires AllFit(cs) && Occurs(body, pos, XorbBytes(cs))
    ensures Stands(body, pos, FramesOf(cs, pos)) && EndFrom(FramesOf(cs, pos), pos) == pos + |XorbBytes(cs)|
    decreases |cs|
  {
    if cs != [] {
      OccursSplit(body, pos, FrameBytes(cs[0]), XorbBytes(cs[1..]));
      FrameReads(body, pos, cs[0]);
      PackedStand(body, pos + 8 + |cs[0].payload|, cs[1..]);
      OneMoreStands(body, pos, Frame(pos, 8 + |cs[0].payload|, cs[0].unpacked, cs[0].scheme),
                    FramesOf(cs[1..], pos + 8 + |cs[0].payload|));
    }
  }

  lemma {:induction false} FramesThen(body: Bytes, pos: nat, index: nat, cs: seq<Packed>)
    requires AllFit(cs) && Occurs(body, pos, XorbBytes(cs))
    ensures var end := pos + |XorbBytes(cs)|;
            && end <= |body|
            && FramesFrom(body, pos, index) == Behind(FramesOf(cs, pos), FramesFrom(body, end, index + |cs|))
  {
    PackedStand(body, pos, cs);
    StandingAreParsed(body, pos, index, FramesOf(cs, pos));
  }

  lemma {:induction false} EmptyBehind(parsed: Parsed)
    ensures Behind([], parsed) == parsed
  {
    if parsed.Frames? {
      assert [] + parsed.frames == parsed.frames;
    }
  }

  lemma {:induction false} OneMoreBehind(f: Frame, frames: seq<Frame>, all: Parsed, rest: Parsed, last: Parsed)
    requires all == Behind([f], rest) && rest == Behind(frames, last)
    ensures all == Behind([f] + frames, last)
  {
    if last.Frames? {
      assert ([f] + frames) + last.frames == [f] + (frames + last.frames);
    }
  }

  // Where the `i`th frame stands, and what it holds.
  lemma {:induction false} FrameOf(cs: seq<Packed>, body: Bytes, pos: nat, i: nat)
    requires AllFit(cs) && Occurs(body, pos, XorbBytes(cs)) && i < |cs|
    ensures var f := FramesOf(cs, pos)[i];
            && f == Frame(pos + |XorbBytes(cs[..i])|, 8 + |cs[i].payload|, cs[i].unpacked, cs[i].scheme)
            && EndOf(f) <= |body| && Payload(body, f) == cs[i].payload
    decreases i
  {
    OccursSplit(body, pos, FrameBytes(cs[0]), XorbBytes(cs[1..]));
    FrameReads(body, pos, cs[0]);
    if i > 0 {
      var next := pos + 8 + |cs[0].payload|;
      FrameOf(cs[1..], body, next, i - 1);
      assert cs[..i][1..] == cs[1..][..i - 1];
      assert FramesOf(cs, pos)[i] == FramesOf(cs[1..], next)[i - 1];
    }
  }

  // ---- Accepted bodies ----

  lemma {:induction false} XorbStands(cs: seq<Packed>, rest: Bytes)
    requires AllFit(cs)
    ensures Occurs(XorbBytes(cs) + rest, 0, XorbBytes(cs))
    ensures Occurs(XorbBytes(cs) + rest, |XorbBytes(cs)|, rest)
  {
    OccursWhole(XorbBytes(cs) + rest);
    OccursSplit(XorbBytes(cs) + rest, 0, XorbBytes(cs), rest);
  }

  // Every non-empty list of packed chunks, with a footer or without, parses to exactly these frames:
  // one behind the other, with the lengths and schemes that were written, each with its payload.
  lemma {:induction false} XorbParses(cs: seq<Packed>, rest: Bytes)
    requires cs != [] && AllFit(cs) && EndsFrames(rest) && |XorbBytes(cs) + rest| <= 0xFFFF_FFFF
    ensures var body := XorbBytes(cs) + rest;
            var parsed := ParseFrames(body);
            && parsed.Frames? && |parsed.frames| == |cs|
            && forall i :: 0 <= i < |cs| ==>
                 var f := parsed.frames[i];
                 && f.start == |XorbBytes(cs[..i])| && f.length == 8 + |cs[i].payload|
                 && f.unpacked == cs[i].unpacked && f.scheme == cs[i].scheme
                 && EndOf(f) <= |body| && Payload(body, f) == cs[i].payload
  {
    var body := XorbBytes(cs) + rest;
    XorbStands(cs, rest);
    FramesThen(body, 0, 0, cs);
    var end := |XorbBytes(cs)|;
    assert FramesFrom(body, end, |cs|) == Frames([]) by {
      assert |rest| > 0 ==> body[end + 0] == rest[0];
    }
    assert FramesOf(cs, 0) + [] == FramesOf(cs, 0);
    forall i | 0 <= i < |cs|
      ensures FramesOf(cs, 0)[i] == Frame(|XorbBytes(cs[..i])|, 8 + |cs[i].payload|, cs[i].unpacked, cs[i].scheme)
      ensures EndOf(FramesOf(cs, 0)[i]) <= |body| && Payload(body, FramesOf(cs, 0)[i]) == cs[i].payload
    {
      FrameOf(cs, body, 0, i);
    }
  }

  // ---- Refused bodies ----

  // Behind the packed chunks the parser goes on with `rest`; an error there is its answer.
  lemma {:induction false} ErrorBehind(body: Bytes, cs: seq<Packed>, error: ParseError)
    requires AllFit(cs) && Occurs(body, 0, XorbBytes(cs)) && |body| <= 0xFFFF_FFFF
    requires FramesFrom(body, |XorbBytes(cs)|, |cs|) == Malformed(error)
    ensures ParseFrames(body) == Malformed(error)
  {
    FramesThen(body, 0, 0, cs);
  }

  lemma {:induction false} HeaderBehind(cs: seq<Packed>, rest: Bytes, n: nat)
    requires AllFit(cs) && |rest| >= 8 && rest[0] == 0 && n < 0x100_0000 && Occurs(rest, 1, LittleEndian(n, 3))
    ensures var body, end := XorbBytes(cs) + rest, |XorbBytes(cs)|;
            && StartsFrame(body, end)
            && FrameAt(body, end).scheme == rest[4] as nat && FrameAt(body, end).length == 8 + n
  {
    var body, end := XorbBytes(cs) + rest, |XorbBytes(cs)|;
    assert body[end + 0] == rest[0] && body[end + 4] == rest[4];
    forall k | 0 <= k < 3 ensures body[end + 1 + k] == LittleEndian(n, 3)[k] {
      assert rest[1 + k] == LittleEndian(n, 3)[k] && body[end + (1 + k)] == rest[1 + k];
    }
    ThreeBytes(body, end + 1, n);
  }

  // Behind any packed chunks, a header with an unknown scheme is refused, and one that promises more
  // bytes than there are.
  lemma {:induction false} BadFrameIsRefused(cs: seq<Packed>, rest: Bytes, n: nat)
    requires AllFit(cs) && |XorbBytes(cs) + rest| <= 0xFFFF_FFFF
    requires |rest| >= 8 && rest[0] == 0 && n < 0x100_0000 && Occurs(rest, 1, LittleEndian(n, 3))
    ensures rest[4] > 2 ==>
              ParseFrames(XorbBytes(cs) + rest) == Malformed(BadCompressionScheme(|cs|, rest[4] as nat))
    ensures rest[4] <= 2 && 8 + n > |rest| ==>
              ParseFrames(XorbBytes(cs) + rest) == Malformed(Truncated(|cs|, 8 + n, |rest|))
  {
    var body := XorbBytes(cs) + rest;
    HeaderBehind(cs, rest, n);
    XorbStands(cs, rest);
    if rest[4] > 2 {
      ErrorBehind(body, cs, BadCompressionScheme(|cs|, rest[4] as nat));
    } else if 8 + n > |rest| {
      ErrorBehind(body, cs, Truncated(|cs|, 8 + n, |rest|));
    }
  }

  // So is a body without any frame, and one that is too long.
  lemma {:induction false} NoFrameIsRefused(body: Bytes)
    ensures |body| > 0xFFFF_FFFF ==> ParseFrames(body) == Malformed(TooLarge(|body|, 0xFFFF_FFFF))
    ensures |body| <= 0xFFFF_FFFF && EndsFrames(body) ==> ParseFrames(body) == Malformed(Empty)
  {
  }

  // ---- Nothing else is accepted ----

  function PackedAt(body: Bytes, pos: nat): Packed
    requires pos + HEADER_LEN <= |body| && EndOf(FrameAt(body, pos)) <= |body|
  {
    Packed(FrameAt(body, pos).scheme, FrameAt(body, pos).unpacked, Payload(body, FrameAt(body, pos)))
  }

  lemma {:induction false} ThreeBytesBack(body: Bytes, at: nat)
    requires at + 3 <= |body|
    ensures U24(body, at) < 0x100_0000 && LittleEndian(U24(body, at), 3) == body[at..at + 3]
  {
    var a, b, c := body[at] as nat, body[at + 1] as nat, body[at + 2] as nat;
    var x := a + 256 * b + 65536 * c;
    assert x / 256 == b + 256 * c && x % 256 == a;
    assert (b + 256 * c) / 256 == c && (b + 256 * c) % 256 == b;
    assert LittleEndian(c, 1) == [c as byte];
    assert LittleEndian(b + 256 * c, 2) == [b as byte] + LittleEndian(c, 1);
    assert LittleEndian(x, 3) == [a as byte] + LittleEndian(b + 256 * c, 2);
  }

  lemma {:induction false} FrameWritesBack(body: Bytes, pos: nat)
    requires StartsFrame(body, pos) && FrameAt(body, pos).scheme <= 2 && EndOf(FrameAt(body, pos)) <= |body|
    ensures Fits(PackedAt(body, pos))
    ensures FrameBytes(PackedAt(body, pos)) == body[pos..EndOf(FrameAt(body, pos))]
  {
    ThreeBytesBack(body, pos + 1);
    ThreeBytesBack(body, pos + 5);
    var f := FrameAt(body, pos);
    assert body[pos..EndOf(f)] == [body[pos]] + body[pos + 1..pos + 4] + [body[pos + 4]] + body[pos + 5..pos + 8]
                                  + body[pos + 8..EndOf(f)];
  }

  lemma {:induction false} ParsedFromIsPacked(body: Bytes, pos: nat, index: nat) returns (cs: seq<Packed>, rest: Bytes)
    requires pos <= |body| && FramesFrom(body, pos, index).Frames?
    ensures AllFit(cs) && EndsFrames(rest) && |cs| == |FramesFrom(body, pos, index).frames|
    ensures body[pos..] == XorbBytes(cs) + rest
    decreases |body| - pos
  {
    if StartsFrame(body, pos) {
      var f := FrameAt(body, pos);
      FrameWritesBack(body, pos);
      var more;
      more, rest := ParsedFromIsPacked(body, EndOf(f), index + 1);
      cs := [PackedAt(body, pos)] + more;
      assert cs[1..] == more;
      assert body[pos..] == body[pos..EndOf(f)] + body[EndOf(f)..];
      assert FrameBytes(cs[0]) + (XorbBytes(more) + rest) == (FrameBytes(cs[0]) + XorbBytes(more)) + rest;
    } else {
      cs, rest := [], body[pos..];
      assert [] + rest == rest;
    }
  }

  // What the parser accepts is a non-empty list of packed chunks and a rest that starts no frame.
  lemma {:induction false} ParsedIsPacked(body: Bytes) returns (cs: seq<Packed>, rest: Bytes)
    requires ParseFrames(body).Frames?
    ensures cs != [] && AllFit(cs) && EndsFrames(rest) && body == XorbBytes(cs) + rest && |body| <= 0xFFFF_FFFF
  {
    cs, rest := ParsedFromIsPacked(body, 0, 0);
    assert body[0..] == body;
  }

  // ---- What a body holds ----

  // Each payload decompresses to its chunk, which is as long as its header says.
  ghost predicate Unpacks(d: Decompressor, cs: seq<Packed>, chunks: seq<Bytes>) {
    && |chunks| == |cs|
    && forall i :: 0 <= i < |cs| ==> d(cs[i].scheme, cs[i].payload) == Some(chunks[i]) && |chunks[i]| == cs[i].unpacked
  }

  ghost predicate UnpackAlike(d: Decompressor, body: Bytes, frames: seq<Frame>, cs: seq<Packed>)
    requires InBounds(body, frames)
  {
    && |frames| == |cs|
    && forall i :: 0 <= i < |frames| ==>
         && frames[i].scheme == cs[i].scheme && frames[i].unpacked == cs[i].unpacked
         && Payload(body, frames[i]) == cs[i].payload
  }

  lemma {:induction false} UnpackFinds(d: Decompressor, body: Bytes, frames: seq<Frame>, cs: seq<Packed>,
          chunks: seq<Bytes>, i: nat)
    requires InBounds(body, frames) && i <= |frames| && UnpackAlike(d, body, frames, cs) && Unpacks(d, cs, chunks)
    ensures Unpack(d, body, frames, i) == Chunks(chunks[i..])
    decreases |frames| - i
  {
    if i < |frames| {
      UnpackFinds(d, body, frames, cs, chunks, i + 1);
      assert chunks[i..] == [chunks[i]] + chunks[i + 1..];
    }
  }

  lemma {:induction false} UnpackFound(d: Decompressor, body: Bytes, frames: seq<Frame>, i: nat, j: nat)
    requires InBounds(body, frames) && i <= j < |frames| && Unpack(d, body, frames, i).Chunks?
    ensures |Unpack(d, body, frames, i).chunks| == |frames| - i
    ensures var chunk := Unpack(d, body, frames, i).chunks[j - i];
            d(frames[j].scheme, Payload(body, frames[j])) == Some(chunk) && |chunk| == frames[j].unpacked
    decreases j - i
  {
    UnpackCounts(d, body, frames, i);
    if i < j {
      UnpackFound(d, body, frames, i + 1, j);
    }
  }

  // The contents of packed chunks are what their payloads decompress to, if all of them do.
  lemma {:induction false} ContentsAreUnpacked(d: Decompressor, cs: seq<Packed>, rest: Bytes, chunks: seq<Bytes>)
    requires cs != [] && AllFit(cs) && EndsFrames(rest) && |XorbBytes(cs) + rest| <= 0xFFFF_FFFF
    ensures Contents(d, XorbBytes(cs) + rest) == Chunks(chunks) <==> Unpacks(d, cs, chunks)
  {
    var body := XorbBytes(cs) + rest;
    XorbParses(cs, rest);
    ParsedInBounds(body);
    var frames := ParseFrames(body).frames;
    assert UnpackAlike(d, body, frames, cs);
    if Unpacks(d, cs, chunks) {
      UnpackFinds(d, body, frames, cs, chunks, 0);
      assert chunks[0..] == chunks;
    }
    if Contents(d, body) == Chunks(chunks) {
      forall i | 0 <= i < |frames|
        ensures |chunks| == |cs| && d(cs[i].scheme, cs[i].payload) == Some(chunks[i]) && |chunks[i]| == cs[i].unpacked
      {
        UnpackFound(d, body, frames, 0, i);
      }
    }
  }

  // An upload passes exactly if it is a list of packed chunks that all decompress, and the merkle
  // hash over hash and length of each, in order, is the expected one.
  lemma {:induction false} VerifiedIsPacked(d: Decompressor, dataHash: Bytes -> nat, merkle: seq<MerkleLeaf> -> nat,
          body: Bytes, expected: nat)
    ensures Verdict(d, dataHash, merkle, body, expected) == None <==>
            exists cs, rest, chunks: seq<Bytes> ::
              && cs != [] && AllFit(cs) && EndsFrames(rest) && body == XorbBytes(cs) + rest && |body| <= 0xFFFF_FFFF
              && Unpacks(d, cs, chunks)
              && merkle(seq(|chunks|, i requires 0 <= i < |chunks| => MerkleLeaf(dataHash(chunks[i]), |chunks[i]|)))
                 == expected
  {
    if Verdict(d, dataHash, merkle, body, expected) == None {
      var cs, rest := ParsedIsPacked(body);
      var chunks := Contents(d, body).chunks;
      ContentsAreUnpacked(d, cs, rest, chunks);
      LeavesAre(dataHash, chunks);
    }
    if cs, rest, chunks: seq<Bytes> :|
      && cs != [] && AllFit(cs) && EndsFrames(rest) && body == XorbBytes(cs) + rest && |body| <= 0xFFFF_FFFF
      && Unpacks(d, cs, chunks)
      && merkle(seq(|chunks|, i requires 0 <= i < |chunks| => MerkleLeaf(dataHash(chunks[i]), |chunks[i]|)))
         == expected
    {
      ContentsAreUnpacked(d, cs, rest, chunks);
      LeavesAre(dataHash, chunks);
    }
  }

  lemma {:induction false} LeavesAre(dataHash: Bytes -> nat, chunks: seq<Bytes>)
    ensures Leaves(dataHash, chunks)
            == seq(|chunks|, i requires 0 <= i < |chunks| => MerkleLeaf(dataHash(chunks[i]), |chunks[i]|))
  {
  }
}
