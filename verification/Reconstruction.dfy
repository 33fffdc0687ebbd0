// Serving a file: the byte range of every term, and the bytes of a term.
module Reconstruction {
  import opened Wrappers
  import opened Bytes
  import opened FileTerms
  import opened XorbFrames

  const MAX_TERM_UNPACKED_BYTES: nat := 128 * 1024 * 1024

  // A row of the frame layout table.
  datatype LayoutRow = LayoutRow(start: nat, length: nat, unpacked: nat)

  function RowOf(f: Frame): LayoutRow {
    LayoutRow(f.start, f.length, f.unpacked)
  }

  function LayoutOf(frames: seq<Frame>): seq<LayoutRow> {
    seq(|frames|, i requires 0 <= i < |frames| => RowOf(frames[i]))
  }

  // The bytes on disk that a layout accounts for.
  function RowBytes(rows: seq<LayoutRow>): nat {
    if rows == [] then 0 else rows[0].length + RowBytes(rows[1..])
  }

  datatype ServeError =
    | LayoutMissing
    | RangeInvalid
    | UnpackedTooLarge
    | BlobMissing
    | BadRange
    | DecompressError(reason: VerifyError)

  // First and last byte, both included, as in section 14.1.2 of RFC 9110.
  datatype ByteRange = ByteRange(first: nat, last: int)

  datatype FetchInfo = FetchInfo(chunkStart: nat, chunkEnd: nat, range: ByteRange)

  predicate RangeOk(layout: seq<LayoutRow>, t: FileTerm) {
    t.chunkStart < t.chunkEnd <= |layout|
  }

  function RangeOf(layout: seq<LayoutRow>, t: FileTerm): ByteRange
    requires RangeOk(layout, t)
  {
    var last := layout[t.chunkEnd - 1];
    ByteRange(layout[t.chunkStart].start, last.start + last.length - 1)
  }

  // The first term that cannot be served, if there is one.
  function FirstError(layouts: map<XorbHash, seq<LayoutRow>>, terms: seq<FileTerm>, i: nat): Option<ServeError>
    requires i <= |terms|
    decreases |terms| - i
  {
    if i == |terms| then None
    else if terms[i].xorb !in layouts then Some(LayoutMissing)
    else if !RangeOk(layouts[terms[i].xorb], terms[i]) then Some(RangeInvalid)
    else FirstError(layouts, terms, i + 1)
  }

  function FetchOf(layout: seq<LayoutRow>, t: FileTerm): FetchInfo
    requires RangeOk(layout, t)
  {
    FetchInfo(t.chunkStart, t.chunkEnd, RangeOf(layout, t))
  }

  ghost predicate AllServable(layouts: map<XorbHash, seq<LayoutRow>>, terms: seq<FileTerm>, n: nat)
    requires n <= |terms|
  {
    forall i :: 0 <= i < n ==> terms[i].xorb in layouts && RangeOk(layouts[terms[i].xorb], terms[i])
  }

  // The fetch entries of one xorb, in the order of its terms among the first `n`.
  ghost function FetchesOf(layouts: map<XorbHash, seq<LayoutRow>>, terms: seq<FileTerm>, x: XorbHash,
          n: nat): seq<FetchInfo>
    requires n <= |terms| && AllServable(layouts, terms, n)
  {
    if n == 0 then []
    else
      var t, before := terms[n - 1], FetchesOf(layouts, terms, x, n - 1);
      if t.xorb == x then before + [FetchOf(layouts[x], t)] else before
  }

  lemma {:induction false} NoErrorMeansServable(layouts: map<XorbHash, seq<LayoutRow>>, terms: seq<FileTerm>, i: nat)
    requires i <= |terms|
    ensures FirstError(layouts, terms, i) == None <==>
            forall j :: i <= j < |terms| ==> terms[j].xorb in layouts && RangeOk(layouts[terms[j].xorb], terms[j])
    decreases |terms| - i
  {
    if i < |terms| {
      NoErrorMeansServable(layouts, terms, i + 1);
    }
  }

  // The ranges of the first `n` terms, grouped by xorb.
  ghost predicate Grouped(layouts: map<XorbHash, seq<LayoutRow>>, terms: seq<FileTerm>, n: nat,
          fetches: map<XorbHash, seq<FetchInfo>>)
    requires n <= |terms|
  {
    && AllServable(layouts, terms, n)
    && fetches.Keys == (set i | 0 <= i < n :: terms[i].xorb)
    && forall x :: x in fetches ==> fetches[x] == FetchesOf(layouts, terms, x, n)
  }

  lemma {:induction false} NoFetches(layouts: map<XorbHash, seq<LayoutRow>>, terms: seq<FileTerm>, x: XorbHash, n: nat)
    requires n <= |terms| && AllServable(layouts, terms, n) && forall i :: 0 <= i < n ==> terms[i].xorb != x
    ensures FetchesOf(layouts, terms, x, n) == []
  {
    if n > 0 {
      NoFetches(layouts, terms, x, n - 1);
    }
  }

  lemma {:induction false} GroupOneMore(layouts: map<XorbHash, seq<LayoutRow>>, terms: seq<FileTerm>, n: nat,
          fetches: map<XorbHash, seq<FetchInfo>>)
    requires n < |terms| && Grouped(layouts, terms, n, fetches)
    requires terms[n].xorb in layouts && RangeOk(layouts[terms[n].xorb], terms[n])
    ensures var t := terms[n];
            Grouped(layouts, terms, n + 1,
                    fetches[t.xorb := (if t.xorb in fetches
                        then fetches[t.xorb] else []) + [FetchOf(layouts[t.xorb], t)]])
  {
    if terms[n].xorb !in fetches {
      NoFetches(layouts, terms, terms[n].xorb, n);
    }
  }

  // The terms of the xorb among the first `n`, in their order.
  ghost predicate AreTermsOf(terms: seq<FileTerm>, n: nat, x: XorbHash, at: seq<nat>)
    requires n <= |terms|
  {
    && (forall k, l :: 0 <= k < l < |at| ==> at[k] < at[l])
    && (forall i :: i in at ==> i < n && terms[i].xorb == x)
    && (forall i :: 0 <= i < n && terms[i].xorb == x ==> i in at)
  }

  // From the first frame's first byte to the last frame's last one.
  predicate IsRangeOf(layout: seq<LayoutRow>, t: FileTerm, entry: FetchInfo) {
    && t.chunkStart < t.chunkEnd <= |layout|
    && entry.chunkStart == t.chunkStart && entry.chunkEnd == t.chunkEnd
    && entry.range.first == layout[t.chunkStart].start
    && entry.range.last + 1 == layout[t.chunkEnd - 1].start + layout[t.chunkEnd - 1].length
  }

  // The entries are the byte ranges of these terms.
  ghost predicate AreRanges(layout: seq<LayoutRow>, terms: seq<FileTerm>, at: seq<nat>, entries: seq<FetchInfo>) {
    && |at| == |entries|
    && forall k :: 0 <= k < |at| ==> at[k] < |terms| && IsRangeOf(layout, terms[at[k]], entries[k])
  }

  lemma {:induction false} OneMoreTerm(terms: seq<FileTerm>, n: nat, x: XorbHash, at: seq<nat>)
    requires 0 < n <= |terms| && terms[n - 1].xorb == x && AreTermsOf(terms, n - 1, x, at)
    ensures AreTermsOf(terms, n, x, at + [n - 1])
  {
    forall k | 0 <= k < |at| ensures at[k] < n - 1 {
      assert at[k] in at;
    }
  }

  lemma {:induction false} OneOtherTerm(terms: seq<FileTerm>, n: nat, x: XorbHash, at: seq<nat>)
    requires 0 < n <= |terms| && terms[n - 1].xorb != x && AreTermsOf(terms, n - 1, x, at)
    ensures AreTermsOf(terms, n, x, at)
  {
  }

  ghost function TermsOf(terms: seq<FileTerm>, x: XorbHash, n: nat): seq<nat>
    requires n <= |terms|
  {
    if n == 0 then []
    else if terms[n - 1].xorb == x then TermsOf(terms, x, n - 1) + [n - 1]
    else TermsOf(terms, x, n - 1)
  }

  lemma {:induction false} TermsInOrder(terms: seq<FileTerm>, x: XorbHash, n: nat)
    requires n <= |terms|
    ensures AreTermsOf(terms, n, x, TermsOf(terms, x, n))
  {
    if n > 0 {
      TermsInOrder(terms, x, n - 1);
      if terms[n - 1].xorb == x {
        OneMoreTerm(terms, n, x, TermsOf(terms, x, n - 1));
      } else {
        OneOtherTerm(terms, n, x, TermsOf(terms, x, n - 1));
      }
    }
  }

  lemma {:induction false} OneMoreRange(layout: seq<LayoutRow>, terms: seq<FileTerm>, at: seq<nat>,
          entries: seq<FetchInfo>, i: nat)
    requires AreRanges(layout, terms, at, entries) && i < |terms| && RangeOk(layout, terms[i])
    ensures AreRanges(layout, terms, at + [i], entries + [FetchOf(layout, terms[i])])
  {
  }

  lemma {:induction false} FetchesAreRanges(layouts: map<XorbHash, seq<LayoutRow>>, terms: seq<FileTerm>, x: XorbHash,
          n: nat)
    requires n <= |terms| && AllServable(layouts, terms, n) && x in layouts
    ensures AreRanges(layouts[x], terms, TermsOf(terms, x, n), FetchesOf(layouts, terms, x, n))
  {
    if n > 0 {
      FetchesAreRanges(layouts, terms, x, n - 1);
      if terms[n - 1].xorb == x {
        OneMoreRange(layouts[x], terms, TermsOf(terms, x, n - 1), FetchesOf(layouts, terms, x, n - 1), n - 1);
      }
    }
  }

  lemma {:induction false} FirstErrorIs(layouts: map<XorbHash, seq<LayoutRow>>, terms: seq<FileTerm>, i: nat)
    returns (at: nat)
    requires i <= |terms| && FirstError(layouts, terms, i).Some?
    ensures i <= at < |terms|
    ensures forall j :: i <= j < at ==>
              terms[j].xorb in layouts && terms[j].chunkStart < terms[j].chunkEnd <= |layouts[terms[j].xorb]|
    ensures FirstError(layouts, terms, i) ==
            Some(if terms[at].xorb !in layouts then LayoutMissing else RangeInvalid)
    ensures terms[at].xorb in layouts ==>
              !(terms[at].chunkStart < terms[at].chunkEnd <= |layouts[terms[at].xorb]|)
    decreases |terms| - i
  {
    if terms[i].xorb in layouts && RangeOk(layouts[terms[i].xorb], terms[i]) {
      at := FirstErrorIs(layouts, terms, i + 1);
    } else {
      at := i;
    }
  }

  // Groups the ranges of a file's terms by xorb, or stops at the first term that has none.
  method BuildReconstruction(layouts: map<XorbHash, seq<LayoutRow>>, terms: seq<FileTerm>)
    returns (failure: Option<ServeError>, fetches: map<XorbHash, seq<FetchInfo>>)
    ensures failure == FirstError(layouts, terms, 0)
    ensures failure == None ==>
              && AllServable(layouts, terms, |terms|)
              && fetches.Keys == XorbsOf(terms)
              && (forall x :: x in fetches ==> fetches[x] == FetchesOf(layouts, terms, x, |terms|))
              && (forall x :: x in fetches ==> x in layouts && exists at ::
                   AreTermsOf(terms, |terms|, x, at) && AreRanges(layouts[x], terms, at, fetches[x]))
    ensures failure == None <==>
            forall i :: 0 <= i < |terms| ==>
              terms[i].xorb in layouts && terms[i].chunkStart < terms[i].chunkEnd <= |layouts[terms[i].xorb]|
  {
    NoErrorMeansServable(layouts, terms, 0);
    fetches := map[];
    for i := 0 to |terms|
      invariant FirstError(layouts, terms, 0) == FirstError(layouts, terms, i)
      invariant Grouped(layouts, terms, i, fetches)
    {
      var t := terms[i];
      if t.xorb !in layouts {
        return Some(LayoutMissing), map[];
      }
      var layout := layouts[t.xorb];
      if t.chunkStart >= t.chunkEnd || t.chunkEnd > |layout| {
        return Some(RangeInvalid), map[];
      }
      var last := layout[t.chunkEnd - 1];
      var range := ByteRange(layout[t.chunkStart].start, last.start + last.length - 1);
      var info := FetchInfo(t.chunkStart, t.chunkEnd, range);
      GroupOneMore(layouts, terms, i, fetches);
      fetches := fetches[t.xorb := (if t.xorb in fetches then fetches[t.xorb] else []) + [info]];
    }
    forall x | x in fetches ensures exists at ::
        AreTermsOf(terms, |terms|, x, at) && AreRanges(layouts[x], terms, at, fetches[x])
    {
      TermsInOrder(terms, x, |terms|);
      FetchesAreRanges(layouts, terms, x, |terms|);
    }
    failure := None;
  }

  // A range read of a stored blob: the end is clipped; an inverted range, or one that starts behind
  // the end, is refused.
  function RangeRead(blob: Bytes, from: nat, to: int): (r: Option<Bytes>)
    ensures r.Some? <==> from <= to && from <= |blob|
    ensures r.Some? ==> from + |r.value| == (if to <= |blob| then to else |blob|)
    ensures r.Some? ==> forall i :: 0 <= i < |r.value| ==> r.value[i] == blob[from + i]
  {
    if to < from || from > |blob| then None
    else if to <= |blob| then Some(blob[from..to])
    else Some(blob[from..])
  }

  datatype TermBytes = Served(bytes: Bytes) | Failed(error: ServeError)

  // An empty layout is one that was never registered.
  method FetchAndDecompressTerm(d: Decompressor, layout: seq<LayoutRow>, blob: Option<Bytes>, t: FileTerm)
    returns (r: TermBytes)
    ensures layout == [] ==> r == Failed(LayoutMissing)
    ensures layout != [] && !RangeOk(layout, t) ==> r == Failed(RangeInvalid)
    ensures RangeOk(layout, t) && t.unpackedBytes > 0x800_0000 ==> r == Failed(UnpackedTooLarge)
    ensures RangeOk(layout, t) && t.unpackedBytes <= 0x800_0000 ==>
              match blob {
                case None => r == Failed(BlobMissing)
                case Some(body) =>
                  var range := RangeOf(layout, t);
                  match RangeRead(body, range.first, range.last + 1) {
                    case None => r == Failed(BadRange)
                    case Some(slice) =>
                      match Contents(d, slice) {
                        case Chunks(chunks) => r == Served(Concat(chunks))
                        case Broken(e) => r == Failed(DecompressError(e))
                      }
                  }
              }
  {
    if layout == [] {
      return Failed(LayoutMissing);
    }
    if t.chunkStart >= t.chunkEnd || t.chunkEnd > |layout| {
      return Failed(RangeInvalid);
    }
    var from := layout[t.chunkStart].start;
    var to := layout[t.chunkEnd - 1].start + layout[t.chunkEnd - 1].length;
    if t.unpackedBytes > MAX_TERM_UNPACKED_BYTES {
      return Failed(UnpackedTooLarge);
    }
    if blob == None {
      return Failed(BlobMissing);
    }
    var slice := RangeRead(blob.value, from, to);
    if slice == None {
      return Failed(BadRange);
    }
    var out, failure := DecompressXorbChunksInto(d, slice.value, []);
    if failure.Some? {
      return Failed(DecompressError(failure.value));
    }
    return Served(out);
  }

  // When the layout belongs to an intact body, every range with `start < end <= n` is served: its
  // bytes are within the body and decompress to exactly the chunks of the term.
  lemma {:induction false} TermIsServed(d: Decompressor, body: Bytes, t: FileTerm)
    requires Contents(d, body).Chunks? && RangeOk(LayoutOf(ParseFrames(body).frames), t)
    ensures var range := RangeOf(LayoutOf(ParseFrames(body).frames), t);
            && 0 <= range.first <= range.last < |body|
            && RangeRead(body, range.first, range.last + 1) == Some(body[range.first..range.last + 1])
            && t.chunkEnd <= |Contents(d, body).chunks|
            && Contents(d, body[range.first..range.last + 1]) ==
                Chunks(Contents(d, body).chunks[t.chunkStart..t.chunkEnd])
  {
    SliceHoldsItsChunks(d, body, t.chunkStart, t.chunkEnd);
  }
}
