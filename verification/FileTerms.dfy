// The terms a file is reconstructed from, as the server stores them.
module FileTerms {
  import opened Wrappers
  import opened Bytes

  // Hashes are only compared for equality.
  type FileHash = nat
  type XorbHash = nat

  // Frames `chunkStart` to `chunkEnd` of a xorb.
  datatype FileTerm = FileTerm(xorb: XorbHash, chunkStart: u32, chunkEnd: u32, unpackedBytes: u32,
          verification: Option<nat>)

  datatype Registration = Registration(hash: FileHash, terms: seq<FileTerm>)

  // Rows of a batch insert.
  const INSERT_BATCH: nat := 500

  function XorbsOf(terms: seq<FileTerm>): set<XorbHash> {
    set i | 0 <= i < |terms| :: terms[i].xorb
  }

  function SizeOf(terms: seq<FileTerm>): nat {
    if terms == [] then 0 else SizeOf(terms[..|terms| - 1]) + terms[|terms| - 1].unpackedBytes
  }

  lemma {:induction false} SizesAdd(first: seq<FileTerm>, second: seq<FileTerm>)
    ensures SizeOf(first + second) == SizeOf(first) + SizeOf(second)
    decreases |second|
  {
    if second == [] {
      assert first + second == first;
    } else {
      var n := |second| - 1;
      assert first + second == first + second[..n] + [second[n]];
      assert (first + second)[..|first + second| - 1] == first + second[..n];
      SizesAdd(first, second[..n]);
    }
  }

  // The size and the xorbs of a list are those of its terms.
  lemma {:induction false} ListsAdd(first: seq<FileTerm>, second: seq<FileTerm>, t: FileTerm)
    ensures SizeOf([]) == 0 && SizeOf([t]) == t.unpackedBytes as int
    ensures SizeOf(first + second) == SizeOf(first) + SizeOf(second)
    ensures XorbsOf([]) == {} && XorbsOf([t]) == {t.xorb}
    ensures XorbsOf(first + second) == XorbsOf(first) + XorbsOf(second)
  {
    SizesAdd(first, second);
    assert [t][..0] == [];
    forall x | x in XorbsOf(first) + XorbsOf(second) ensures x in XorbsOf(first + second) {
      if x in XorbsOf(first) {
        var i :| 0 <= i < |first| && first[i].xorb == x;
        assert (first + second)[i].xorb == x;
      } else {
        var i :| 0 <= i < |second| && second[i].xorb == x;
        assert (first + second)[|first| + i].xorb == x;
      }
    }
    forall x | x in XorbsOf(first + second) ensures x in XorbsOf(first) + XorbsOf(second) {
      var i :| 0 <= i < |first + second| && (first + second)[i].xorb == x;
      assert i < |first| ==> first[i].xorb == x;
      assert i >= |first| ==> second[i - |first|].xorb == x;
    }
    assert [t][0].xorb == t.xorb;
  }

  // Term lists are written once: the first that is not empty stays.
  function WithList(terms: map<FileHash, seq<FileTerm>>, r: Registration): map<FileHash, seq<FileTerm>> {
    if r.hash in terms || r.terms == [] then terms else terms[r.hash := r.terms]
  }

  function WithLists(terms: map<FileHash, seq<FileTerm>>, files: seq<Registration>): map<FileHash, seq<FileTerm>> {
    if files == [] then terms else WithList(WithLists(terms, files[..|files| - 1]), files[|files| - 1])
  }

  // A stored list stays. A list is stored because it was there, or because one of the files sent it.
  lemma {:induction false} ListsComeFrom(terms: map<FileHash, seq<FileTerm>>, files: seq<Registration>, h: FileHash)
    ensures h in terms ==> h in WithLists(terms, files) && WithLists(terms, files)[h] == terms[h]
    ensures h in WithLists(terms, files) && h !in terms ==>
              exists i :: 0 <= i < |files| && files[i].hash == h && files[i].terms == WithLists(terms, files)[h]
    ensures forall i :: 0 <= i < |files| && files[i].hash == h && files[i].terms != [] ==> h in WithLists(terms, files)
  {
    if files != [] {
      var n := |files| - 1;
      var first := files[..n];
      ListsComeFrom(terms, first, h);
      forall i | 0 <= i < n ensures first[i] == files[i] {
      }
      if h in WithLists(terms, first) && h !in terms {
        var i :| 0 <= i < n && first[i].hash == h && first[i].terms == WithLists(terms, first)[h];
        assert files[i].hash == h && files[i].terms == WithLists(terms, files)[h];
      } else if h in WithLists(terms, files) && h !in terms {
        assert files[n].hash == h && files[n].terms == WithLists(terms, files)[h];
      }
    }
  }
}
