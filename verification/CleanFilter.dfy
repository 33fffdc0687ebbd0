// The clean filter: a payload drained from git is compared with the chunk index cached for its
// path, and git gets the cached pointer or the one of a full clean.
module CleanFilter {
  import opened Bytes
  import opened CommitWalk
  import opened StagingProtocol
  import opened StagingStore
  import opened CleanCache

  // The merkle hash of a file's content, of which nothing but being a function is used.
  type ContentHash = Bytes -> FileHash

  // What a cache entry holds besides the pointer.
  datatype Fingerprint = Fingerprint(size: nat, chunks: seq<Chunk>)

  class Filter {
    const hash: ChunkHash
    const contentHash: ContentHash
    const area: StagingArea
    var index: map<PathKey, Fingerprint>
    // The payload that each entry was made of.
    ghost var indexed: map<PathKey, Bytes>

    ghost predicate IsEntry(key: PathKey)
      reads this, area
    {
      && key in area.cache && key in index && key in indexed && |indexed[key]| < U64_LIMIT
      && index[key] == Fingerprint(|indexed[key]|, ChunksOf(hash, indexed[key], |indexed[key]|))
      && area.cache[key] == contentHash(indexed[key])
    }

    // gc may remove an entry from the cache; its fingerprint is then never looked at.
    ghost predicate Valid()
      reads this, area
    {
      forall k :: k in area.cache ==> IsEntry(k)
    }

    constructor (hash: ChunkHash, contentHash: ContentHash)
      ensures Valid() && fresh(area) && area.cache == map[]
      ensures this.hash == hash && this.contentHash == contentHash
    {
      this.hash, this.contentHash := hash, contentHash;
      area := new StagingArea();
      index, indexed := map[], map[];
    }

    // The cached size, then every chunk; on disk if the payload has been spilled.
    method Verify(key: PathKey, payload: Bytes, spilled: bool, seed: bv64) returns (verified: bool)
      requires IsEntry(key) && |payload| < U64_LIMIT
      ensures verified <==> |payload| == |indexed[key]| && WindowsAgree(hash, indexed[key], payload, 0)
    {
      IndexDecides(hash, indexed[key], payload);
      var entry := index[key];
      if entry.size != |payload| {
        return false;
      }
      if spilled {
        verified := VerifyChunks(hash, entry.chunks, payload, |payload|, seed);
      } else {
        verified := VerifyChunksInMemory(hash, entry.chunks, payload);
      }
    }

    method SaveIndex(key: PathKey, payload: Bytes, spilled: bool)
      requires |payload| < U64_LIMIT
      modifies `index, `indexed
      ensures indexed == old(indexed)[key := payload]
      ensures index == old(index)[key := Fingerprint(|payload|, ChunksOf(hash, payload, |payload|))]
    {
      var chunks;
      if spilled {
        var _, read := ComputeChunks(hash, payload, |payload|);
        chunks := read;
      } else {
        chunks := ComputeChunksFromSlice(hash, payload);
      }
      index := index[key := Fingerprint(|payload|, chunks)];
      indexed := indexed[key := payload];
    }

    // The payload agrees in length and in the hash of every window with the one indexed for the path.
    ghost predicate Recognizes(key: PathKey, payload: Bytes)
      reads this, area
    {
      && key in area.cache && key in indexed
      && |payload| == |indexed[key]| && WindowsAgree(hash, indexed[key], payload, 0)
    }

    lemma {:induction false} RecognizedIsIndexed(key: PathKey, payload: Bytes)
      requires Valid() && |payload| < U64_LIMIT && Recognizes(key, payload)
      requires NoWindowCollides(hash, indexed[key], payload)
      ensures payload == indexed[key]
    {
      IndexDecides(hash, indexed[key], payload);
      OnlyTheIndexedPayloadPasses(hash, indexed[key], payload);
    }

    // The whole clean of one file. A payload that is recognized gets the cached pointer, and nothing
    // but a marker is touched; any other is staged, and git gets its own pointer. So unless windows
    // collide, git always gets the pointer of the payload it sent: an edited file never comes back
    // with its old one.
    method DoClean(key: PathKey, payload: Bytes, spilled: bool, seed: bv64, added: set<Xorb>, refs: set<Xorb>,
            saved: bool, now: Time) returns (emitted: FileHash)
      requires Valid() && |payload| < U64_LIMIT
      modifies this, area
      ensures Valid()
      ensures old(Recognizes(key, payload)) ==>
        && emitted == old(area.cache)[key] == contentHash(old(indexed)[key])
        && area.xorbs == old(area.xorbs) && area.shards == old(area.shards) && area.cache == old(area.cache)
      ensures !old(Recognizes(key, payload)) ==>
        && emitted == contentHash(payload)
        && emitted in area.markers && area.markers[emitted] == now
        && emitted in area.shards && area.shards[emitted] == refs && area.xorbs == old(area.xorbs) + added
      ensures (key in old(area.cache) && |payload| == |old(indexed)[key]| ==>
          NoWindowCollides(hash, old(indexed)[key], payload)) ==> emitted == contentHash(payload)
    {
      var verified := false;
      if key in area.cache {
        verified := Verify(key, payload, spilled, seed);
        if verified && NoWindowCollides(hash, indexed[key], payload) {
          RecognizedIsIndexed(key, payload);
        }
      }
      emitted := area.Clean(Cleaning(key, verified, contentHash(payload), added, refs, saved), now);
      if !verified && saved {
        SaveIndex(key, payload, spilled);
      }
    }
  }
}
