/** A block list as one column: the hashes one after another, cut apart every 32 bytes. */
module BlockList {
  import opened Prelude

  const HASH_BYTES := 32

  method EncodeBlocks(blocks: seq<Bytes>) returns (raw: Bytes)
    ensures raw == Flatten(blocks)
  {
    raw := [];
    var i := 0;
    while i < |blocks|
      invariant 0 <= i <= |blocks| && raw == Flatten(blocks[..i])
    {
      assert blocks[..i + 1] == blocks[..i] + [blocks[i]];
      FlattenSnoc(blocks[..i], blocks[i]);
      raw := raw + blocks[i];
      i := i + 1;
    }
    assert blocks[..i] == blocks;
  }

  /** Whole hashes only; a short tail is dropped. */
  function DecodeBlocks(raw: Bytes): (blocks: seq<Bytes>)
    ensures forall i :: 0 <= i < |blocks| ==> |blocks[i]| == HASH_BYTES
    ensures Flatten(blocks) == raw[..|raw| - |raw| % HASH_BYTES]
  {
    if |raw| < HASH_BYTES then []
    else
      assert raw[..|raw| - |raw| % HASH_BYTES]
          == raw[..HASH_BYTES] + raw[HASH_BYTES..][..|raw[HASH_BYTES..]| - |raw[HASH_BYTES..]| % HASH_BYTES];
      [raw[..HASH_BYTES]] + DecodeBlocks(raw[HASH_BYTES..])
  }

  lemma {:induction false} DecodesHashes(blocks: seq<Bytes>)
    requires forall i :: 0 <= i < |blocks| ==> |blocks[i]| == HASH_BYTES
    ensures DecodeBlocks(Flatten(blocks)) == blocks
  {
    if blocks != [] {
      DecodesHashes(blocks[1..]);
      assert Flatten(blocks)[..HASH_BYTES] == blocks[0] && Flatten(blocks)[HASH_BYTES..] == Flatten(blocks[1..]);
    }
  }

  /** A list of hashes survives the column exactly when each hash is 32 bytes long. */
  lemma RoundTripIff(blocks: seq<Bytes>)
    ensures DecodeBlocks(Flatten(blocks)) == blocks <==> forall i :: 0 <= i < |blocks| ==> |blocks[i]| == HASH_BYTES
  {
    if forall i :: 0 <= i < |blocks| ==> |blocks[i]| == HASH_BYTES {
      DecodesHashes(blocks);
    }
  }
}
