/**
 * The hash-linked ledger of blockchain.py.
 *
 * Blocks are JSON objects with the keys index, timestamp, data, previous_hash
 * and hash.  A block's digest is SHA-256 over the key-sorted JSON encoding of
 * the block with its own "hash" key removed.  SHA-256 and the encoding are not
 * modelled: the ledger carries the digest as a function `sha` from the
 * hash-less record (a Header) to a hex string, and injectivity of `sha` is
 * stated as a hypothesis only where tamper detection is proved.
 */
module HashLedger {

  /** What a block carries: the genesis text or the record that server.py builds. */
  datatype Payload =
    | Text(text: string)
    | VideoRecord(videoHash: string, verdict: string, confidence: int, model: string)

  /** A block as it is stored in the chain (time.time() is an integer timestamp here). */
  datatype Block = Block(index: int, timestamp: int, data: Payload, previousHash: string, hash: string)

  /** A block with its "hash" key removed: the input of the digest. */
  datatype Header = Header(index: int, timestamp: int, data: Payload, previousHash: string)

  /** SHA-256 over the canonical encoding of a header, as an uninterpreted function. */
  type Digest = Header -> string

  function HeaderOf(b: Block): Header
  {
    Header(b.index, b.timestamp, b.data, b.previousHash)
  }

  /** calculate_hash: the digest of a block, its own "hash" field dropped first. */
  function CalculateHash(sha: Digest, b: Block): (r: string)
    ensures r == sha(HeaderOf(b.(hash := "")))
  {
    sha(HeaderOf(b))
  }

  /** The collision-freedom hypothesis under which tampering is detectable. */
  ghost predicate Injective(sha: Digest)
  {
    forall x, y :: sha(x) == sha(y) ==> x == y
  }

  /**
   * The two checks is_chain_valid makes of block `curr` against its predecessor
   * `prev`.  This chain compares the link with the digest recomputed from `prev`;
   * the proof-of-work chain compares it with the hash stored in `prev`.
   */
  predicate LinkOk(sha: Digest, prev: Block, curr: Block)
  {
    curr.previousHash == CalculateHash(sha, prev) && curr.hash == CalculateHash(sha, curr)
  }

  /** Every non-genesis block is linked to its predecessor and carries its own digest. */
  ghost predicate ChainValid(sha: Digest, c: seq<Block>)
  {
    forall i :: 1 <= i < |c| ==> LinkOk(sha, c[i - 1], c[i])
  }

  /** Every block sits at the position its index field names. */
  ghost predicate Indexed(c: seq<Block>)
  {
    forall i :: 0 <= i < |c| ==> c[i].index == i
  }

  /** The block create_genesis_block builds at time `now`. */
  ghost predicate IsGenesis(sha: Digest, b: Block, now: int)
  {
    && b.index == 0
    && b.timestamp == now
    && b.data == Text("Genesis Block")
    && b.previousHash == "0"
    && b.hash == CalculateHash(sha, b)
  }

  lemma HashIgnoresOwnHash(sha: Digest, b: Block, h: string)
    ensures CalculateHash(sha, b.(hash := h)) == CalculateHash(sha, b)
  {
  }

  lemma SingleBlockChainValid(sha: Digest, b: Block)
    ensures ChainValid(sha, [b])
  {
  }

  /** Appending keeps a chain valid exactly when the new block is linked to the old tail. */
  lemma AppendValid(sha: Digest, c: seq<Block>, b: Block)
    requires |c| > 0
    ensures ChainValid(sha, c + [b]) <==> ChainValid(sha, c) && LinkOk(sha, c[|c| - 1], b)
  {
    var c' := c + [b];
    if ChainValid(sha, c') {
      forall i | 1 <= i < |c| ensures LinkOk(sha, c[i - 1], c[i]) {
        assert c'[i - 1] == c[i - 1] && c'[i] == c[i];
      }
      assert c'[|c|] == b && c'[|c| - 1] == c[|c| - 1];
    }
    if ChainValid(sha, c) && LinkOk(sha, c[|c| - 1], b) {
      forall i | 1 <= i < |c'| ensures LinkOk(sha, c'[i - 1], c'[i]) {
        if i < |c| {
          assert c'[i - 1] == c[i - 1] && c'[i] == c[i];
        }
      }
    }
  }

  /** Editing a non-hash field of a non-genesis block, keeping its stored hash, breaks validity. */
  lemma EditDetected(sha: Digest, c: seq<Block>, i: int, b: Block)
    requires Injective(sha)
    requires ChainValid(sha, c)
    requires 1 <= i < |c|
    requires HeaderOf(b) != HeaderOf(c[i]) && b.hash == c[i].hash
    ensures !ChainValid(sha, c[i := b])
  {
    var c' := c[i := b];
    assert LinkOk(sha, c[i - 1], c[i]);
    assert sha(HeaderOf(b)) != sha(HeaderOf(c[i]));
    assert c'[i] == b;
    assert !LinkOk(sha, c'[i - 1], c'[i]);
  }

  /** Changing the stored hash of a non-genesis block breaks validity, with no hypothesis on sha. */
  lemma HashEditDetected(sha: Digest, c: seq<Block>, i: int, h: string)
    requires ChainValid(sha, c)
    requires 1 <= i < |c|
    requires h != c[i].hash
    ensures !ChainValid(sha, c[i := c[i].(hash := h)])
  {
    var c' := c[i := c[i].(hash := h)];
    assert LinkOk(sha, c[i - 1], c[i]);
    assert !LinkOk(sha, c'[i - 1], c'[i]);
  }

  /** Editing a non-hash field of the genesis block is caught through block 1's link. */
  lemma GenesisEditDetected(sha: Digest, c: seq<Block>, b: Block)
    requires Injective(sha)
    requires ChainValid(sha, c)
    requires |c| >= 2
    requires HeaderOf(b) != HeaderOf(c[0])
    ensures !ChainValid(sha, c[0 := b])
  {
    var c' := c[0 := b];
    assert LinkOk(sha, c[0], c[1]);
    assert sha(HeaderOf(b)) != sha(HeaderOf(c[0]));
    assert !LinkOk(sha, c'[0], c'[1]);
  }

  /** The genesis block's own hash field is never compared with anything. */
  lemma GenesisHashUnchecked(sha: Digest, c: seq<Block>, h: string)
    requires |c| > 0
    ensures ChainValid(sha, c[0 := c[0].(hash := h)]) == ChainValid(sha, c)
  {
    var c' := c[0 := c[0].(hash := h)];
    forall i | 1 <= i < |c| ensures LinkOk(sha, c'[i - 1], c'[i]) == LinkOk(sha, c[i - 1], c[i]) {
      HashIgnoresOwnHash(sha, c[0], h);
    }
    if ChainValid(sha, c) {
      forall i | 1 <= i < |c'| ensures LinkOk(sha, c'[i - 1], c'[i]) {
        assert LinkOk(sha, c[i - 1], c[i]);
      }
    } else {
      var i :| 1 <= i < |c| && !LinkOk(sha, c[i - 1], c[i]);
      assert !LinkOk(sha, c'[i - 1], c'[i]);
    }
  }

  /** The Blockchain class: a chain of blocks that create_block appends to in place. */
  class Blockchain {
    const sha: Digest
    var chain: seq<Block>

    /** The fresh path of __init__: no stored chain, so a genesis block is created. */
    constructor (sha: Digest, now: int)
      ensures this.sha == sha
      ensures |chain| == 1 && IsGenesis(sha, chain[0], now)
      ensures ChainValid(sha, chain) && Indexed(chain)
    {
      this.sha := sha;
      chain := [];
      new;
      CreateGenesisBlock(now);
    }

    /** The stored path of __init__: the chain read back from disk, unchecked. */
    constructor Loaded(sha: Digest, stored: seq<Block>)
      ensures this.sha == sha && chain == stored
    {
      this.sha := sha;
      chain := stored;
    }

    method CreateGenesisBlock(now: int)
      modifies this
      ensures |chain| == |old(chain)| + 1 && chain[..|old(chain)|] == old(chain)
      ensures IsGenesis(sha, chain[|chain| - 1], now)
    {
      var header := Header(0, now, Text("Genesis Block"), "0");
      var block := Block(header.index, header.timestamp, header.data, header.previousHash, sha(header));
      chain := chain + [block];
    }

    method GetLastBlock() returns (b: Block)
      requires |chain| > 0
      ensures b == chain[|chain| - 1]
    {
      b := chain[|chain| - 1];
    }

    /** Appends a block for `data` at time `now`, linked to the current tail. */
    method CreateBlock(data: Payload, now: int) returns (b: Block)
      requires |chain| > 0
      modifies this
      ensures chain == old(chain) + [b]
      ensures b.index == |old(chain)| && b.timestamp == now && b.data == data
      ensures b.previousHash == CalculateHash(sha, old(chain)[|old(chain)| - 1])
      ensures b.hash == CalculateHash(sha, b)
      ensures old(ChainValid(sha, chain)) ==> ChainValid(sha, chain)
      ensures old(Indexed(chain)) ==> Indexed(chain)
    {
      var prev := chain[|chain| - 1];
      var header := Header(|chain|, now, data, CalculateHash(sha, prev));
      b := Block(header.index, header.timestamp, header.data, header.previousHash, sha(header));
      AppendValid(sha, chain, b);
      chain := chain + [b];
    }

    /** Re-checks every link, returning at the first broken one. */
    method IsChainValid() returns (ok: bool)
      ensures ok == ChainValid(sha, chain)
    {
      var i := 1;
      while i < |chain|
        invariant 1 <= i <= |chain| || (|chain| == 0 && i == 1)
        invariant forall j :: 1 <= j < i && j < |chain| ==> LinkOk(sha, chain[j - 1], chain[j])
      {
        var curr := chain[i];
        var prev := chain[i - 1];
        if curr.previousHash != CalculateHash(sha, prev) {
          return false;
        }
        if curr.hash != CalculateHash(sha, curr) {
          return false;
        }
        i := i + 1;
      }
      return true;
    }
  }
}
