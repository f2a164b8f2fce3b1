/**
 * The proof-of-work chain of test.py and test2.py.
 *
 * The two files share Block and Blockchain, apart from comments and log
 * messages, except that the add_video_job of test2.py raises the confidence of a weak FAKE verdict;
 * here that is AddVideoJobAdjusted beside AddVideoJob.  The classifier
 * (analyze_video) is not modelled: its verdict and confidence are inputs.
 * Confidences are integer hundredths of a percent, timestamps the strings
 * str(datetime.now()) would give, random.choice an index into the node list,
 * and SHA-256 over the key-sorted JSON of the hashed fields is the
 * uninterpreted function `sha`.
 */
module PowChain {

  /** The fields calculate_hash encodes; confidence and validator are not among them. */
  datatype HashInput = HashInput(index: int, timestamp: string, videoId: string, result: string, prev: string, nonce: nat)

  type Sha = HashInput -> string

  /**
   * The collision-freedom hypothesis under which tampering is detectable.  The
   * two chains hash different records, so each module states it for its own.
   */
  ghost predicate Injective(sha: Sha)
  {
    forall x, y :: sha(x) == sha(y) ==> x == y
  }

  const DIFFICULTY: nat := 3
  const NODES: seq<string> := ["Node-A", "Node-B", "Node-C"]

  /** '0' * d */
  function Zeros(d: nat): (z: string)
    ensures |z| == d && forall i :: 0 <= i < d ==> z[i] == '0'
  {
    if d == 0 then "" else Zeros(d - 1) + "0"
  }

  /** Python's h[:d]. */
  function Slice(h: string, d: nat): (p: string)
    ensures |p| <= d && p <= h
    ensures |p| == d || p == h
  {
    if d <= |h| then h[..d] else h
  }

  /** The digest starts with d zero digits. */
  predicate HasZeroPrefix(h: string, d: nat)
  {
    d <= |h| && forall i :: 0 <= i < d ==> h[i] == '0'
  }

  /** mine_block's loop test `hash[:d] != '0' * d` is exactly the absence of the zero prefix. */
  lemma SliceMatchesTarget(h: string, d: nat)
    ensures Slice(h, d) == Zeros(d) <==> HasZeroPrefix(h, d)
  {
  }

  /** Some nonce from x.nonce on gives the zero prefix: the condition under which mining stops. */
  ghost predicate SomeNonceWorks(sha: Sha, x: HashInput, d: nat)
  {
    exists n: nat :: n >= x.nonce && HasZeroPrefix(sha(x.(nonce := n)), d)
  }

  /** The confidence rule of test2.py: a FAKE verdict under 75% is raised by 15 points. */
  function AdjustConfidence(result: string, conf: int): (c: int)
    ensures c >= conf
    ensures c != conf <==> result == "FAKE" && conf < 7500
    ensures c != conf ==> c == conf + 1500 && c < 9000
  {
    if result == "FAKE" && conf < 7500 then conf + 1500 else conf
  }

  /** A confidence within [0, 100%] stays within it. */
  lemma AdjustConfidenceInRange(result: string, conf: int)
    requires 0 <= conf <= 10000
    ensures 0 <= AdjustConfidence(result, conf) <= 10000
  {
  }

  class Block {
    const sha: Sha
    var index: int
    var timestamp: string
    var videoId: string
    var aiResult: string
    var confidence: int
    var validator: string
    var previousHash: string
    var nonce: nat
    var hash: string

    /** The hashed fields, with the nonce replaced by n. */
    function InputWith(n: nat): HashInput
      reads this`index, this`timestamp, this`videoId, this`aiResult, this`previousHash
    {
      HashInput(index, timestamp, videoId, aiResult, previousHash, n)
    }

    function CalculateHash(): (r: string)
      reads this`index, this`timestamp, this`videoId, this`aiResult, this`previousHash, this`nonce
      ensures r == sha(HashInput(index, timestamp, videoId, aiResult, previousHash, nonce))
    {
      sha(InputWith(nonce))
    }

    constructor (sha: Sha, index: int, previousHash: string, videoId: string, aiResult: string,
                 confidence: int, validator: string, timestamp: string)
      ensures this.sha == sha && this.index == index && this.previousHash == previousHash
      ensures this.videoId == videoId && this.aiResult == aiResult && this.confidence == confidence
      ensures this.validator == validator && this.timestamp == timestamp
      ensures nonce == 0 && hash == CalculateHash()
    {
      this.sha := sha;
      this.index := index;
      this.timestamp := timestamp;
      this.videoId := videoId;
      this.aiResult := aiResult;
      this.confidence := confidence;
      this.validator := validator;
      this.previousHash := previousHash;
      nonce := 0;
      new;
      hash := CalculateHash();
    }

    /**
     * Bumps the nonce until the hash has `difficulty` leading zeros.  The loop
     * tests the stored hash first, so a block whose stored hash already has
     * the prefix is left as it is.  It stops at the first nonce that works,
     * which the requires says exists.
     */
    method MineBlock(difficulty: nat)
      requires HasZeroPrefix(hash, difficulty) || SomeNonceWorks(sha, InputWith(nonce + 1), difficulty)
      modifies this`nonce, this`hash
      ensures HasZeroPrefix(hash, difficulty)
      ensures nonce >= old(nonce)
      ensures nonce == old(nonce) ==> hash == old(hash)
      ensures nonce > old(nonce) ==> hash == CalculateHash() && !HasZeroPrefix(old(hash), difficulty)
      ensures forall n: nat :: old(nonce) < n < nonce ==> !HasZeroPrefix(sha(InputWith(n)), difficulty)
    {
      var target := Zeros(difficulty);
      ghost var start := nonce;
      ghost var w: nat := nonce;
      if !HasZeroPrefix(hash, difficulty) {
        var x := InputWith(nonce + 1);
        var n: nat :| n >= x.nonce && HasZeroPrefix(sha(x.(nonce := n)), difficulty);
        assert x.(nonce := n) == InputWith(n);
        w := n;
      }
      SliceMatchesTarget(hash, difficulty);
      while Slice(hash, difficulty) != target
        invariant start <= nonce <= w
        invariant nonce == start ==> hash == old(hash)
        invariant nonce > start ==> hash == CalculateHash()
        invariant w > start ==> HasZeroPrefix(sha(InputWith(w)), difficulty)
        invariant w == start ==> HasZeroPrefix(old(hash), difficulty)
        invariant Slice(hash, difficulty) == Zeros(difficulty) <==> HasZeroPrefix(hash, difficulty)
        invariant forall n: nat :: start < n < nonce ==> !HasZeroPrefix(sha(InputWith(n)), difficulty)
        invariant nonce > start ==> !HasZeroPrefix(old(hash), difficulty)
        decreases w - nonce
      {
        nonce := nonce + 1;
        hash := CalculateHash();
        SliceMatchesTarget(hash, difficulty);
      }
    }
  }

  /**
   * The two checks is_chain_valid makes of `curr` against its predecessor.  Unlike
   * the ledger of blockchain.py, the link is compared with the hash stored in `prev`.
   */
  ghost predicate LinkOk(prev: Block, curr: Block)
    reads prev, curr
  {
    curr.hash == curr.CalculateHash() && curr.previousHash == prev.hash
  }

  class Blockchain {
    const sha: Sha
    var chain: seq<Block>
    const difficulty: nat
    const nodes: seq<string>

    ghost predicate Valid()
      reads this, chain
    {
      && |chain| >= 1
      && (forall i :: 0 <= i < |chain| ==> chain[i].sha == sha)
      && difficulty == DIFFICULTY
      && nodes == NODES
    }

    /** What is_chain_valid checks: every block after the first is linked and carries its own digest. */
    ghost predicate Linked()
      reads this, chain
    {
      forall i :: 1 <= i < |chain| ==> LinkOk(chain[i - 1], chain[i])
    }

    static method CreateGenesisBlock(sha: Sha, timestamp: string) returns (g: Block)
      ensures fresh(g) && g.sha == sha
      ensures g.index == 0 && g.previousHash == "0" && g.videoId == "Genesis" && g.aiResult == "SYSTEM"
      ensures g.confidence == 10000 && g.validator == "Admin" && g.timestamp == timestamp
      ensures g.nonce == 0 && g.hash == g.CalculateHash()
    {
      g := new Block(sha, 0, "0", "Genesis", "SYSTEM", 10000, "Admin", timestamp);
    }

    constructor (sha: Sha, timestamp: string)
      ensures Valid() && Linked() && this.sha == sha
      ensures |chain| == 1 && fresh(chain[0])
      ensures chain[0].index == 0 && chain[0].previousHash == "0" && chain[0].validator == "Admin"
      ensures chain[0].videoId == "Genesis" && chain[0].aiResult == "SYSTEM" && chain[0].confidence == 10000
      ensures chain[0].nonce == 0 && chain[0].timestamp == timestamp
      ensures chain[0].hash == chain[0].CalculateHash()
    {
      var g := CreateGenesisBlock(sha, timestamp);
      this.sha := sha;
      chain := [g];
      difficulty := DIFFICULTY;
      nodes := NODES;
    }

    method GetLatestBlock() returns (b: Block)
      requires Valid()
      ensures b == chain[|chain| - 1]
    {
      b := chain[|chain| - 1];
    }

    /** The hashed fields the next block would have at nonce 0. */
    ghost function NextInput(videoPath: string, result: string, timestamp: string): HashInput
      requires Valid()
      reads this, chain
    {
      var prev := chain[|chain| - 1];
      HashInput(prev.index + 1, timestamp, videoPath, result, prev.hash, 0)
    }

    /** Builds, mines and appends the block after the current tail. */
    method AppendMined(videoPath: string, result: string, conf: int, validator: string, timestamp: string)
      requires Valid()
      requires SomeNonceWorks(sha, NextInput(videoPath, result, timestamp), difficulty)
      modifies this
      ensures Valid()
      ensures |chain| == |old(chain)| + 1 && chain[..|old(chain)|] == old(chain)
      ensures fresh(chain[|chain| - 1])
      ensures var b := chain[|chain| - 1];
              && b.index == old(chain[|chain| - 1].index) + 1
              && b.previousHash == old(chain[|chain| - 1].hash)
              && b.videoId == videoPath && b.aiResult == result && b.confidence == conf
              && b.validator == validator && b.timestamp == timestamp
              && b.hash == b.CalculateHash() && HasZeroPrefix(b.hash, difficulty)
      ensures old(Linked()) ==> Linked()
    {
      var prev := chain[|chain| - 1];
      var b := new Block(sha, prev.index + 1, prev.hash, videoPath, result, conf, validator, timestamp);
      assert b.InputWith(0) == NextInput(videoPath, result, timestamp);
      ghost var n: nat :| HasZeroPrefix(sha(b.InputWith(0).(nonce := n)), difficulty);
      if n > 0 {
        assert b.InputWith(0).(nonce := n) == b.InputWith(1).(nonce := n);
      }
      b.MineBlock(difficulty);
      assert LinkOk(prev, b);
      chain := chain + [b];
    }

    /** add_video_job of test.py; `choice` is the draw random.choice makes from the node list. */
    method AddVideoJob(videoPath: string, result: string, conf: int, choice: nat, timestamp: string)
      requires Valid() && choice < |nodes|
      requires result != "ERROR" ==> SomeNonceWorks(sha, NextInput(videoPath, result, timestamp), difficulty)
      modifies this
      ensures Valid()
      ensures result == "ERROR" ==> chain == old(chain)
      ensures result != "ERROR" ==>
                && |chain| == |old(chain)| + 1 && chain[..|old(chain)|] == old(chain)
                && fresh(chain[|chain| - 1])
                && var b := chain[|chain| - 1];
                && b.index == old(chain[|chain| - 1].index) + 1
                && b.previousHash == old(chain[|chain| - 1].hash)
                && b.videoId == videoPath && b.aiResult == result && b.confidence == conf
                && b.validator == nodes[choice] && b.validator in nodes && b.timestamp == timestamp
                && b.hash == b.CalculateHash() && HasZeroPrefix(b.hash, difficulty)
      ensures old(Linked()) ==> Linked()
    {
      if result == "ERROR" {
        return;
      }
      var validator := nodes[choice];
      AppendMined(videoPath, result, conf, validator, timestamp);
    }

    /** add_video_job of test2.py: as AddVideoJob, with the confidence adjusted first. */
    method AddVideoJobAdjusted(videoPath: string, result: string, conf: int, choice: nat, timestamp: string)
      requires Valid() && choice < |nodes|
      requires result != "ERROR" ==> SomeNonceWorks(sha, NextInput(videoPath, result, timestamp), difficulty)
      modifies this
      ensures Valid()
      ensures result == "ERROR" ==> chain == old(chain)
      ensures result != "ERROR" ==>
                && |chain| == |old(chain)| + 1 && chain[..|old(chain)|] == old(chain)
                && fresh(chain[|chain| - 1])
                && var b := chain[|chain| - 1];
                && b.index == old(chain[|chain| - 1].index) + 1
                && b.previousHash == old(chain[|chain| - 1].hash)
                && b.videoId == videoPath && b.aiResult == result
                && b.confidence == AdjustConfidence(result, conf)
                && b.validator == nodes[choice] && b.validator in nodes && b.timestamp == timestamp
                && b.hash == b.CalculateHash() && HasZeroPrefix(b.hash, difficulty)
      ensures old(Linked()) ==> Linked()
    {
      if result == "ERROR" {
        return;
      }
      var c := AdjustConfidence(result, conf);
      var validator := nodes[choice];
      AppendMined(videoPath, result, c, validator, timestamp);
    }

    /** Audits the chain, returning at the first block that fails. */
    method IsChainValid() returns (ok: bool)
      ensures ok == Linked()
      ensures !ok <==> exists i :: 1 <= i < |chain| &&
                                   (chain[i].hash != chain[i].CalculateHash() || chain[i].previousHash != chain[i - 1].hash)
    {
      var i := 1;
      while i < |chain|
        invariant 1 <= i
        invariant forall j :: 1 <= j < i && j < |chain| ==> LinkOk(chain[j - 1], chain[j])
      {
        var curr := chain[i];
        var prev := chain[i - 1];
        if curr.hash != curr.CalculateHash() || curr.previousHash != prev.hash {
          assert !LinkOk(chain[i - 1], chain[i]);
          return false;
        }
        i := i + 1;
      }
      forall j | 1 <= j < |chain|
        ensures chain[j].hash == chain[j].CalculateHash() && chain[j].previousHash == chain[j - 1].hash
      {
        assert LinkOk(chain[j - 1], chain[j]);
      }
      return true;
    }

    /** The hack test: chain[i].ai_result = r, with the block's hash left as it was. */
    method OverwriteResult(i: nat, r: string)
      requires Valid() && 1 <= i < |chain|
      modifies (chain[i] as Block)`aiResult
      ensures Valid() && chain[i].aiResult == r
      ensures old(Linked()) && Injective(sha) && r != old(chain[i].aiResult) ==> !Linked()
    {
      ghost var before := chain[i].InputWith(chain[i].nonce);
      ghost var linked := Linked();
      ghost var stale := chain[i].hash;
      if linked {
        assert LinkOk(chain[i - 1], chain[i]);
      }
      chain[i].aiResult := r;
      if linked && Injective(sha) && r != before.result {
        assert chain[i].InputWith(chain[i].nonce) != before;
        assert chain[i].CalculateHash() != stale;
        assert !LinkOk(chain[i - 1], chain[i]);
      }
    }

    /** Editing a block's confidence is invisible to is_chain_valid. */
    method OverwriteConfidence(i: nat, c: int)
      requires Valid() && i < |chain|
      modifies (chain[i] as Block)`confidence
      ensures Valid() && chain[i].confidence == c
      ensures Linked() == old(Linked())
    {
      chain[i].confidence := c;
    }

    /** Editing a block's validator is invisible to is_chain_valid. */
    method OverwriteValidator(i: nat, v: string)
      requires Valid() && i < |chain|
      modifies (chain[i] as Block)`validator
      ensures Valid() && chain[i].validator == v
      ensures Linked() == old(Linked())
    {
      chain[i].validator := v;
    }
  }

}
