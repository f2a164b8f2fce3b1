/**
 * The vote/commit round of server.py.
 *
 * Three pieces of module-level state: NODES (a set of "name:ip" strings),
 * pending_block (one optional slot holding a payload and its votes) and the
 * ledger.  The Flask handlers become methods of one Server object; each
 * returns an outcome instead of an HTTP status.  The uploaded file, its
 * SHA-256 and the classifier's verdict are plain inputs of UploadVideo, and
 * the request's JSON fields are Options (None for a missing or null field).
 */
module VoteServer {
  import opened Common
  import opened HashLedger

  const AGREE: string := "AGREE"
  const MODEL_NAME: string := "Demo Deepfake Detector"

  /** One entry of pending_block["votes"]; the vote value is stored unchecked. */
  datatype Vote = Vote(node: string, value: Option<string>)

  /** The pending_block slot's content. */
  datatype PendingBlock = PendingBlock(data: Payload, votes: seq<Vote>)

  datatype VoteOutcome =
    | NoPendingBlock
    | UnknownNode
    | AlreadyVoted
    | Recorded(votes: seq<Vote>)
    | Committed(block: Block)

  datatype RegisterOutcome =
    | NameRequired
    | Registered(nodeId: string, nodes: set<string>)

  datatype PendingStatus =
    | NoPending
    | Status(pending: PendingBlock, requiredVotes: nat, totalNodes: nat)

  /** The number of votes whose value is "AGREE". */
  function CountAgree(votes: seq<Vote>): (n: nat)
    ensures n <= |votes|
    ensures n == 0 <==> forall i :: 0 <= i < |votes| ==> votes[i].value != Some(AGREE)
    ensures n == |votes| <==> forall i :: 0 <= i < |votes| ==> votes[i].value == Some(AGREE)
  {
    if votes == [] then 0
    else CountAgree(votes[..|votes| - 1]) + (if votes[|votes| - 1].value == Some(AGREE) then 1 else 0)
  }

  /** consensus_reached: more AGREE votes than half the registered nodes (true division). */
  predicate ConsensusReached(votes: seq<Vote>, nodeCount: nat)
    ensures ConsensusReached(votes, nodeCount) <==> 2 * CountAgree(votes) > nodeCount
  {
    CountAgree(votes) as real > nodeCount as real / 2.0
  }

  /** The required_votes that get_pending_block reports. */
  function RequiredVotes(nodeCount: nat): (r: nat)
    ensures 2 * r > nodeCount && 2 * (r - 1) <= nodeCount
  {
    nodeCount / 2 + 1
  }

  /** Consensus is reaching the reported required_votes. */
  lemma ConsensusIsMajority(votes: seq<Vote>, nodeCount: nat)
    ensures ConsensusReached(votes, nodeCount) <==> CountAgree(votes) >= RequiredVotes(nodeCount)
  {
  }

  lemma RequiredVotesMonotonic(m: nat, n: nat)
    requires m <= n
    ensures RequiredVotes(m) <= RequiredVotes(n)
  {
  }

  /** Appending a vote adds one to the count exactly when its value is "AGREE". */
  lemma CountAgreeAppend(votes: seq<Vote>, v: Vote)
    ensures CountAgree(votes + [v]) == CountAgree(votes) + (if v.value == Some(AGREE) then 1 else 0)
  {
  }

  /** The duplicate-vote test of vote(). */
  predicate HasVoted(votes: seq<Vote>, node: string)
    ensures HasVoted(votes, node) <==> node in Voters(votes)
  {
    exists i :: 0 <= i < |votes| && votes[i].node == node
  }

  /** No node appears twice among the votes. */
  ghost predicate DistinctVoters(votes: seq<Vote>)
  {
    forall i, j :: 0 <= i < j < |votes| ==> votes[i].node != votes[j].node
  }

  /** Every voter is registered and votes at most once. */
  ghost predicate VotesWellFormed(votes: seq<Vote>, nodes: set<string>)
  {
    (forall i :: 0 <= i < |votes| ==> votes[i].node in nodes) && DistinctVoters(votes)
  }

  function Voters(votes: seq<Vote>): set<string>
  {
    set i | 0 <= i < |votes| :: votes[i].node
  }

  lemma {:induction false} VotersSize(votes: seq<Vote>)
    requires DistinctVoters(votes)
    ensures |Voters(votes)| == |votes|
  {
    if votes != [] {
      var init := votes[..|votes| - 1];
      var last := votes[|votes| - 1];
      assert DistinctVoters(init) by {
        forall i, j | 0 <= i < j < |init| ensures init[i].node != init[j].node {
          assert init[i] == votes[i] && init[j] == votes[j];
        }
      }
      VotersSize(init);
      assert Voters(votes) == Voters(init) + {last.node} by {
        forall x | x in Voters(votes) ensures x in Voters(init) + {last.node} {
          var i :| 0 <= i < |votes| && votes[i].node == x;
          if i < |votes| - 1 { assert init[i] == votes[i]; }
        }
        forall x | x in Voters(init) ensures x in Voters(votes) {
          var i :| 0 <= i < |init| && init[i].node == x;
          assert votes[i] == init[i];
        }
      }
      assert last.node !in Voters(init) by {
        forall i | 0 <= i < |init| ensures init[i].node != last.node {
          assert init[i] == votes[i];
        }
      }
    }
  }

  /** Since each voter is a distinct registered node, there are never more votes than nodes. */
  lemma VotesBounded(votes: seq<Vote>, nodes: set<string>)
    requires VotesWellFormed(votes, nodes)
    ensures |votes| <= |nodes|
  {
    VotersSize(votes);
    assert Voters(votes) <= nodes;
    assert |Voters(votes)| <= |nodes| by {
      SubsetSize(Voters(votes), nodes);
    }
  }

  lemma {:induction false} SubsetSize(a: set<string>, b: set<string>)
    requires a <= b
    ensures |a| <= |b|
  {
    if a != {} {
      var x :| x in a;
      SubsetSize(a - {x}, b - {x});
    }
  }

  /** The node id register_node builds. */
  function NodeId(name: string, ip: string): (id: string)
    ensures |id| == |name| + 1 + |ip|
    ensures id[..|name|] == name && id[|name|] == ':' && id[|name| + 1..] == ip
  {
    name + ":" + ip
  }

  /** The server's module-level state. */
  class Server {
    const blockchain: Blockchain
    var nodes: set<string>
    var pending: Option<PendingBlock>

    ghost predicate Valid()
      reads this, blockchain
    {
      && |blockchain.chain| > 0
      && ChainValid(blockchain.sha, blockchain.chain)
      && Indexed(blockchain.chain)
      && (pending.Some? ==> VotesWellFormed(pending.value.votes, nodes))
    }

    /** Module load: a fresh ledger, no nodes, no pending block. */
    constructor (sha: Digest, now: int)
      ensures Valid() && fresh(blockchain)
      ensures nodes == {} && pending == None
      ensures |blockchain.chain| == 1 && IsGenesis(sha, blockchain.chain[0], now)
    {
      blockchain := new Blockchain(sha, now);
      nodes := {};
      pending := None;
    }

    /** upload_video: replaces whatever is pending with a fresh, unvoted block. */
    method UploadVideo(videoHash: string, verdict: string, confidence: int) returns (p: PendingBlock)
      requires Valid()
      modifies this
      ensures Valid()
      ensures p == PendingBlock(VideoRecord(videoHash, verdict, confidence, MODEL_NAME), [])
      ensures pending == Some(p)
      ensures nodes == old(nodes) && blockchain.chain == old(blockchain.chain)
    {
      var blockData := VideoRecord(videoHash, verdict, confidence, MODEL_NAME);
      p := PendingBlock(blockData, []);
      pending := Some(p);
    }

    /** vote: records one vote and commits the pending block once a majority agrees. */
    method CastVote(node: Option<string>, value: Option<string>, now: int) returns (r: VoteOutcome)
      requires Valid()
      modifies this, blockchain
      ensures Valid()
      ensures nodes == old(nodes)
      ensures old(pending).None? ==> r == NoPendingBlock
      ensures old(pending).Some? && (node.None? || node.value !in nodes) ==> r == UnknownNode
      ensures (old(pending).Some? && node.Some? && node.value in nodes && HasVoted(old(pending).value.votes, node.value))
                ==> r == AlreadyVoted
      ensures (r.NoPendingBlock? || r.UnknownNode? || r.AlreadyVoted?)
                ==> pending == old(pending) && blockchain.chain == old(blockchain.chain)
      ensures (r.Recorded? || r.Committed?) <==>
                old(pending).Some? && node.Some? && node.value in nodes && !HasVoted(old(pending).value.votes, node.value)
      ensures r.Recorded? ==>
                var votes := old(pending).value.votes + [Vote(node.value, value)];
                && !ConsensusReached(votes, |nodes|)
                && r.votes == votes
                && pending == Some(PendingBlock(old(pending).value.data, votes))
                && blockchain.chain == old(blockchain.chain)
      ensures r.Committed? ==>
                && ConsensusReached(old(pending).value.votes + [Vote(node.value, value)], |nodes|)
                && pending == None
                && blockchain.chain == old(blockchain.chain) + [r.block]
                && r.block.data == old(pending).value.data
                && r.block.index == |old(blockchain.chain)|
                && r.block.timestamp == now
    {
      if pending.None? {
        return NoPendingBlock;
      }
      if node.None? || node.value !in nodes {
        return UnknownNode;
      }
      var p := pending.value;
      if HasVoted(p.votes, node.value) {
        return AlreadyVoted;
      }
      var votes := p.votes + [Vote(node.value, value)];
      assert VotesWellFormed(votes, nodes) by {
        assert forall i :: 0 <= i < |p.votes| ==> votes[i] == p.votes[i];
      }
      pending := Some(PendingBlock(p.data, votes));
      if ConsensusReached(votes, |nodes|) {
        var block := blockchain.CreateBlock(p.data, now);
        pending := None;
        return Committed(block);
      }
      return Recorded(votes);
    }

    /** register_node: adds "name:ip"; a missing or empty name is refused. */
    method RegisterNode(name: Option<string>, ip: string) returns (r: RegisterOutcome)
      requires Valid()
      modifies this
      ensures Valid()
      ensures pending == old(pending) && blockchain.chain == old(blockchain.chain)
      ensures (name.None? || name.value == "") <==> r == NameRequired
      ensures r == NameRequired ==> nodes == old(nodes)
      ensures r.Registered? ==>
                && r.nodeId == NodeId(name.value, ip)
                && nodes == old(nodes) + {r.nodeId}
                && r.nodes == nodes
                && (r.nodeId in old(nodes) ==> nodes == old(nodes))
    {
      if name.None? || name.value == "" {
        return NameRequired;
      }
      var nodeId := NodeId(name.value, ip);
      nodes := nodes + {nodeId};
      return Registered(nodeId, nodes);
    }

    /** get_pending_block: the pending block with the vote count it needs. */
    method GetPendingBlock() returns (s: PendingStatus)
      requires Valid()
      ensures pending.None? <==> s == NoPending
      ensures s.Status? ==>
                && s.pending == pending.value
                && s.totalNodes == |nodes|
                && s.requiredVotes == RequiredVotes(|nodes|)
                && |s.pending.votes| <= s.totalNodes
    {
      if pending.None? {
        return NoPending;
      }
      VotesBounded(pending.value.votes, nodes);
      return Status(pending.value, |nodes| / 2 + 1, |nodes|);
    }
  }
}
