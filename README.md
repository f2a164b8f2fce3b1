# A verified model of a video-verification ledger

This project models the core of a small Python system that records verdicts on
videos (deepfake or not) in hash-linked ledgers. It is written in Dafny 4.11
and has five modules:

- `HashLedger` (`ledger.dfy`) models `blockchain.py`. Blocks are JSON records
  holding index, timestamp, data, previous hash and hash. A block's digest is
  taken with its own `hash` key removed. A fixed genesis block opens the chain.
  `create_block` appends a block linked to the digest of the previous one.
  `is_chain_valid` re-checks every link.
- `VoteServer` (`server.dfy`) models the state logic of `server.py`'s
  handlers. It has three pieces of state: the node set, a single pending-block
  slot with its votes, and a ledger. An upload overwrites the slot. A vote is
  refused in three cases: no pending block, an unknown node, or a node that
  already voted. Otherwise it is appended unchecked. The block is committed
  once the `"AGREE"` votes exceed half the node count.
- `PowChain` (`pow_chain.dfy`) models the proof-of-work chain of `test.py` and
  `test2.py`. A block object mines by bumping its nonce until its hash has
  `difficulty` leading zeros. `add_video_job` appends a mined block with a
  validator drawn from a fixed node list. `test2.py`'s variant first raises the
  confidence of a weak FAKE verdict. The hash covers only some fields, so
  edits to `confidence` and `validator` go unnoticed; this is proved.
- `MockClassifier` (`mock_classifier.dfy`) models `mock_ai_predict` of
  `app.py`. Keywords in the lower-cased file name decide first. Otherwise the
  parity of the name's hash decides, and its remainder modulo 2000 gives the
  confidence.
- `Common` (`common.dfy`) holds `Option`, used for JSON fields that may be
  missing.

SHA-256 and the JSON encodings are uninterpreted functions: the object's
`sha` field or a `hashOf` parameter. Where a lemma or postcondition proves
that an edit is detected, injectivity of that function appears as an explicit
hypothesis (`Injective(sha)`). Time, `random.choice`, the request's remote
address and the classifier's output are parameters. Confidences in `test.py`,
`test2.py` and `app.py` are integer hundredths of a percent.

Facts about `server.py` that the model keeps:
- `register_node` does no conflict check. Ids are `name + ":" + ip`, added to
  a set (server.py:159-160).
- `upload_video` overwrites `pending_block`, including any votes it held
  (server.py:93-96).
- `vote` does not validate vote values. Only `"AGREE"` counts toward consensus
  (server.py:54, 128-131).
- Consensus is a simple majority. `agree > len(NODES) / 2` (server.py:55)
  agrees with the reported `required_votes = len(NODES) // 2 + 1`
  (server.py:183), as `ConsensusIsMajority` proves.

## Model

| member | source | states |
|---|---|---|
| HashLedger.CalculateHash | blockchain.py:29-37 | the digest is that of the block with its stored hash blanked out: only index, timestamp, data and previous hash are hashed |
| HashLedger.HashIgnoresOwnHash | blockchain.py:29-37 | two blocks that differ only in their `hash` field have the same digest |
| HashLedger.SingleBlockChainValid | blockchain.py:68-79 | a one-block chain is always valid (the loop body never runs) |
| HashLedger.AppendValid | blockchain.py:68-79 | a chain with one block appended is valid if and only if the old chain is valid and the new block is linked to the old tail's digest and carries its own |
| HashLedger.EditDetected | blockchain.py:73-77 | if the digest is injective, editing a non-hash field of a non-genesis block of a valid chain, keeping its stored hash, makes the chain invalid |
| HashLedger.HashEditDetected | blockchain.py:76-77 | changing the stored hash of a non-genesis block of a valid chain makes it invalid, with no hypothesis on the digest |
| HashLedger.GenesisEditDetected | blockchain.py:73-74 | if the digest is injective, editing a non-hash field of the genesis block is caught through block 1's link when the chain has two or more blocks |
| HashLedger.GenesisHashUnchecked | blockchain.py:68-79 | the genesis block's stored hash is never checked: changing it leaves validity as it was |
| HashLedger.Blockchain.constructor | blockchain.py:8-17 | a fresh ledger holds exactly one block, the genesis block (index 0, data "Genesis Block", previous hash "0", hash = its digest); the chain is valid and indexed |
| HashLedger.Blockchain.Loaded | blockchain.py:11-13 | a stored chain is taken as it is, with no check |
| HashLedger.Blockchain.CreateGenesisBlock | blockchain.py:19-27 | appends one genesis block at the given time and leaves earlier blocks unchanged |
| HashLedger.Blockchain.GetLastBlock | blockchain.py:40-41 | returns the last block of a non-empty chain |
| HashLedger.Blockchain.CreateBlock | blockchain.py:43-62 | appends exactly one block and returns it; its index is the old length, its previous hash is the old tail's digest, and its hash is its own digest; earlier blocks are unchanged; validity and `chain[i].index == i` are preserved |
| HashLedger.Blockchain.IsChainValid | blockchain.py:68-79 | returns true exactly when every block after the first has a previous hash equal to its predecessor's digest and a hash equal to its own digest |
| VoteServer.CountAgree | server.py:54 | the AGREE count is at most the number of votes; it is 0 exactly when no vote is "AGREE" and equals the number of votes exactly when all are |
| VoteServer.ConsensusReached | server.py:53-55 | `agree > len(NODES)/2`, in true division, holds exactly when twice the AGREE count exceeds the node count |
| VoteServer.RequiredVotes | server.py:183 | `len(NODES)//2 + 1` is the least vote count that is more than half the nodes |
| VoteServer.HasVoted | server.py:125 | the duplicate test holds exactly when the node is among the voters of the pending block |
| VoteServer.NodeId | server.py:159 | the node id is the name, then ':', then the address, with nothing else |
| VoteServer.ConsensusIsMajority | server.py:53-55 | consensus holds exactly when the AGREE count reaches the `len(NODES)//2 + 1` that get_pending_block reports (server.py:183) |
| VoteServer.RequiredVotesMonotonic | server.py:183 | the reported required vote count does not decrease as nodes are added |
| VoteServer.CountAgreeAppend | server.py:128-134 | an appended vote raises the AGREE count by one if its value is "AGREE" and leaves it unchanged otherwise |
| VoteServer.VotesBounded | server.py:121-131 | votes from distinct registered nodes are never more than the registered nodes |
| VoteServer.Server.constructor | server.py:49-51 | the server starts with a fresh one-block ledger, no nodes and no pending block |
| VoteServer.Server.UploadVideo | server.py:83-102 | the pending slot holds the new record with no votes, replacing any earlier pending block and its votes; nodes and chain are unchanged |
| VoteServer.Server.CastVote | server.py:110-148 | a vote is rejected with no change when nothing is pending, when the node is missing or unregistered, or when the node already voted; otherwise the vote is appended with its value unchecked; if the AGREE votes then exceed half the nodes, exactly one block with the pending data is appended and the slot is emptied; otherwise the chain is unchanged and the pending block keeps the new vote list; every voter stays registered and distinct |
| VoteServer.Server.RegisterNode | server.py:150-164 | a missing or empty name is refused with no change; otherwise `name:ip` is added to the nodes, and re-registering leaves the set unchanged |
| VoteServer.Server.GetPendingBlock | server.py:174-185 | reports nothing pending exactly when the slot is empty; otherwise reports the pending block, the node count, `required_votes = nodes//2 + 1` and the fact that the votes never outnumber the nodes |
| PowChain.Zeros | test.py:161 | the mining target is a string of exactly `difficulty` '0' characters |
| PowChain.Slice | test.py:162 | `h[:d]` is a prefix of `h` of length `d`, or all of `h` when it is shorter |
| PowChain.SliceMatchesTarget | test.py:161-162 | the loop test `hash[:d] == '0'*d` holds exactly when the hash has at least `d` characters and begins with `d` zeros |
| PowChain.AdjustConfidence | test2.py:194 | the confidence changes only for a FAKE verdict below 75%, and then by exactly 15 points; it never decreases |
| PowChain.AdjustConfidenceInRange | test2.py:194 | a confidence within 0 to 100% stays within that range after adjustment |
| PowChain.Block.CalculateHash | test.py:149-158 | the digest of index, timestamp, video id, result, previous hash and nonce; its reads clause shows that confidence, validator and the stored hash are outside it (test2.py:160-169 is identical) |
| PowChain.Block.constructor | test.py:138-147 | a new block stores its fields with nonce 0 and a hash equal to its digest |
| PowChain.Block.MineBlock | test.py:160-165 | on exit the hash has `difficulty` leading zeros; the nonce has only increased and is the first one that works; if it moved, the hash is the block's digest; only nonce and hash change (test2.py:171-176 is identical) |
| PowChain.Blockchain.CreateGenesisBlock | test.py:173-174 | the genesis block has index 0, previous hash "0", video "Genesis", result "SYSTEM", confidence 100% and validator "Admin" |
| PowChain.Blockchain.constructor | test.py:168-171 | the chain starts as exactly the genesis block (all fields, the given timestamp and nonce 0), with difficulty 3 and nodes A, B and C, and it passes the audit |
| PowChain.Blockchain.GetLatestBlock | test.py:176-177 | returns the last block |
| PowChain.Blockchain.AppendMined | test.py:190-194 | appends one fresh mined block after the tail: index = tail index + 1, previous hash = tail's stored hash, hash = its digest with the zero prefix; earlier blocks are unchanged; the audit property is preserved |
| PowChain.Blockchain.AddVideoJob | test.py:179-195 | the verdict "ERROR" leaves the chain unchanged; otherwise exactly one mined block is appended, linked to the tail, with the given verdict and confidence and a validator drawn from the node list; the audit property is preserved |
| PowChain.Blockchain.AddVideoJobAdjusted | test2.py:190-205 | as AddVideoJob, except that the stored confidence is raised by 15 points when the verdict is FAKE and the confidence is below 75% |
| PowChain.Blockchain.IsChainValid | test.py:197-206 | returns false exactly when some block after the first has a stale hash or a previous hash that differs from its predecessor's stored hash (test2.py:207-216 is identical) |
| PowChain.Blockchain.OverwriteResult | test.py:229-232 | writing a different `ai_result` into a non-genesis block of an audited chain makes the audit fail, if the digest is injective |
| PowChain.Blockchain.OverwriteConfidence | test.py:149-158 | editing a block's confidence leaves the audit result as it was, because confidence is outside the digest |
| PowChain.Blockchain.OverwriteValidator | test.py:149-158 | editing a block's validator leaves the audit result as it was, because the validator is outside the digest |
| MockClassifier.Lower | app.py:17 | lower-casing keeps the length and maps each character to its lower-case form |
| MockClassifier.LowerIdempotent | app.py:17 | lower-casing twice is the same as lower-casing once |
| MockClassifier.MockAiPredict | app.py:10-37 | a name containing "fake" gives (true, 98.50%) even if it also contains "real"; "real" without "fake" gives (false, 96.20%); with neither keyword, the verdict is fake exactly when the hash is even; the confidence always lies in [80.00, 99.99]% |
| MockClassifier.HashedConfidence | app.py:35 | with neither keyword, the confidence is 80% plus (hash mod 2000) hundredths |
| MockClassifier.SameLoweredSamePrediction | app.py:26-28 | names that lower-case to the same string get the same prediction |
| MockClassifier.CaseInsensitive | app.py:17 | predicting on the lower-cased name gives the same result as on the name itself |
| MockClassifier.LetterCaseIrrelevant | app.py:17 | changing one letter of the name to upper case does not change the prediction |

## Left out

- SHA-256, `json.dumps` and the hex digest are uninterpreted functions. Nothing depends on their actual values.
- PowChain.Block.MineBlock: non-termination is not modelled. The method requires that some nonce produces the zero prefix. The Python loop ends under exactly that condition and runs forever otherwise.
- PowChain.Blockchain.AddVideoJob and PowChain.Blockchain.AddVideoJobAdjusted: they require a working nonce for the new block, for the same reason. They take the verdict, the confidence, the `random.choice` index and the timestamp as inputs.
- `analyze_video` (test.py, test2.py), `ai_detector.py`, `face_utils.py` and `video_utils.py` are not modelled. They wrap OpenCV and neural-network models; their verdict and confidence are inputs here.
- Floating point is not modelled. Confidences are integer hundredths, so `round` and the rounding of `80.0 + k/100.0` are absent. The server's confidence is an opaque integer.
- MockClassifier.Lower: covers the ASCII letters only. Python's Unicode case mapping is not modelled.
- Persistence in `blockchain.py` is not modelled: `save_chain`, the file checks and `json.load`. `Blockchain.Loaded` takes the decoded chain as an argument.
- `json.load` is free to produce an empty chain. Then `get_last_block` and `create_block` raise `IndexError`. The model requires a non-empty chain for them.
- Flask plumbing in `server.py` is not modelled. This covers routing, the 400 for a request without a file (which changes no state), file saving, `secure_filename` and hashing the uploaded bytes. The video hash is an input.
- Request JSON is simplified. A missing, null or otherwise falsy `node` name is `None` in RegisterNode. A truthy non-string name, such as `5` or `true`, is passed as `Some(str(v))`, for example `Some("5")` or `Some("True")`. Python registers it as `"5:<ip>"` or `"True:<ip>"`.
- In CastVote, a node or vote value that is not a string is `None`. A hashable non-string node (a number) is never a registered node, which matches the code, and a non-string vote value is never `"AGREE"`. The model does not keep the stored non-string value itself.
- A list or dict `node` in a vote request is not modelled. Python raises `TypeError` (unhashable) at `node not in NODES` (server.py:121), which is a 500 error with no change of state. A request with no JSON body at all, which raises in Python as well, is not modelled either.
- `get_chain`, `get_nodes` and `home` only read state and are not modelled. The same holds for the commented-out prototype at the top of `server.py`.
- Threading in the Flask server is not modelled; handlers run one at a time.
- `main` and `mock_blockchain_record` of `app.py` are UI and random data. `print`, `time.sleep` and the `__main__` scripts are left out, except the overwrite of `chain[1].ai_result`, which `OverwriteResult` models.
