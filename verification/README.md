# ACE Chain, modelled and proved in Dafny

ACE Chain is a set of deterministic state machines that every validator replays. This project
models the ones whose correctness is a statement about whole runs, and proves those
statements. `dafny verify dfyconfig.toml` checks everything.

**Consensus.** `TendermintState` is the per-node round machine as the engine drives it, with
locks, remembered prevote quorums, buffered votes and one-shot vote flags, over a
stake-weighted `VoteCollector`. Each method is proved to do what the functions of
`TendermintSpec` say. `Network` puts such nodes into a network in which faulty voters sign
what they like and every proposal comes from the adversary. The main theorem is `Agreement`.
Its core is an invariant over the log of all votes ever sent: an honest node that prevotes
against its lock does so on a prevote quorum that was already in the log at that moment. The
proof is by induction over steps and not over rounds, because a proposal may claim a valid
round equal to the locked or even the current one. `NodeProgress` is the other half: a round in
which an acceptable proposal and two thirds of the votes arrive ends in a decision, and
`NetworkProgress` gives, for every block, a run in which every honest node decides it. `NodeRules`
says exactly how a node answers each event: its vote on a proposal, what a quorum makes it do,
what each timeout sends, and that early votes are kept and counted later.

**Spot order book.** `Clob` gives one market as functions. `SpotClob` runs it step by step
with snapshot and rollback. Proved: the trades of an order are a greedy walk over the only
list of the resting orders in price then arrival order; no trade is beyond the limit, and what
is left untraded has nothing within its limit to trade with; every balance and every maker moves
by those trades and nothing else; the book stays uncrossed; free and locked collateral are the net deposits
over every run, and the market's token account covers them. Below it, the price ladder is the
crit-bit tree of the program in its arena of reused nodes, and the queues are the program's
doubly linked lists; `SpotClob` matches, rests, cancels and rolls back over these, and is
proved to do what `Clob` does on a map of queues.

**Constant-product pool.** `SwapEngine` against `Amm`, with the rounding, the fee and the
128-bit products as they are. Value per share never falls, the pool's account covers the
reserves, every operation moves exactly what it reports, a swap pays what was quoted, and no
way of splitting a swap pays more exactly as long as its product fits 128 bits. `AmmNumbers`
gives the quote with its fee in plain numbers and says exactly when each operation succeeds.

**oAsset bridge.** `ReserveBridge` against `Bridges`. The books balance after every step, so
the reserve check never fails. Open withdrawals stay covered exactly as long as wrapped
withdrawals find room and mappings find no open record; without cover one record is paid from
the reserve of another, and the lemmas say when. Each stored record is completed at most once.
`BridgeRules` says exactly when each operation succeeds and what it books, and `Conversion` what
an amount is on another decimal scale. Records are stored in 32-byte chunks and listed in pages;
both are proved complete.

**Smaller cores.** Reward splitting to the last unit, fair ordering of transactions,
proposer choice in exact proportion to stake, and on-chain payment intents: each pays out once,
and over every run only an operation with the right to brings an intent to its next state.

Conventions. A 32-byte identity or hash is a natural number. Integers are unbounded and the
program's widths are written out where they matter. The state tree is a value, so a snapshot
is a copy. Hash functions, signature checks, the clock and the network are parameters; where a
property needs different hash inputs to give different outputs, the model says so. `:-`
returns early with the error on the left.

## Model

| member | source | states |
|---|---|---|
| Agreement.Agreement | ace-consensus/src/tendermint.rs:185-478 | In every run with faulty stake below one third, any two honest nodes that have decided, in any rounds, by precommits or by certificate, have decided the same block |
| Agreement.LockedBlockPrevails | ace-consensus/src/tendermint.rs:208-238 | Once honest stake above one third has precommitted a block in a round, no reachable state has a prevote quorum for another block in that round or a later one |
| Agreement.LockSafety | ace-consensus/src/tendermint.rs:283-296 | The same for every prefix of a log of votes that keeps the voting rules, by induction on its length |
| Agreement.CommitQuorumsAgree | ace-consensus/src/tendermint.rs:321-369 | Two precommit quorums for blocks, in any two rounds of such a log, are for one block |
| Agreement.EvidenceAgrees | ace-node/src/node.rs:5541-5612 | Two commit certificates over such a log name the same block |
| Agreement.OneQuorumPerRound | ace-consensus/src/tendermint.rs:217-222 | A round has a prevote quorum for at most one block, which is why a valid round equal to the lock is harmless |
| Agreement.RunInv | ace-consensus/src/tendermint.rs:185-547 | Every reachable state of the network keeps the voting rules in the log and each honest node's records true of the log |
| Agreement.NextKeeps | ace-consensus/src/tendermint.rs:185-547 | Every step of an honest node or a faulty voter keeps that invariant |
| Agreement.HandleKeeps | ace-consensus/src/engine.rs:271-280 | Every event an honest node may handle keeps it, timeouts and buffered votes included |
| Stake.QuorumsShareHonest | ace-runtime/src/config.rs:254-263 | Two quorums share an honest voter when faulty stake is strictly below one third |
| Stake.ThirdIsTooMuch | ace-runtime/src/config.rs:254-263 | With exactly one third faulty two quorums can share nobody honest |
| NodeRuns.VotesOncePerLap | ace-consensus/src/tendermint.rs:522-547 | For every sequence of events a node sends at most one prevote and one precommit in each round of each lap of its 32-bit round counter |
| NodeRuns.OneVoteExactlyWithinCounter | ace-consensus/src/tendermint.rs:428-449 | One vote of each kind per round holds for all runs of at most n round changes exactly when n fits the counter |
| NodeRuns.SecondLapVotesAgain | ace-consensus/src/tendermint.rs:428-449 | A proposal, a full lap of precommit timeouts and another proposal make a node prevote twice in round zero, for any two blocks |
| NodeRuns.VotesAtMostOnce | ace-consensus/src/tendermint.rs:522-547 | In a run that does not pass the end of the counter there is one of each per round |
| NodeRuns.PrecommitsOnQuorum | ace-consensus/src/tendermint.rs:254-318 | For every sequence of events from any state, a precommit for a block is sent while the node's own collector holds a prevote quorum for it in that round, and that quorum stays on record |
| NodeRuns.LatePrevoteNeverFires | ace-consensus/src/tendermint.rs:306-315 | For every sequence of events the late-prevote branch is never reached, also not while buffered votes are replayed |
| NodeProgress.GoodRoundDecides | ace-consensus/src/tendermint.rs:185-369 | A node that gets a proposal it accepts (its locked block; without a lock any with no claimed quorum or one it saw; against its lock only one it saw quorate in the lock's round or later), then two thirds of the prevotes and of the precommits for it, sends one prevote and one precommit for it and decides it |
| NodeProgress.ProposalAnswer | ace-consensus/src/tendermint.rs:185-251 | The first proposal of its height and round gets exactly one prevote, for the block if the node accepts it in that sense and for nil otherwise |
| NodeRules.LockedBlockDecidesLater | ace-consensus/src/tendermint.rs:208-238 | A node locked on a block by two thirds of prevotes, timed out into the next round and offered it again under whatever claim, decides it with two thirds of the votes there |
| NodeRules.LockCarries | ace-consensus/src/tendermint.rs:283-296 | Two thirds of prevotes without the precommits leave the node in the next round with its lock |
| NodeProgress.PrevotesRun | ace-consensus/src/tendermint.rs:254-318 | It precommits and locks exactly at the prevote that completes two thirds |
| NodeProgress.PrecommitsRun | ace-consensus/src/tendermint.rs:321-369 | It commits exactly at the precommit that completes two thirds |
| NodeRules.PrevoteAnswer | ace-consensus/src/tendermint.rs:254-318 | In the prevote step a prevote is counted, and as soon as some hash has two thirds the node precommits the lowest such hash, locking and recording it if it is a block |
| NodeRules.PrevoteRemembered | ace-consensus/src/tendermint.rs:254-318 | Before it prevoted and after it precommitted it counts the vote and records a quorum for a block, without lock or answer |
| NodeRules.PrecommitAnswer | ace-consensus/src/tendermint.rs:321-369 | A precommit decides a running node exactly when the lowest hash with two thirds is a block |
| NodeRules.DecidedListens | ace-consensus/src/tendermint.rs:254-369 | A decided node takes no prevotes and counts precommits until its wait ends |
| NodeRules.OtherProposalsIgnored | ace-consensus/src/tendermint.rs:185-207 | A proposal of another height or round, in another step or after the first changes nothing |
| NodeRules.OldVotesIgnored | ace-consensus/src/tendermint.rs:254-345 | A vote of another height or an earlier round changes nothing |
| NodeRules.TimerAnswers | ace-consensus/src/engine.rs:271-280 | In the propose step the timer sends a nil prevote, in the prevote step a nil precommit, in the precommit step it opens the next round with locks and records kept, and after a decision it ends the wait |
| NodeRules.NamedTimeouts | ace-consensus/src/tendermint.rs:378-458 | Each timeout acts in its own step only, but the precommit timeout opens the next round from every step of a running node |
| NodeRules.SilentRound | ace-consensus/src/tendermint.rs:378-449 | Three timeouts take a node that hears nothing through a round with two nil votes |
| NodeRules.CertificateAnswer | ace-consensus/src/tendermint.rs:471-478 | A certificate for a block decides a running node of its height in the certificate's round, and nothing else does anything |
| NodeRules.EarlyVoteWaits | ace-consensus/src/tendermint.rs:254-345 | A vote of a later round waits behind those already kept for that round |
| NodeRules.DrainIsDelivery | ace-consensus/src/tendermint.rs:496-519 | Draining is exactly the delivery of the kept votes of the round, in their order; later rounds stay and earlier ones go |
| NodeRules.EarlyPrecommitsDecide | ace-consensus/src/tendermint.rs:496-519 | Two thirds of precommits that arrive a round early decide the block when the node gets there and drains |
| NetworkProgress.DecisionReachable | ace-consensus/src/tendermint.rs:185-369 | For every block and every network with faulty stake below one third there is a run in which every honest node decides that block, so agreement is not agreement about nothing |
| NetworkProgress.AnythingMayHappen | ace-consensus/src/tendermint.rs:185-345 | In every state a faulty voter may sign any vote, and an honest node may get any proposal and any vote that was signed |
| TendermintStates.TendermintState.constructor | ace-consensus/src/tendermint.rs:121-141 | A new node is at round zero of its height, unlocked, with empty collectors |
| TendermintStates.TendermintState.NewHeight | ace-consensus/src/tendermint.rs:149-167 | A new height forgets lock, quorums, buffered votes and decision |
| TendermintStates.TendermintState.NewRoundAt | ace-consensus/src/tendermint.rs:170-180 | A new round keeps the lock and the remembered quorums and clears the rest |
| TendermintStates.TendermintState.Proposal | ace-consensus/src/tendermint.rs:185-251 | In place, what `OnProposal` says, whose vote `ProposalAnswer` gives in full |
| TendermintStates.TendermintState.Prevoted | ace-consensus/src/tendermint.rs:254-318 | What a prevote does: buffer, count, remember the quorum, lock and precommit |
| TendermintStates.TendermintState.Precommitted | ace-consensus/src/tendermint.rs:321-369 | What a precommit does: buffer, count, commit at two thirds for a block |
| TendermintStates.TendermintState.ProposeTimeout | ace-consensus/src/tendermint.rs:378-390 | The propose timeout prevotes nil in the propose step only |
| TendermintStates.TendermintState.PrevoteTimeout | ace-consensus/src/tendermint.rs:400-418 | The prevote timeout precommits nil in the prevote step only |
| TendermintStates.TendermintState.PrecommitTimeout | ace-consensus/src/tendermint.rs:428-449 | The precommit timeout opens the next round unless the node has decided |
| TendermintStates.TendermintState.CommitWaitTimeout | ace-consensus/src/tendermint.rs:453-458 | Waiting after a decision ends in the committed step |
| TendermintStates.TendermintState.Timeout | ace-consensus/src/engine.rs:271-280 | The engine's timer acts by the step the node is in |
| TendermintStates.TendermintState.Certificate | ace-consensus/src/tendermint.rs:471-478 | A certificate for this height decides the block |
| TendermintStates.TendermintState.SendPrevote | ace-consensus/src/tendermint.rs:522-534 | One prevote per round |
| TendermintStates.TendermintState.SendPrecommit | ace-consensus/src/tendermint.rs:537-547 | One precommit per round |
| TendermintStates.TendermintState.Drain | ace-consensus/src/tendermint.rs:496-519 | Buffered votes of the current round are replayed in order and older buffers dropped |
| VoteCollection.CollectReflects | ace-consensus/src/vote.rs:276-307 | After any votes, each voter is in one bucket, that of its first vote; a bucket's stake is the sum of its voters; the equivocators are those who also voted otherwise |
| VoteCollection.FirstVotesDistinct | ace-consensus/src/vote.rs:279-294 | No voter is counted twice |
| VoteCollection.CollectConflicts | ace-consensus/src/vote.rs:279-294 | What is kept about an equivocator is the hash it named first and the last other one |
| Reconcile.CountsExactly | ace-consensus/src/vote.rs:189-231 | A verified vote enters the bucket of its hash, with the canonical stake, exactly when it is for the slot, admitted and its voter's first; every other bucket is as it was |
| Reconcile.AddVoteWellFormed | ace-consensus/src/vote.rs:276-307 | Adding a vote keeps the buckets, first hashes and stakes consistent |
| VoteCollection.CanonicalQuorumUnique | ace-consensus/src/vote.rs:314-335 | Fed with the validators' stakes, whatever the votes, one hash at most has quorum and it is the one reported |
| VoteCollection.QuorumUnique | ace-consensus/src/vote.rs:314-335 | When the collected stake is within the total, at most one hash has quorum, so every way of looking finds the same one |
| VoteCollection.QuorumHash | ace-consensus/src/vote.rs:319-335 | The answer is the least hash with quorum, and none only if no hash has it |
| VoteCollection.CanonicalBounded | ace-consensus/src/vote.rs:296-305 | With canonical stakes no bucket exceeds the total stake |
| VoteCollectors.VoteCollector.constructor | ace-consensus/src/vote.rs:169-178 | A new collector is empty |
| VoteCollectors.VoteCollector.AddVoteInternal | ace-consensus/src/vote.rs:276-307 | A voter's first vote is counted, a repeated one ignored, a conflicting one recorded as equivocation |
| VoteCollectors.VoteCollector.AddVoteRaw | ace-consensus/src/vote.rs:390-402 | A vote counts exactly when its voter has not voted yet |
| VoteCollectors.VoteCollector.AddVoteVerified | ace-consensus/src/vote.rs:189-231 | A vote that is not admitted changes nothing; an admitted one counts with the canonical stake |
| VoteCollectors.VoteCollector.QuorumBlockHash | ace-consensus/src/vote.rs:319-335 | The fast path for one bucket and the sorted search both give the least hash with quorum |
| VoteCollectors.VoteCollector.ReconcileValidatorSet | ace-consensus/src/vote.rs:248-274 | Reconciling keeps exactly the votes the new set admits, with its stakes, whatever order the buckets are walked in |
| Reconcile.AnyOrderReconciles | ace-consensus/src/vote.rs:259-273 | Every enumeration of the buckets leads to the same collector |
| ClobGreedy.PlaceOrderIsGreedy | ace-liquid/src/clob.rs:162-229 | The trades of a successful order are those of a greedy walk over the resting orders of the other side in price then arrival order |
| ClobGreedy.GreedyTrade | ace-liquid/src/clob.rs:302-332 | Trade i is with maker i, at that maker's price, for all of its remainder unless it is the last trade, at most the limit for a buyer and at least the limit for a seller, and never with oneself |
| ClobGreedy.GreedyFills | ace-liquid/src/clob.rs:286-311 | The quantity traded is the smaller of what is asked and what is on offer before the limit or the taker's own order |
| ClobGreedy.PlaceOrderPays | ace-liquid/src/clob.rs:349-391 | Every user's free balance moves by the trades, and the owner's also by what the resting remainder locks |
| ClobGreedy.PlaceOrderRests | ace-liquid/src/clob.rs:189-227 | A good-til-cancelled limit order that did not meet its owner's own order keeps what was not traded; any other keeps nothing |
| ClobLimits.TradesWithinLimit | ace-liquid/src/clob.rs:454-459 | No trade of a limit order is above a buyer's or below a seller's price |
| ClobLimits.UntradedIsBeyondLimit | ace-liquid/src/clob.rs:286-345 | If an order is not traded in full, every level left on the other side is strictly beyond its limit, a market order has emptied that side, or the next order in line is the owner's own |
| ClobLimits.RestsExactly | ace-liquid/src/clob.rs:162-229 | A good-til-cancelled limit order with nothing within its limit is taken exactly when the market is open, it is of whole lots at a positive price on the grid, there are numbers left and its funds can be locked; it then rests whole |
| ClobLimits.OnlyWellPlaced | ace-liquid/src/clob.rs:465-484 | No other order is taken in any case |
| ClobLimits.RefusedOutright | ace-liquid/src/clob.rs:189-216 | A market order that finds nothing, and an order that meets its owner's own first, are refused |
| ClobLimits.StatusTells | ace-liquid/src/clob.rs:189-227 | The order's record says filled, partly filled, open or cancelled exactly as it was traded and rests |
| ClobLimits.MakersAfter | ace-liquid/src/clob.rs:306-343 | Every order that was there has lost exactly what the trades took from it and is marked filled or partly filled accordingly; the others are untouched |
| ClobLimits.NumbersFollow | ace-liquid/src/state.rs:168-196 | The order takes the next identifier and the next place in time, counted from one |
| ClobLimits.DepositExactly | ace-liquid/src/clob.rs:80-104 | A deposit is taken exactly for a positive amount of one of the two assets into an open market, with the tokens there and room for them |
| ClobBook.LadderIsPriorityLine | ace-liquid/src/clob.rs:290-303 | Best level by best level, queue by queue, lists exactly the resting orders by price and then arrival |
| ClobBook.PriorityLineUnique | ace-liquid/src/clob.rs:290-303 | There is only one such list |
| ClobBook.QueuedIffResting | ace-liquid/src/clob.rs:334-343 | An order is in a queue exactly when it has a remainder and the queue is that of its side and price |
| ClobRuns.PlaceOrderKeeps | ace-liquid/src/clob.rs:162-229 | Placing keeps best bid below best ask, queues in arrival order, and orders in their queues |
| ClobRuns.CancelOrderKeeps | ace-liquid/src/clob.rs:248-276 | Cancelling keeps the same |
| ClobRuns.WalkKeeps | ace-liquid/src/clob.rs:278-345 | So does matching; and a limit taker that stops with a remainder and not at its own order faces no level that crosses it |
| ClobMoney.PlaceOrderMoney | ace-liquid/src/clob.rs:278-391 | Placing an order conserves free plus locked collateral of each asset and leaves the token ledger alone |
| ClobMoney.CancelRefunds | ace-liquid/src/clob.rs:248-276 | Cancelling gives the owner exactly what the order still locked and nobody else anything |
| ClobMoney.DepositMoney | ace-liquid/src/clob.rs:80-104 | A deposit adds its amount to the collateral of its asset and of no other |
| ClobMoney.WithdrawMoney | ace-liquid/src/clob.rs:107-130 | A withdrawal takes its amount out |
| ClobCustody.RunKeeps | ace-liquid/src/clob.rs:80-276 | The book is well formed and uncrossed after every run |
| ClobCustody.RunConserves | ace-liquid/src/clob.rs:80-419 | Over every run free balances plus locked remainders change by the net deposits, per asset |
| ClobCustody.RunSlack | ace-liquid/src/clob.rs:80-130 | Over every run, whoever acts, what the market's account holds beyond what the market owes changes by exactly its own deposits, withdrawals and outside transfers, so it covers what is owed exactly while these have not used it up |
| ClobCustody.RunBacked | ace-liquid/src/clob.rs:80-130 | So the market's account covers every claim after every run in which it neither deposits nor sends tokens away |
| ClobCustody.DepositBacks | ace-liquid/src/clob.rs:97-99 | A deposit backs its own credit exactly when the depositor is not the market's account |
| ClobCustody.CancelExactlyOwn | ace-liquid/src/clob.rs:248-276 | In a backed market a cancel succeeds exactly for the owner of an order with a remainder |
| ClobCustody.WithdrawExactlyFree | ace-liquid/src/clob.rs:107-130 | In a backed market a withdrawal succeeds exactly for a positive amount within the free balance that fits the user's ledger balance |
| ClobGrid.RunOnGrid | ace-liquid/src/clob.rs:465-484 | After every run each resting order has whole lots left at a positive price on the tick grid |
| ClobGrid.PlaceOrderOnGrid | ace-liquid/src/clob.rs:306-332 | Every trade is of whole lots at a price on the grid |
| SpotMarkets.SpotClob.constructor | ace-liquid/src/clob.rs:28-46 | A new market has no orders and no collateral |
| SpotMarkets.SpotClob.CreditBalance | ace-liquid/src/state.rs:127-144 | Adds to one balance or fails on overflow |
| SpotMarkets.SpotClob.DebitBalance | ace-liquid/src/state.rs:146-164 | Takes from one balance or fails with what is there |
| SpotMarkets.SpotClob.MoveTokens | ace-liquid/src/clob.rs:429-445 | Moves tokens between ledger accounts, or fails and moves nothing |
| SpotMarkets.SpotClob.Deposit | ace-liquid/src/clob.rs:80-104 | Moves tokens in and credits them, or leaves the state as it was |
| SpotMarkets.SpotClob.Withdraw | ace-liquid/src/clob.rs:107-130 | Debits and moves tokens out, or leaves the state as it was |
| SpotMarkets.SpotClob.SettleFill | ace-liquid/src/clob.rs:349-373 | The taker pays from its free balance, and taker and maker receive the other side |
| SpotMarkets.SpotClob.FillMaker | ace-liquid/src/clob.rs:306-343 | Settles one fill, reduces the maker and takes it out of its queue when it is filled |
| SpotMarkets.SpotClob.MatchFront | ace-liquid/src/clob.rs:286-344 | One turn over the linked store, from best price to front order to fill, is one step of the walk over the line of makers |
| SpotMarkets.SpotClob.MatchTaker | ace-liquid/src/clob.rs:278-345 | The loop ends, because the taker's remainder falls, and is the walk over the line of makers |
| SpotMarkets.SpotClob.TakeNumbers | ace-liquid/src/state.rs:168-196 | Order and arrival numbers start at one and grow by one |
| SpotMarkets.SpotClob.LockRestingFunds | ace-liquid/src/clob.rs:376-390 | Locks quantity times price in quote for a buy, quantity in base for a sell |
| SpotMarkets.SpotClob.RefundRestingFunds | ace-liquid/src/clob.rs:393-411 | Gives the same back |
| SpotMarkets.SpotClob.FinishTaker | ace-liquid/src/clob.rs:189-228 | Rests, rejects or closes what is left of the taker |
| SpotMarkets.SpotClob.PlaceOrder | ace-liquid/src/clob.rs:146-160 | Over the linked store an order does what `PlaceOrder` on the map of queues says, with its trades, limits and refusals as stated above, and a failed one leaves market and store as they were |
| SpotMarkets.SpotClob.CancelOrder | ace-liquid/src/clob.rs:231-246 | The same for a cancel |
| CritBits.LeftmostIsLeast | ace-liquid/src/critbit.rs:145-148 | The leftmost leaf of a well-formed crit-bit tree holds the smallest price |
| CritBits.RightmostIsGreatest | ace-liquid/src/critbit.rs:150-153 | The rightmost leaf holds the largest |
| CritBits.DescendFinds | ace-liquid/src/critbit.rs:44-54 | The walk along the bits of a price ends at that price exactly when the tree has it |
| CritBits.InsertWellFormed | ace-liquid/src/critbit.rs:56-90 | A new fork at the highest differing bit keeps the tree well formed |
| CritBits.InsertKeys | ace-liquid/src/critbit.rs:34-91 | And adds exactly the new price |
| CritBits.RemoveOk | ace-liquid/src/critbit.rs:94-143 | Replacing a leaf's parent by its sibling keeps the tree well formed and removes exactly that price |
| CritBits.TopDiff | ace-liquid/src/critbit.rs:273-276 | The bit found is the highest in which the two prices differ |
| LadderArenas.SpliceHolds | ace-liquid/src/critbit.rs:58-90 | Two new nodes and one changed link lay out the tree after the insertion |
| LadderArenas.CutHolds | ace-liquid/src/critbit.rs:125-142 | One changed link lays out the tree after the removal |
| PriceLadders.PriceLadder.Insert | ace-liquid/src/critbit.rs:34-91 | Inserting adds the price to its ladder, leaves the other ladder of the shared arena alone and uses no node twice |
| PriceLadders.PriceLadder.Remove | ace-liquid/src/critbit.rs:94-143 | Removing takes the price out and returns its two nodes to the free list |
| PriceLadders.PriceLadder.Extreme | ace-liquid/src/critbit.rs:155-167 | Finds the smallest or largest price, or that there is none |
| PriceLadders.PriceLadder.Alloc | ace-liquid/src/critbit.rs:196-209 | Gives a node nobody uses, a freed one first |
| PriceLadders.PriceLadder.Free | ace-liquid/src/critbit.rs:211-215 | Puts a node at the head of the free list |
| PriceLadders.PriceLadder.SetLink | ace-liquid/src/critbit.rs:177-192 | Redirects the root or one child |
| OrderLinks.LinkedSpells | ace-liquid/src/state.rs:280-300 | Linking at the tail appends to the queue the links spell out |
| OrderLinks.UnlinkedSpells | ace-liquid/src/state.rs:312-342 | Joining the neighbours takes one order out of the queue, wherever it stands |
| OrderLinks.UnlinkedElsewhere | ace-liquid/src/state.rs:312-342 | Other levels keep their queues |
| BookStores.BookStore.BestPrice | ace-liquid/src/state.rs:200-209 | The highest bid or lowest ask among the levels that have orders |
| BookStores.BookStore.FrontOrderAt | ace-liquid/src/state.rs:302-310 | The first order of a level, or none |
| BookStores.BookStore.Enqueue | ace-liquid/src/state.rs:280-300 | Queue and ladder together become the levels with the order appended |
| BookStores.BookStore.RemoveOrder | ace-liquid/src/state.rs:312-342 | Queue and ladder together become the levels without the order; an empty level disappears |
| AmmRuns.ShareValueNeverFalls | ace-defi/src/swap.rs:147-491 | In every run in which shares exist throughout, whoever acts and whatever the pool's account holds, the product of the reserves per squared share never falls |
| AmmRuns.RunPoolOk | ace-defi/src/swap.rs:147-491 | After every run, whoever acts, shares exist exactly while both reserves are positive, within their counters |
| AmmRuns.RunKeeps | ace-defi/src/swap.rs:147-491 | The pool's account always covers the reserves, and shares exist exactly while both reserves are positive, so the guard for empty reserves never fires |
| AmmRuns.PoolAsTraderUncovers | ace-defi/src/swap.rs:433-478 | That cover fails for a swap by the pool's own account, which moves reserves and no tokens |
| AmmRuns.NoFreeRoundTrip | ace-defi/src/swap.rs:365-491 | However traders swap, if one reserve is not above where it was the other is not below |
| AmmRuns.AddKeeps | ace-defi/src/swap.rs:147-273 | Adding keeps the pool sound and dilutes nobody |
| AmmRuns.RemoveKeeps | ace-defi/src/swap.rs:279-358 | Removing pays at most the proportional share of both reserves, dilutes nobody, and a failure changes nothing |
| AmmRuns.SwapKeeps | ace-defi/src/swap.rs:365-491 | A swap never lowers the product of the reserves, and a failure changes nothing |
| AmmRuns.SwapPaysQuote | ace-defi/src/swap.rs:501-535 | A successful swap pays exactly the quote, and less than the whole reserve |
| AmmRuns.FailedAddIsClean | ace-defi/src/swap.rs:189-249 | A failed addition leaves everything as it was exactly when the transfers failed or the shares were positive and fitted 64 bits |
| AmmRuns.FailedAddKeepsTokens | ace-defi/src/swap.rs:230-236 | A deposit too small for one share fails with its tokens left in the pool |
| AmmRuns.GrownBacking | ace-defi/src/swap.rs:251-262 | Once tokens have moved and shares are minted, the checked additions to the pool's counters cannot fail |
| AmmMoves.SwapMoves | ace-defi/src/swap.rs:433-478 | A successful swap moves exactly the input from the sender to the pool and the output back |
| AmmMoves.AddMoves | ace-defi/src/swap.rs:167-249 | A successful addition takes the named amount of each named token, in whichever order they are named, and gives the minted shares |
| AmmMoves.RemoveMoves | ace-defi/src/swap.rs:305-356 | A successful removal takes the shares and pays the rounded-down part of each reserve, something of both |
| AmmMoves.MintedIsGreatest | ace-defi/src/swap.rs:226-228 | The shares minted are the most that take no more than their part of either deposit |
| AmmMath.SwapKeepsProduct | ace-defi/src/swap.rs:408-412 | The payout is below the output reserve and the product does not fall, wrap-around of the 128-bit product included |
| AmmMath.NoSplitPaysMoreIffFits | ace-defi/src/swap.rs:408-412 | For all 64-bit reserves and amounts, no way of splitting a swap pays more than the whole exactly when the product of the whole fits 128 bits |
| AmmMath.FittingPaysMore | ace-defi/src/swap.rs:408-412 | Whatever amount wraps, the largest that does not is smaller and pays more |
| AmmMath.SplitPaysNoMore | ace-defi/src/swap.rs:408-412 | Any sequence of successive swaps, wrapped or not, pays in total at most the full payout of the sum |
| AmmMath.PaysInFull | ace-defi/src/swap.rs:408-412 | One swap pays its full payout exactly when its product fits 128 bits, and otherwise less |
| AmmMath.TwoSwapsPayNoMore | ace-defi/src/swap.rs:408-412 | A swap and the full payout of a second are at most the full payout of both |
| AmmMath.WrappedSwapPaysLess | ace-defi/src/swap.rs:408-412 | When the product wraps around, a small part can pay more than the whole |
| AmmMath.Isqrt | ace-defi/src/swap.rs:543-554 | The loop ends with the integer square root |
| AmmNumbers.QuoteInNumbers | ace-defi/src/swap.rs:501-535 | With reserves ri and ro the quote for x is o exactly when o (1000 ri + 997 x) <= 997 x ro < (o + 1) (1000 ri + 997 x), for the two tokens of the pool in either direction and a product that fits 128 bits |
| AmmNumbers.SwapExactly | ace-defi/src/swap.rs:365-491 | A swap pays o exactly when o is that quote, not nothing and not below the limit, and the tokens are there and fit |
| AmmNumbers.AddExactly | ace-defi/src/swap.rs:147-273 | Liquidity is added for n shares exactly when both tokens are there and fit, n is the number due and not nothing, and the shares fit |
| AmmNumbers.FirstShares | ace-defi/src/swap.rs:215-220 | The first deposit gets the integer square root of the product of its amounts |
| AmmNumbers.RemoveExactly | ace-defi/src/swap.rs:279-358 | Shares pay a and b exactly when these are their rounded-down parts of the reserves, neither is nothing, the provider has the shares and the tokens fit |
| SwapEngines.SwapEngine.AddLiquidity | ace-defi/src/swap.rs:147-273 | Adding liquidity, with the amounts put into pool order and each failure as the program leaves it |
| SwapEngines.SwapEngine.SharesFor | ace-defi/src/swap.rs:215-229 | Shares are the root of the product for the first deposit, else the smaller proportional share |
| SwapEngines.SwapEngine.RecordDeposit | ace-defi/src/swap.rs:251-262 | The counters grow one after the other, stopping at the first that does not fit |
| SwapEngines.SwapEngine.RemoveLiquidity | ace-defi/src/swap.rs:279-358 | Removing liquidity: both proportional amounts or nothing |
| SwapEngines.SwapEngine.Swap | ace-defi/src/swap.rs:365-491 | In place, what `Swap` says, whose payments `SwapExactly` gives in numbers: checks, both transfers or neither, then the reserves |
| SwapEngines.SwapEngine.Quote | ace-defi/src/swap.rs:501-535 | The quote that `QuoteInNumbers` gives in numbers, without changing anything |
| Tokens.TransferEffect | ace-n-vm/src/token_runtime.rs:199-264 | A transfer moves exactly its amount between two different owners and keeps the supply |
| Tokens.TokenRuntime.TransferBetweenOwners | ace-n-vm/src/token_runtime.rs:199-264 | A transfer, or an error that changes nothing |
| Tokens.TokenRuntime.MintToOwner | ace-n-vm/src/token_runtime.rs:145-197 | Minting raises supply and balance, within 64 bits |
| BridgeRuns.RunBooks | ace-defi/src/reserve.rs:99-288 | After every run, whoever acts, each position adds up, each canonical asset's backing and supply are the sums over its positions, and the reserve check passes for every asset |
| BridgeRuns.RunCirculationIsBacked | ace-defi/src/reserve.rs:99-288 | After every run in which nobody spends what was burnt, all of a canonical token that circulates is backed |
| BridgeBooks.InvariantHolds | ace-defi/src/reserve.rs:266-288 | The reserve check passes in every state whose books balance |
| BridgeBooks.CirculationIsBacked | ace-defi/src/withdraw.rs:185-193 | Every canonical token outside the authority's account is backed by a position |
| BridgeExamples.SpentBurnIsUnbacked | ace-defi/src/withdraw.rs:178-193 | If the authority gave back what was burnt, more would circulate than is backed |
| BridgeRuns.ProcessDepositBooks | ace-defi/src/deposit.rs:90-164 | A deposit keeps the books |
| BridgeRuns.RequestWithdrawalBooks | ace-defi/src/withdraw.rs:131-218 | A withdrawal request keeps the books |
| BridgeRuns.CompleteBooks | ace-defi/src/wire.rs:362-394 | A completion keeps the books |
| BridgeBooks.RegisterBooks | ace-defi/src/canonical.rs:74-109 | Registering a canonical asset keeps the books |
| BridgeBooks.MapBooks | ace-defi/src/canonical.rs:130-175 | Mapping an external asset keeps the books |
| BridgeBooks.MapTokens | ace-defi/src/canonical.rs:148-158 | The wrapped mint it makes leaves the canonical tokens as they are |
| BridgeCoverage.RunCovered | ace-defi/src/wire.rs:318-394 | What is pending covers all open records in every state of a run exactly when each wrapped withdrawal of a mapped asset finds room and no asset is mapped while a record of it is open |
| BridgeCoverage.WrappedCovered | ace-defi/src/withdraw.rs:25-91 | A wrapped withdrawal keeps the cover exactly when what is pending for its asset has room for it |
| BridgeCoverage.MapCovered | ace-defi/src/canonical.rs:130-175 | Mapping an asset keeps the cover exactly when none of its records is open |
| BridgeRules.DepositExactly | ace-defi/src/deposit.rs:90-164 | With balanced books a deposit is credited exactly when it is verified, new, within limits and of a mapping that mints into an active asset, converts, and fits every counter |
| BridgeRules.DepositBooked | ace-defi/src/deposit.rs:127-152 | It is booked to its asset's position and supply and marked as processed |
| BridgeRules.RequestExactly | ace-defi/src/withdraw.rs:131-193 | With balanced books a request is taken exactly when its asset is active, mapped to it and open for withdrawals, it is within limits, converts, and sender and reserve hold the amount |
| BridgeRules.RequestStored | ace-defi/src/withdraw.rs:165-212 | It stores an open record of the converted amount for its sender and destination and moves the amount from available to pending |
| BridgeRules.WrappedExactly | ace-defi/src/withdraw.rs:25-91 | A wrapped withdrawal is taken exactly when its token exists and the sender holds it; it burns it and stores an open record, and that is all |
| BridgeRules.CompletionStored | ace-defi/src/wire.rs:362-394 | A completion closes its record, marks it, and takes its converted amount out of what is pending |
| BridgeRules.RegisterExactly | ace-defi/src/canonical.rs:74-109 | An asset is registered exactly once, with at most eighteen decimals and a new mint |
| BridgeRules.MapExactly | ace-defi/src/canonical.rs:130-175 | An external asset is mapped exactly once, to an active asset whose decimals are recorded beside its own |
| BridgeRules.MintExactly | ace-n-vm/src/token_runtime.rs:145-197 | Minting succeeds exactly when the mint exists and supply and balance fit |
| BridgeRules.TransferExactly | ace-n-vm/src/token_runtime.rs:199-264 | A transfer succeeds exactly when the mint exists, the sender has the amount and it fits the other owner |
| BridgeExamples.WrappedUncovers | ace-defi/src/withdraw.rs:25-91 | From an empty bridge, registering, mapping and one wrapped withdrawal end without cover |
| BridgeCoverage.CompletionExactly | ace-defi/src/wire.rs:362-394 | In every state with balanced books a completion succeeds exactly when it is verified, names an open record with its asset, amount and destination, converts, and is within what is pending |
| BridgeCoverage.CompletionSucceeds | ace-defi/src/wire.rs:362-394 | Under cover it succeeds exactly when it is verified and matches an open record |
| BridgeCoverage.EachRecordOnce | ace-defi/src/wire.rs:318-394 | Over every run, the records stored under an identifier are as many as were completed, were replaced while open, or are still open |
| BridgeCoverage.StaysClosed | ace-defi/src/wire.rs:318-335 | A completed record stays completed in a step exactly when no new record is stored under its identifier |
| BridgeCoverage.CompletesOnce | ace-defi/src/wire.rs:270-275 | No record is completed twice while its identifier is not used for a new one |
| BridgeCoverage.ReusedIdCompletesAgain | ace-defi/src/wire.rs:318-335 | A request under a completed identifier opens it again and it can be completed again |
| BridgeExamples.IdentifierCompletesTwice | ace-defi/src/wire.rs:318-335 | From an empty bridge, one run completes the same identifier twice |
| BridgeCoverage.RequestReservesEnough | ace-defi/src/withdraw.rs:165-184 | A completion finalizes at most what the request reserved, and something |
| BridgeCoverage.UncoveredWaits | ace-defi/src/wire.rs:362-394 | An open record that what is pending does not pay for waits until a request of its asset reserves enough |
| BridgeCoverage.UncoveredTakesReserve | ace-defi/src/wire.rs:362-394 | It is then paid from that request's reserve, and the request can be completed afterwards exactly if both fit |
| BridgeMoves.DepositMints | ace-defi/src/deposit.rs:127-152 | A deposit mints the converted amount to its recipient only: the amount with a zero more per decimal more, or the largest number that with a zero more per decimal less is within it |
| BridgeMoves.RequestBurns | ace-defi/src/withdraw.rs:178-193 | A request moves exactly its amount from the sender to the authority |
| BridgeMoves.DepositCountsOnce | ace-defi/src/deposit.rs:101-107 | No deposit is credited twice, whatever happens in between |
| Conversion.ConvertsBack | ace-defi/src/canonical.rs:231-261 | What converts converts back, to the amount less dust below one unit of the coarser scale; `ConvertsInTens` says what the amounts are |
| Conversion.OneDecimal | ace-defi/src/canonical.rs:231-261 | One decimal more is ten times the number if that fits, one less a tenth of it rounded down if that is not nothing |
| Conversion.ConvertsInTens | ace-defi/src/canonical.rs:231-261 | A finer scale adds one zero per decimal, a coarser one gives the largest number that with its zeros stays within the amount |
| Conversion.ConvertsExactly | ace-defi/src/canonical.rs:231-261 | An amount converts exactly when it is positive, the scales have at most eighteen decimals, its zeros fit 64 bits and it makes one unit of a coarser scale |
| Conversion.OverAnotherScale | ace-defi/src/canonical.rs:231-261 | Converting over a scale in between gives the same amount |
| ReserveBridges.ReserveBridge.RecordDeposit | ace-defi/src/reserve.rs:99-132 | Deposited and available grow, and so does the backing |
| ReserveBridges.ReserveBridge.IncreaseReserveTotal | ace-defi/src/reserve.rs:306-323 | The backing grows or the addition overflows |
| ReserveBridges.ReserveBridge.ReserveWithdrawal | ace-defi/src/reserve.rs:134-162 | Available becomes pending |
| ReserveBridges.ReserveBridge.FinalizeWithdrawal | ace-defi/src/reserve.rs:164-187 | Pending becomes withdrawn and the backing shrinks |
| ReserveBridges.ReserveBridge.IncreaseSupply | ace-defi/src/reserve.rs:221-242 | Minted and active supply grow |
| ReserveBridges.ReserveBridge.DecreaseSupply | ace-defi/src/reserve.rs:244-264 | Active supply becomes burnt |
| ReserveBridges.ReserveBridge.ProcessDeposit | ace-defi/src/deposit.rs:75-88 | A deposit takes effect as a whole or not at all |
| ReserveBridges.ReserveBridge.IndexWithdrawalRecord | ace-defi/src/wire.rs:318-335 | A record is listed once and stored under its identifier |
| ReserveBridges.ReserveBridge.RequestWithdrawal | ace-defi/src/withdraw.rs:99-128 | A request takes effect as a whole or not at all |
| ReserveBridges.ReserveBridge.CompleteIndexedWithdrawal | ace-defi/src/wire.rs:348-360 | A completion takes effect as a whole or not at all |
| WithdrawalPages.PagesAreComplete | ace-defi/src/wire.rs:416-440 | Whatever the page size, the pages from the start together hold exactly the open withdrawals, each once, as does the whole list |
| WithdrawalPages.PagedIsOpen | ace-defi/src/wire.rs:416-440 | Paging ends, and its pages in order are the open records of the list |
| WithdrawalPages.PageSize | ace-defi/src/wire.rs:416-440 | A page holds as many as asked for, from one to a thousand, unless it is the last, and names the length of the list |
| WithdrawalPages.RunIndexOk | ace-defi/src/wire.rs:318-335 | After every run the list names every stored record exactly once |
| WithdrawalPages.ListPendingPage | ace-defi/src/wire.rs:416-440 | The loop over the list gives the page |
| WithdrawalPages.ListPending | ace-defi/src/wire.rs:396-414 | The open records, sorted by identifier |
| ChunkStores.ReadsBack | ace-defi/src/canonical.rs:263-316 | A record reads back as written, whatever was stored under its key before; an empty one reads as missing |
| ChunkStores.WrittenLayout | ace-defi/src/canonical.rs:263-287 | Byte 32 i + j of a record is byte j of its slot i, the last slot is filled with zeros, and the counters hold the number of slots and the length |
| ChunkStores.EightBytes | ace-defi/src/canonical.rs:343-352 | The eight bytes of a number are its digits to base 256, least significant first |
| ChunkStores.OthersUndisturbed | ace-defi/src/canonical.rs:263-287 | Writing one key leaves what is read under every other |
| ChunkStores.ChunkStore.PutRecord | ace-defi/src/canonical.rs:263-287 | The loop writes the counters and every chunk and no other key |
| ChunkStores.ChunkStore.GetRecord | ace-defi/src/canonical.rs:289-316 | The loop joins the chunks and cuts them at the stored length |
| ChunkStores.NumberReadsBack | ace-defi/src/canonical.rs:343-352 | A 64-bit number stored little-endian reads back |
| RewardEngines.Distribute | ace-consensus/src/rewards.rs:207-266 | The rewards paid sum exactly to the total reward |
| RewardEngines.DistributeEqual | ace-consensus/src/rewards.rs:269-282 | Everyone gets the even share, and the odd units go to the validators next in the rotation |
| RewardEngines.DistributeWeighted | ace-consensus/src/rewards.rs:284-310 | Everyone gets the rounded-down weighted share, and the odd units go round; no weight means even shares; a saturating sum of weights included |
| RewardEngines.PoolsAddUp | ace-consensus/src/rewards.rs:223-228 | The three pools make up the total, also where a product saturates |
| RewardEngines.PoolsInNumbers | ace-consensus/src/rewards.rs:223-228 | The base pool is 75 and the performance pool 17 hundredths of the total, rounded down, and the age pool the rest |
| RewardEngines.WeightsInNumbers | ace-consensus/src/rewards.rs:234-259 | A performance weight counts between 8500 and 11500, an age weight as it is |
| RewardEngines.ShareInNumbers | ace-consensus/src/rewards.rs:207-310 | Each validator gets the even part of the base pool and its weighted parts of the others, rounded down, and at most one odd unit from each |
| RewardEngines.OddUnits | ace-consensus/src/rewards.rs:275-309 | Odd unit j goes to the validator j places after the one whose turn it is |
| RewardEngines.EpochRewardInNumbers | ace-consensus/src/rewards.rs:188-204 | The pool of an epoch in base units: a hundred billion per validator up to a thousand, halved every 1461 epochs, within a supply of 10^18 |
| RewardEngines.EpochRewardExactly | ace-consensus/src/rewards.rs:188-204 | Below the cap the pool is the target reward of each validator up to the warm-up target, halved once per interval and rounded down, and nothing after twenty halvings |
| RewardEngines.IssuanceBounded | ace-consensus/src/rewards.rs:188-204 | However many validators each epoch has, issuance never passes the supply cap and ends after twenty halvings |
| Rewards.WeightedSharesSum | ace-consensus/src/rewards.rs:284-310 | Weighted shares with their odd units sum to the amount; where the weights do not fit 64 bits, to the amount or the rounded-down shares, whichever is more |
| Rewards.SaturatedWeightsOverpay | ace-consensus/src/rewards.rs:288-300 | Two weights of the largest size share out twice the amount |
| Rewards.EqualSharesSum | ace-consensus/src/rewards.rs:269-282 | Even shares with their odd units sum to the amount |
| Rewards.AllExtras | ace-consensus/src/rewards.rs:275-281 | The rotated odd units go to that many different validators |
| Rewards.FloorsRemainder | ace-consensus/src/rewards.rs:294-305 | The weighted remainder is less than the number of validators |
| FairOrders.FairIsPermutation | ace-consensus/src/mev_ace.rs:279-305 | The fair order holds the same transactions |
| FairOrders.FairLayout | ace-consensus/src/mev_ace.rs:279-305 | The block is the lanes one after the other in the order the shuffle gives for the identities in ascending order, each with its transactions' hashes |
| FairOrders.FairKeepsLanes | ace-consensus/src/mev_ace.rs:291-304 | Each identity's transactions keep their order |
| FairOrders.FairIgnoresInterleaving | ace-consensus/src/mev_ace.rs:319-339 | The result depends only on the lanes, not on how they were interleaved |
| FairOrders.FairIsStable | ace-consensus/src/mev_ace.rs:308-317 | Ordering again changes nothing, so every fair order is accepted as fairly ordered |
| FairOrders.FairLeavesNoChoice | ace-consensus/src/mev_ace.rs:308-317 | Of all orders with the same lanes only one list of hashes is accepted |
| FairOrders.FairOrderTransactions | ace-consensus/src/mev_ace.rs:279-305 | The loops over lanes and permutation build that order |
| LeaderSchedules.ChosenInProportion | ace-consensus/src/leader_schedule.rs:107-137 | Of the accepted hash values exactly threshold / total times its stake choose a member |
| LeaderSchedules.WalkTo | ace-consensus/src/leader_schedule.rs:129-143 | Below the total the stake walk stops on the member whose interval holds the target, so the fallback is never used |
| LeaderSchedules.FallsOnOne | ace-consensus/src/leader_schedule.rs:129-137 | A target falls on one member only |
| LeaderSchedules.FallsInTurn | ace-consensus/src/leader_schedule.rs:129-137 | The first member takes the targets below its stake and the others, in order, what is above it |
| LeaderSchedules.ThresholdInNumbers | ace-consensus/src/leader_schedule.rs:107-127 | The accepted values are whole cycles of the total, and fewer values than the total are drawn again |
| LeaderSchedules.ProposerFor | ace-consensus/src/leader_schedule.rs:89-144 | The proposer is the member the first accepted value falls on; none without stake |
| ValidatorSets.ValidatorSet.constructor | ace-consensus/src/validator_set.rs:57-69 | Members with stake, sorted by identity, and their exact total |
| ValidatorSets.ValidatorSet.AddValidator | ace-consensus/src/validator_set.rs:140-168 | A member joins exactly when it has stake and a new identity and index, the error says which is missing, and the total stays exact |
| ValidatorSets.ValidatorSet.RemoveValidator | ace-consensus/src/validator_set.rs:171-179 | The member leaves and the total stays exact |
| ValidatorSets.ValidatorSet.UpdateStake | ace-consensus/src/validator_set.rs:185-201 | The stake changes, or the member leaves, and the total stays exact |
| ValidatorSets.SortByIdOk | ace-consensus/src/validator_set.rs:62-63 | Sorting keeps the members and their total |
| ValidatorSets.JoinsExactly | ace-consensus/src/validator_set.rs:140-158 | A member may join exactly when it has stake and no member has its identity or index |
| ValidatorSets.EligibleExactly | ace-consensus/src/validator_set.rs:57-63 | The set starts with every member that has stake, as often as it was given |
| ValidatorSets.RestakedExactly | ace-consensus/src/validator_set.rs:185-201 | A new stake replaces the old one, no stake takes the member out, and the others stay |
| IntentRuns.ClosedForGood | ace-hfi-pay/src/onchain.rs:657-1124 | A claimed or refunded intent never changes again and no operation about it succeeds |
| IntentRuns.RunIntentsOk | ace-hfi-pay/src/onchain.rs:425-1124 | After every run a closed intent has paid exactly its amount and an open one nothing |
| IntentRuns.RunEscrowed | ace-hfi-pay/src/onchain.rs:739-745 | Funded and expired intents stay fully funded when nobody signs for a derived address |
| IntentRuns.RunSupply | ace-hfi-pay/src/onchain.rs:280-310 | Every run changes the native supply by exactly what its successful operations pay from an account to itself |
| IntentRuns.RunConserves | ace-hfi-pay/src/onchain.rs:280-310 | So a run conserves the supply exactly when no successful operation does that |
| IntentRuns.PayingOneselfDoubles | ace-hfi-pay/src/onchain.rs:520-524 | A registered recipient who pays themselves doubles their balance |
| IntentRuns.TransferConserves | ace-hfi-pay/src/onchain.rs:280-310 | A transfer conserves the supply exactly when its ends differ or nothing moves |
| IntentRuns.PayOutMoves | ace-hfi-pay/src/onchain.rs:1057-1078 | A payout moves exactly the amount from the deposit to the destination; a deposit that is its own destination gains it |
| IntentRuns.TouchesOne | ace-hfi-pay/src/onchain.rs:425-1124 | A successful operation writes its own intent only, and never a closed one |
| IntentTimes.ClaimOrRefund | ace-hfi-pay/src/onchain.rs:832-1012 | After any run of blocks in order, refunds come after the expiry of an intent and claims not after it |
| IntentRules.BroughtByRight | ace-hfi-pay/src/onchain.rs:657-1124 | Over every run, an intent that comes to be funded, expired, claimed or refunded was brought there by an operation with the right to: claimed only by a claim bound to it in time, refunded only by its authorizer or a good authorization after expiry |
| IntentRules.ClaimExactly | ace-hfi-pay/src/onchain.rs:961-1124 | A claim succeeds exactly for a funded intent that has not expired, by its relay where it names one, with a commitment that matches the binding, a destination and a salt, and a payout that fits; it is then stored as claimed by that destination |
| IntentRules.RefundExactly | ace-hfi-pay/src/onchain.rs:814-959 | A refund succeeds exactly with destination and authorizer stored, by the authorizer for an expired intent, or with a good authorization and the next refund number for one past its expiry |
| IntentRules.FundExactly | ace-hfi-pay/src/onchain.rs:657-768 | Funding succeeds exactly for a created intent and its amount, on a transfer of that amount by the sender to the deposit, by the refund authorizer if there is one, with the money there |
| IntentRules.ExpireExactly | ace-hfi-pay/src/onchain.rs:770-812 | An intent expires exactly when it is funded and past its expiry |
| IntentRules.CreateStoresExactly | ace-hfi-pay/src/onchain.rs:425-655 | An intent for an unregistered recipient is stored exactly when it is new, of a positive amount, expires within the window, and names the derived deposit and both or neither of the refund fields; all its fields are given |
| IntentRules.CreatePaysExactly | ace-hfi-pay/src/onchain.rs:480-560 | A registered recipient is paid exactly when the intent is new and native and the sender has the amount; the intent is stored as claimed |
| IntentRules.NonceExactly | ace-hfi-pay/src/onchain.rs:312-334 | A nonce is taken exactly when it is the account's next and there is another after it |
| IntentRules.ClaimPays | ace-hfi-pay/src/onchain.rs:1057-1078 | A claim moves exactly the amount from the deposit to the destination and no other balance |
| IntentRules.RefundPays | ace-hfi-pay/src/onchain.rs:905-940 | So does a refund to the stored destination |
| IntentCodec.IntentReadsBack | ace-hfi-pay/src/onchain.rs:96-255 | The 287-byte encoding of an intent decodes to that intent |
| IntentCodec.IntentLayout | ace-hfi-pay/src/onchain.rs:96-153 | Each field stands at its place in the 287 bytes, identities as they are, numbers little-endian, chain and status by their tags |
| IntentCodec.ReadsExactly | ace-hfi-pay/src/onchain.rs:155-255 | Bytes are read as an intent exactly when there are 287, the version is one and both tags are known |
| IntentCodec.OptionLayout | ace-hfi-pay/src/onchain.rs:103-112 | An optional identity is a one and its bytes, or zeros |
| IntentChains.IntentChain.TransferNative | ace-hfi-pay/src/onchain.rs:280-310 | A native transfer, both new balances taken from the old ones |
| IntentChains.IntentChain.TakeNonce | ace-hfi-pay/src/onchain.rs:312-334 | A nonce is used once and in order |
| IntentChains.IntentChain.Create | ace-hfi-pay/src/onchain.rs:425-655 | An intent is created once, or paid at once to a registered recipient |
| IntentChains.IntentChain.Fund | ace-hfi-pay/src/onchain.rs:657-768 | A created intent is funded on evidence and with its amount in the deposit |
| IntentChains.IntentChain.Expire | ace-hfi-pay/src/onchain.rs:770-812 | A funded intent expires after its slot |
| IntentChains.IntentChain.Refund | ace-hfi-pay/src/onchain.rs:814-959 | An expired intent is paid back with authorization |
| IntentChains.IntentChain.Claim | ace-hfi-pay/src/onchain.rs:961-1124 | In place, what `HandleClaim` says, whose exact condition is `ClaimExactly` |

## Left out

- Agreement: one height with a fixed validator set; crash recovery and the write-ahead log are not modelled.
- Agreement: the network's honest nodes do not pass the end of their 32-bit round counter; `SecondLapVotesAgain` shows that a node that does may vote twice in a round.
- AddVoteVerified: signature, slot, height and membership checks are one admission function of the vote.
- ReconcileValidatorSet: the admission of a vote under the new set is one function; the stakes of a bucket are summed without the 64-bit width, which `CanonicalBounded` shows is not reached.
- SpotClob: one market; market ids, the two mints and the chunked storage of orders are not part of it, and trading fees are zero as the program requires.
- BookStore: slots are addressed by level and by order instead of by hash.
- PriceLadder: that the arena holds no node that is neither used nor free is not stated.
- AddLiquidity: one pool; pool ids are the pair of mints.
- SwapMoves: here, in `SwapExactly`, `AddExactly` and `RemoveExactly`, and for the cover in `RunKeeps` the sender is not the pool's own account, whose id is a hash nobody signs for; `PoolAsTraderUncovers` shows why.
- ProcessDeposit: relayer approval and signature are one flag, the risk limits another; the daily counters behind the limits are not modelled.
- RequestWithdrawal: the risk limits and the format of the destination are flags.
- ReserveBridge: switching assets and mappings on and off, the unused reversal of a reservation and the plain wrapped deposit are not modelled.
- RunCirculationIsBacked: nobody spends from the account that burnt tokens go to, whose id is a hash; `SpentBurnIsUnbacked` shows why.
- RegisterCanonical: a mint exists once it is made; the token runtime reads one of no decimals and no supply as missing.
- GetRecord: records are bytes; their serialization is not modelled.
- Distribute: the sum of epoch and index is not limited to the machine's word, and the list is short enough for the sum of its 16-bit weights to fit 64 bits.
- FairOrderTransactions: the shuffle is any function of the lanes that gives a permutation; the seed hash and the shuffle itself are not modelled.
- ProposerFor: the hash is a stream of draws one of which is accepted; the width of the draw counter is not modelled.
- ValidatorSet: the total stake is not limited to 64 bits.
- IntentChain: registration of recipients, the claim tag and signatures are flags or parameters; tokens other than the native one are recorded but, as in the program, not moved.
- EpochTracker, bridge limits, relayer, commit and open of encrypted transactions, wire payloads and the virtual machines are not part of this model.
