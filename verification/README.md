# fabric-byzantine: a verified model

fabric-byzantine drives a Hyperledger Fabric network of ten organisations whose peers can be
switched to "byzantine". This project models four of its parts and what ties them together.

**Transaction assembly** (`Wire`, `Messages`, `Layout`, `TxUtils`, `HashBinding`; `server/protoutil`). Endorsers answer a
proposal, the client checks that the answers agree and signs an envelope of nested protobuf
messages, a committer opens it and recomputes the proposal hash. Messages are encoded in the proto3
wire format (varints, tags, length-delimited values, omitted defaults), and the decoder merges
repeated embedded messages, lets the last scalar win and skips unknown fields, as the Go library
does. `Slice` keeps nil and empty byte slices apart, because the source's nil checks do. SHA-256 is
any function with 32-byte results, signing any partial function; laws that need two texts to have
different digests say so of these two (`NoCollision`). `CreateSignedTx`,
`GetProposalHash1` and `GetProposalHash2` are methods with the loops and the hasher of the source,
proved equal to `SignedTx`, `ProposalHash1` and `ProposalHash2`; the laws are about those.

**Token chaincode** (`Strconv`, `MapSum`, `TokenContract`; `chaincode/src/token/token.go`). The
ledger is a map from names to token documents; a `Token` object is changed in place between
GetState and PutState. Arithmetic wraps at 64 bits. `strconv.Atoi` is modelled with the values it
returns beside its errors: 0 for text that is no number, the nearest int64 beyond the range.
`Apply` is the effect of one invocation and `Run` of a history.

**Invocation engine** (`TxList`, `Invocation`; `server/fabsdk.go`, `server/statistics.go`).
`InvokeCC` walks the peers in any order, chooses targets, records the transaction for the indexer
and updates counters held behind a map of pointers. `Step` and `Run` are its effect on values.

**Block indexer** (`BlockListener`, `CatchUp`, `ListenerRun`, `Convergence`;
`server/block_listener.go`). `Update`
is one `updateBlock` call on the tables and the shared transaction list. `ListenerRun` is a state
machine in which the ledger grows, the subscription starts, events arrive, syncBlock reads the
table and then the ledger, updates run and transactions are submitted, in every interleaving; a
step that is not enabled does nothing, so every sequence of steps is a run. The methods of `Listener`
follow the source's statements for events and for syncBlock, and each call takes an object that is
in a state of the machine to its next state. `Convergence` compares two runs over the same chain.

`System` joins the parts: histories of chaincode calls give InvokeCC its peers, an invocation gives
the indexer its entry, and the assembled envelope is what updateBlock reads.

## What is not so in general

- **The hand-off from catch-up to live events can lose blocks.** `ListenerRun.HandOff` proves when
  it does not, for every run: the table already reaches the block of the first event, or syncBlock
  read the table before any live block was stored and then read a ledger at least as high as the
  first event. `LostBeforeSubscription` and `LostBehindLiveBlock` are the two races.
- **A gap is not closed by a restart.** A block that is missing below the highest stored one is
  indexed in a run exactly when live events reach it (`ListenerRun.OldGapClosesLive`), and stays
  missing over any number of restarts whose subscriptions start at or above it
  (`GapOutlivesRestarts`).
- **Agreeing responses are not always accepted.** A response without endorsement passes the checks of
  CreateSignedTx and then fails to marshal (`TxUtils.MissingEndorsementIsRefused`). For every made
  proposal whose nonce and creator are not both empty `CreateProposalResponseFailure` makes such a
  response that agrees with the endorsers in everything, whatever its successful status
  (`AgreementWithoutEndorsementFails`). `AcceptanceIsUnanimity` has the exact condition.
- **The committer's hash needs something to hash.** With an empty channel header, signature header
  or input the field vanishes on the wire and GetProposalHash2 reports nil arguments
  (`TxUtils.CommitterRecomputesHash`, exact over all proposals). The constructors of proposals never
  leave the input empty, so what they make always agrees with the committer
  (`MadeProposalIsCommitted`), or, without nonce and creator, is not endorsed at all
  (`MadeProposalIsEndorsed`). A proposal put together in another way can lack the input and is still
  endorsed and assembled (`EmptyInputIsNotRecomputed`).
- **An action without any field cannot be extracted again**, though it is endorsed, assembled and
  committed like any other (`TxUtils.EndorseAssembleExtract`, `MadeProposalIsCommitted`).
- **tx_index tells transactions apart only while no block reaches the first key of a later one**
  (`CatchUp.KeysUniqueIffSizesFit`): where no block is empty, while none but the last exceeds
  txNumPerBlock (`SizesFitWithoutEmptyBlocks`).
- **The order of two updates can show in the tables**, for two reasons and no other: they claim a row
  key that is still free (`BlockListener.OversizedBlockMakesOrderShow`), or both carry a transaction
  that is still awaited and the one that comes second attributes a new row differently without it
  (`SharedTransactionMakesOrderShow`). `RowsCommuteIff` and `UpdatesCommuteIff` are exact.

Token conservation, on the other hand, needs no assumption on the issued supplies: a token issued
with a negative supply never moves.

The endorsement policy is OutOf(6) where `scripts/utils.sh` instantiates the chaincode with TLS and
OutOf(7) where it does without; seven targets meet both.

## Model

| member | source | states |
|---|---|---|
| Wire.VarintRoundTrip | server/protoutil/commonutils.go:35-38 | a base-128 varint decodes to its number and leaves the bytes after it |
| Wire.ParseRoundTrip | server/protoutil/commonutils.go:35-38 | the fields of a marshalled message parse back, in order, whatever their number and wire type |
| Layout.VarintLayout | server/protoutil/commonutils.go:35-38 | a varint holds seven bits a byte, the lowest first, the high bit set on all bytes but the last, and no byte too many |
| Layout.PairsLayout | server/protoutil/proputils.go:185-213 | envelope, header, signature header, endorsement, action and response payload: which part is field 1 and which is field 2 |
| Layout.PayloadLayout | server/protoutil/proputils.go:203-207 | header and data of a payload byte by byte |
| Layout.TransactionLayout | server/protoutil/proputils.go:197-201 | one field 1 per action, in order |
| Layout.EndorsedActionLayout | server/protoutil/proputils.go:173-177 | the response payload as field 1, then one field 2 per endorsement |
| Layout.ActionPayloadLayout | server/protoutil/proputils.go:173-177 | proposal payload and endorsed action byte by byte |
| Layout.ResponseLayout | server/protoutil/proputils.go:160-164 | status, message and payload byte by byte, a negative status as 64-bit two's complement |
| Layout.ActionLayout | server/protoutil/proputils.go:134-152 | results, events, response and chaincode id byte by byte |
| Layout.ChannelHeaderLayout | server/protoutil/proputils.go:102-113 | the eight fields of a channel header with their tags, in order |
| Layout.SpecLayout | server/protoutil/proputils.go:82-85 | type, chaincode id, input and timeout of a chaincode spec byte by byte |
| Layout.ProposalPayloadLayout | server/protoutil/proputils.go:92-96 | the input, then one entry with key and value per element of the transient map |
| Messages.PairRoundTrip | server/protoutil/unmarshalers.go:54-59 | envelope, header, signature header, endorsement and action survive marshalling, nil and empty bytes becoming nil |
| Messages.PayloadRoundTrip | server/protoutil/unmarshalers.go:47-52 | a payload and its embedded header survive |
| Messages.TransactionRoundTrip | server/protoutil/unmarshalers.go:144-149 | a transaction survives with all its actions in order, however many |
| Messages.EndorsedActionRoundTrip | server/protoutil/txutils.go:193-200 | payload and endorsements survive, one by one and in order, when no endorsement is nil |
| Messages.ActionPayloadRoundTrip | server/protoutil/unmarshalers.go:151-156 | a chaincode action payload marshals and survives, with or without an action, unless an endorsement in it is nil |
| Messages.ResponseRoundTrip | server/protoutil/unmarshalers.go:116-121 | a response survives, negative status codes included |
| Messages.ActionRoundTrip | server/protoutil/unmarshalers.go:109-114 | a chaincode action survives, absent response or chaincode id staying absent |
| Messages.BlankActionIsEmpty | server/protoutil/txutils.go:41-43 | an action marshals to no bytes exactly when no field is set |
| Messages.ChannelHeaderRoundTrip | server/protoutil/unmarshalers.go:61-66 | all eight fields of a channel header survive |
| Messages.ProposalPayloadRoundTrip | server/protoutil/unmarshalers.go:158-163 | input and transient map survive for every order in which the map is written |
| Messages.InvocationSpecRoundTrip | server/protoutil/proputils.go:87-90 | an invocation and its chaincode spec survive |
| Messages.HeaderExtensionRoundTrip | server/protoutil/proputils.go:82-85 | the chaincode id in a header extension survives, absent staying absent |
| TxUtils.GetProposalHash1 | server/protoutil/txutils.go:457-485 | the hasher yields the committer's hash of the stripped payload; nil arguments and undecodable payloads are errors |
| TxUtils.GetProposalHash2 | server/protoutil/txutils.go:436-453 | the hasher yields the digest of channel header, signature header and payload in this order; nil arguments are an error |
| TxUtils.HashIdentifies | server/protoutil/txutils.go:436-453 | a hash exists exactly when both headers and the payload do; two are equal exactly when channel header, signature header and payload after one another are, unless the digest collides; with headers of equal lengths, exactly when all three are |
| TxUtils.HashErrors | server/protoutil/txutils.go:457-475 | which of its errors the endorser's hash ends in, and that it exists otherwise |
| HashBinding.HashIdentifiesProposal | server/protoutil/txutils.go:457-485 | unless the digest collides, two made proposals have the same hash exactly when type, channel, transaction id, time, chaincode spec, nonce and creator agree |
| HashBinding.CommittedHashesTellApart | server/protoutil/txutils.go:436-485 | the hashes a committer finds in two accepted transactions are equal exactly when these come from the same proposal, transient map aside |
| TxUtils.CreateSignedTx | server/protoutil/txutils.go:139-242 | the loops and early returns compute SignedTx: which error comes first, and which envelope otherwise |
| TxUtils.AcceptanceIsUnanimity | server/protoutil/txutils.go:144-213 | with a non-failing signer a transaction is made exactly when the proposal decodes and names the signer, there is a response, all are successful, all carry the first one's payload and all have an endorsement |
| TxUtils.AcceptanceIgnoresOrder | server/protoutil/txutils.go:176-197 | permuting the responses does not change whether a transaction is made |
| TxUtils.FirstFaultDecides | server/protoutil/txutils.go:176-191 | the first response that fails or disagrees decides the error, whatever follows it; the status comes before the payload |
| TxUtils.RefusedAtOnce | server/protoutil/txutils.go:144-174 | the errors for missing responses, undecodable headers or payload, the signer's identity and a foreign creator, in this order |
| TxUtils.UnanimousButUnsigned | server/protoutil/txutils.go:215-242 | with unanimous responses a transaction comes about or the signature failed |
| TxUtils.MissingEndorsementIsRefused | server/protoutil/txutils.go:176-213 | successful responses with equal payloads, one of them without endorsement, are refused when they are marshalled |
| TxUtils.AgreementWithoutEndorsementFails | server/protoutil/txutils.go:302-336 | for every made proposal and every successful response the result of CreateProposalResponseFailure agrees with any list of endorsers in status and payload, and the list with it is refused |
| TxUtils.OpenSignedTx | server/protoutil/txutils.go:199-241 | what a committer finds in an accepted envelope: the signature over the payload, the proposal's header, the stripped proposal payload, the agreed response payload and the endorsements |
| TxUtils.EndorseAssembleExtract | server/protoutil/txutils.go:139-300 | endorsers that ran alike always yield a transaction, and GetActionFromEnvelope returns the packed action, or the missing-extension error exactly when the action is blank |
| TxUtils.EndorsementsSurvive | server/protoutil/txutils.go:193-200 | the transaction holds one endorsement per response, in the order of the responses |
| TxUtils.EndorsementsVerify | server/protoutil/txutils.go:278-292 | each endorsement in the transaction is its endorser's signature on the response payload in the transaction followed by the endorser |
| TxUtils.EndorserAnswer | server/protoutil/txutils.go:245-300 | an endorser answers with version 1, status 200, its signature, and a payload from which the proposal hash and the action are read |
| TxUtils.EndorsementErrors | server/protoutil/txutils.go:254-264 | an endorsement ends in the error of the header or of the hash when there is one |
| TxUtils.EndorserErrors | server/protoutil/txutils.go:272-283 | otherwise it ends in a response or in the failure of the endorser |
| TxUtils.UnpackingErrors | server/protoutil/txutils.go:25-50 | a transaction without actions, and exactly an action without endorsed action or response payload, are refused with their errors |
| TxUtils.HeaderlessHasNoTxID | server/protoutil/txutils.go:490-521 | an envelope whose payload has no header yields no transaction id |
| TxUtils.EndorserHashesStripped | server/protoutil/txutils.go:414-485 | the endorser's hash of the original payload is the committer's hash of the payload put in the transaction |
| TxUtils.HashIgnoresTransientMap | server/protoutil/txutils.go:422-430 | proposals that differ only in the transient map have the same hash |
| TxUtils.CommitterRecomputesHash | server/protoutil/txutils.go:436-485 | from the transaction alone the committer recomputes the hash the endorsers signed, exactly when neither header nor the input is empty |
| TxUtils.ProposalHeaderDecodes | server/protoutil/proputils.go:102-130 | a made proposal names its creator, and its header carries the given id, or nonce and creator to compute it from |
| TxUtils.MadeProposalReadsBack | server/protoutil/proputils.go:75-131 | every field of a made proposal decodes to what its maker gave: type, channel, id, time, chaincode id, creator, nonce, chaincode spec and transient map |
| TxUtils.TxIDIdentifies | server/protoutil/proputils.go:370-377 | a transaction id decodes to the digest of nonce followed by creator, and unless the digest collides two are equal exactly when these are |
| TxUtils.TxIDsDiffer | server/protoutil/proputils.go:370-377 | with nonces of one length two ids are equal exactly when nonce and creator are, unless the digest collides |
| TxUtils.HexRoundTrip | server/protoutil/proputils.go:370-377 | the hexadecimal text has two lower-case digits a byte and decodes to the bytes |
| TxUtils.CheckAcceptsTheDigest | server/protoutil/proputils.go:381-391 | CheckTxID accepts exactly the lower-case hexadecimal digest of nonce followed by creator |
| TxUtils.TxIDSurvivesAssembly | server/protoutil/txutils.go:490-521 | the assembled envelope yields the given transaction id when non-empty and otherwise the one computed from nonce and creator |
| TxUtils.ComputedTxIDIsAccepted | server/protoutil/proputils.go:42-53 | for proposals that compute their own id CheckTxID accepts what the envelope yields |
| TxUtils.OwnProposalAccepted | server/protoutil/proputils.go:75-131 | a proposal made for the signer is accepted exactly when the responses are unanimous |
| TxUtils.MadeProposalIsEndorsed | server/protoutil/txutils.go:245-300 | an endorser that does not fail answers a made proposal exactly when nonce and creator are not both empty |
| TxUtils.MadeProposalIsCommitted | server/protoutil/proputils.go:75-131 | every made proposal its endorsers answer becomes a transaction; the committer recomputes from it the hash the endorsers signed, and the action is extracted exactly when it is not blank |
| TxUtils.EmptyInputIsNotRecomputed | server/protoutil/txutils.go:436-453 | a proposal with a made header and no input, the empty payload included, is endorsed and assembled, and its hash fails at the committer with nil arguments |
| TxUtils.TransientMapIsLeftOut | server/protoutil/txutils.go:412-430 | in every accepted transaction the committer finds the input of the proposal and an empty transient map |
| Strconv.AtoiReadsDecimals | chaincode/src/token/token.go:47-48 | for every text: an optional sign and digits give the denoted number, or the nearest int64 and an error; any other text is an error with 0, unless its leading digits already leave uint64 |
| Strconv.AtoiInvertsItoa | chaincode/src/token/token.go:235-241 | a number written by Itoa reads back as itself within int64, and as the nearest int64 with an error beyond |
| Strconv.ItoaIsShortest | chaincode/src/token/token.go:235-241 | Itoa writes the one text without leading zeros, with a minus sign for negative numbers only |
| Strconv.ParseBoolReads | chaincode/src/token/token.go:101-101 | true are the digit 1 and the words t and true, each in small letters, in capitals or capitalised; every other text is false |
| TokenContract.IssueOutcome | chaincode/src/token/token.go:40-81 | every issue: the errors, or a token of the second argument whose owner, the first, holds all of the parsed supply, with the flag off and all other tokens unchanged |
| TokenContract.TransferOutcome | chaincode/src/token/token.go:83-129 | every transfer over a sound ledger, as all reachable ones are: the errors in their order, or the amount goes from the second argument to the third exactly when the second holds it, the flag is set from the fifth, and nothing else changes |
| TokenContract.QueryOutcome | chaincode/src/token/token.go:184-260 | every query over a sound ledger: the errors in their order, or the peers of the token, or a text that reads back as the balance; unknown functions are refused |
| TokenContract.BalanceReplyReadsBack | chaincode/src/token/token.go:217-242 | after every history of calls the text a balance query replies reads back, without error, as the balance |
| TokenContract.Token.Transfer | chaincode/src/token/token.go:21-26 | balances move in place as Moved says and nothing else changes |
| TokenContract.Issue | chaincode/src/token/token.go:40-81 | the ledger and the reply after an issue, error replies included |
| TokenContract.TransferTokens | chaincode/src/token/token.go:83-129 | the ledger and the reply after a transfer, error replies included |
| TokenContract.OverwritePeers | chaincode/src/token/token.go:156-162 | for every order through the update map the peers become those of Updated, and an unknown name is reported exactly when there is one |
| TokenContract.SetPeer | chaincode/src/token/token.go:131-183 | the ledger and the reply after an update of peers, error replies included |
| TokenContract.Invoke | chaincode/src/token/token.go:243-260 | every invocation has the effect and the reply of Apply |
| TokenContract.TransferMoves | chaincode/src/token/token.go:21-26 | a payable transfer takes the amount from one account, gives it to the other and touches no third; a self-transfer or an unpayable one changes no balance; nothing wraps and the token stays conserved |
| TokenContract.ReachableTokensAreSound | chaincode/src/token/token.go:40-183 | in every reachable ledger every token's balances sum to its supply and lie within it, and its peers are exactly the ten; a negative supply stays with its owner |
| TokenContract.ErrorsChangeNothing | chaincode/src/token/token.go:243-260 | an error or a query leaves the ledger as it was, a success replaces one token by the replied document |
| TokenContract.BalancesDependOnProjection | chaincode/src/token/token.go:83-129 | balances of a token after a history are those after its issues and transfers alone, with flag and byzantineNum arguments blanked |
| TokenContract.BalancesDoNotInterfere | chaincode/src/token/token.go:83-129 | histories that agree on those calls agree on the balances |
| TokenContract.PeersDependOnSwitchings | chaincode/src/token/token.go:131-183 | the peers of a token depend only on its issues and setPeer calls |
| TokenContract.SetPeerIsAtomic | chaincode/src/token/token.go:131-183 | every setPeer over a sound ledger: the errors in their order, one unknown name and nothing changes; otherwise exactly the named peers take their parsed values, the flag is set from the third argument, and nothing else changes |
| TokenContract.IssuedPeers | chaincode/src/token/token.go:50-60 | after an issue the byzantine organisations are the clamp(byzantineNum, 0, 10) highest-numbered |
| Invocation.OrgIndexOfName | server/fabsdk.go:178-184 | the name of organisation i+1 parses to index i, Org1 and Org10 included |
| Invocation.PartitionPeers | server/fabsdk.go:175-190 | for every iteration order the two lists hold the indexes of the normal and the byzantine peers in that order |
| Invocation.ChooseTargets | server/fabsdk.go:197-213 | the array holds the normal list, else the byzantine list, else all organisations |
| Invocation.IndexCount | server/fabsdk.go:175-190 | how many peers end up in a list does not depend on the order |
| Invocation.PartitionIsSound | server/fabsdk.go:175-190 | over ten peers and in every order each list holds each organisation of its status once and no other |
| Invocation.TargetsAreSound | server/fabsdk.go:197-213 | in every order the targets are distinct organisations, at least seven, and as a set depend on the peers alone |
| Invocation.TargetsAreOfOneKind | server/fabsdk.go:197-213 | up to three byzantine peers all normal organisations are targets, from seven on all byzantine ones, in between all ten |
| Invocation.TargetsOverlap | server/fabsdk.go:197-213 | any two target sets share at least four organisations |
| Invocation.FabSdkProvider.GetTable | server/statistics.go:19-29 | the stored counters, or fresh zero counters that are not in the table |
| Invocation.FabSdkProvider.Submit | server/fabsdk.go:157-213 | the transaction list gains the transaction under its id with the peer and the byzantine count, and the targets follow the iteration order |
| Invocation.FabSdkProvider.CountFailed | server/fabsdk.go:240-249 | only the row of this byzantine count changes, by one transaction |
| Invocation.FabSdkProvider.CountExecuted | server/fabsdk.go:254-267 | only the row of this byzantine count changes, by one transaction and its commit |
| Invocation.FabSdkProvider.InvokeCC | server/fabsdk.go:132-273 | transaction list and statistics change as Step says, and no two keys come to share their counters |
| Invocation.InvocationsKeepTheirEntries | server/fabsdk.go:161-195 | two invocations with different nonces of one length, or different creators, keep an entry each under their ids, unless the digest collides |
| Invocation.OnlyTransfersCount | server/fabsdk.go:240-267 | a transfer with an identity changes the row at its key, and no other call changes the statistics |
| Invocation.Int8Keeps | server/fabsdk.go:241-241 | the key is the byzantine count in the int8 range, modulo 256 |
| Invocation.RowsAreTallies | server/fabsdk.go:240-267 | in every run each counter of each row is the number of calls of its kind, and a row exists exactly when a call at its key was counted |
| Invocation.StatisticsConserve | server/fabsdk.go:240-267 | in every run the transactions of all rows add up to the number of calls of the function transfer that reached Execute |
| Invocation.RowInvariant | server/fabsdk.go:254-267 | with peers from the chaincode every row has its key as byzantine count, within 0 to 10, no more commits than transactions, and byzantine commits only from seven on |
| BlockListener.Indexer.UpdateBlock | server/block_listener.go:74-176 | the loop with its break, continue and carried variables has the effect of Update on tables and list |
| BlockListener.AttributionIsLastHit | server/block_listener.go:84-149 | each new row shows peer and type of the last position up to it whose transaction was awaited and not taken before, or the default; its status is 1 for types 1 to 3 and the validation code otherwise; old rows stay and the list loses exactly the block's ids |
| BlockListener.BlockRowIsLastHit | server/block_listener.go:151-167 | a new block row has hash, element count, last transaction time and the folded type of the last hit, and other rows stay |
| BlockListener.UpdatesCommute | server/block_listener.go:74-176 | two updates commute when numbers and row keys differ and no awaited transaction is in both |
| BlockListener.RowsCommuteIff | server/block_listener.go:107-143 | two updates leave the same transaction table in both orders exactly when they share no free row key and no new row of either is attributed differently once the other's transactions are taken from the list |
| BlockListener.UpdatesCommuteIff | server/block_listener.go:74-176 | the same for transaction table, block table and list together, where the types of new block rows must agree as well; block 0 commutes with everything |
| BlockListener.SharedTransactionMakesOrderShow | server/block_listener.go:107-114 | two blocks with row keys of their own and one awaited transaction in both, whose order shows |
| BlockListener.OversizedBlockMakesOrderShow | server/block_listener.go:139-140 | a concrete block larger than txNumPerBlock and its successor, whose order shows |
| CatchUp.IndexDecodes | server/block_listener.go:139-140 | without wrap-around and in blocks of at most T transactions division and remainder by T give back block and position |
| CatchUp.IndexOrders | server/block_listener.go:139-140 | keys compare as block and position do |
| CatchUp.KeysUniqueIffSizesFit | server/block_listener.go:139-140 | over a chain whose non-empty blocks do not wrap around, keys are unique exactly when every block before a non-empty one has at most T transactions per number between them |
| CatchUp.SizesFitWithoutEmptyBlocks | server/block_listener.go:139-140 | without empty blocks that means at most T transactions in every block but the last |
| CatchUp.OrderDoesNotMatter | server/block_listener.go:216-222 | pairwise compatible blocks give the same tables in every order |
| CatchUp.CatchUpInAnyOrder | server/block_listener.go:216-222 | on a chain with unique row keys and each awaited transaction in one block, the updates of any range give the same tables in every order, the two balance columns aside |
| CatchUp.ReattemptChangesNoRow | server/block_listener.go:164-167 | a block whose rows are there changes no row when processed again |
| ListenerRun.Listener.OnBlockEvent | server/block_listener.go:54-71 | the first event is dropped, every other starts one update, and the object goes from any state of the system it is in to that after Deliver |
| ListenerRun.Listener.SyncBlock | server/block_listener.go:203-224 | it panics exactly when the table is above the ledger, and otherwise, if the ledger is ahead by more than the last block, starts one update per block from the stored height on, in order; the object goes from any state of the system it is in to that after ReadLedger |
| ListenerRun.RunFromFresh | server/block_listener.go:47-72 | in every run from any tables the blocks stored or under way are those found at start-up, those of the events after the first and those of the range of syncBlock |
| ListenerRun.HandOff | server/block_listener.go:47-72 | in every run, once start-up is over and no update outstanding, blocks 1 to the highest seen are indexed exactly when the table reached the first event or was read before any live block and met a ledger at least as high |
| ListenerRun.LostBeforeSubscription | server/block_listener.go:65-69 | a run in which the ledger grows between the two listeners and a block is lost |
| ListenerRun.LostBehindLiveBlock | server/block_listener.go:204-215 | a run in which a live block is stored before the table height is read and an earlier block is lost |
| ListenerRun.OldGapClosesLive | server/block_listener.go:203-224 | a block missing below the highest stored one at start-up is indexed or under way exactly when it lies between the first event and the next one |
| ListenerRun.GapOutlivesRestarts | server/block_listener.go:203-224 | over any number of restarts a gap stays open when no subscription starts below it |
| ListenerRun.SecondSyncStartsNothing | server/block_listener.go:213-216 | with a table complete up to the ledger a further syncBlock starts nothing |
| ListenerRun.ReattemptOfIndexedBlock | server/block_listener.go:216 | in a table that mirrors the chain, processing an indexed block again changes no row |
| ListenerRun.RunMirrors | server/block_listener.go:74-176 | in every run each block row is the row of its block, each transaction row belongs to a position of a stored block, and each row key of a stored block is occupied |
| ListenerRun.MirroredRowIsOwn | server/block_listener.go:139-140 | with unique row keys every position of a stored block has its own row, and the keys of a block not yet stored are free |
| Convergence.RunsConverge | server/block_listener.go:74-176 | with unique row keys, any two runs that end with the same chain and the same stored blocks have the same hashes, counts and times of blocks and the same block, id and time at every transaction key, whatever was submitted when |
| Convergence.CausalRunsAgree | server/fabsdk.go:191-220 | two such runs from the same tables that submit the same transactions, each before the chain holds it and awaited in one block, as InvokeCC stores before it executes, agree in every column but the balances: peers, types and statuses included |
| ListenerRun.RowsAreKept | server/block_listener.go:139-167 | a row that is in a table never changes in any run |
| ListenerRun.AwaitedUntilItsBlock | server/block_listener.go:107-114 | a transaction stays in the list until a block that holds it is processed |
| ListenerRun.SubmittedReachesItsRow | server/block_listener.go:107-140 | whatever happens in between, an awaited transaction shows, once its block is processed, under the peer and type it was submitted with, exactly when its row key is free by then, as it is with unique keys |
| System.PeersSeenAreTen | server/fabsdk.go:170-184 | after every history of chaincode calls InvokeCC sees the ten peers or none, and no name slices or indexes out of range |
| System.IssueDecidesTargets | server/fabsdk.go:170-213 | after an issue of token fab with byzantineNum n, kept within 0 and 10, InvokeCC counts n byzantine peers and targets the first 10 - n organisations for n up to 3, the last n from 7 on, and all ten in between |
| System.QuorumsIntersect | server/fabsdk.go:197-213 | any two invocations after any histories and in any orders choose at least seven organisations each and share at least four |
| System.EntryKinds | server/block_listener.go:89-100 | an element ends the loop exactly when its envelope does not decode, and passed over exactly when its payload does not; a missing or undecodable header is left out |
| System.AssembledEntry | server/block_listener.go:89-101 | updateBlock reads from an assembled envelope the id and the time the proposal was made with |
| System.InvocationReachesItsRow | server/fabsdk.go:132-195 | what one call of InvokeCC leaves in the list ends, for good, in the row of the assembled transaction: invoking peer, type 1 when the recorded type is positive, status 1 for one to three and the validation code otherwise, and the proposal's time |

## Left out

- HTTP and websocket handlers, timers and the broadcasts to subscriber channels: input and output only.
- Fabric SDK calls: their outcomes are arbitrary parameters; failing QueryBlock, Begin and a closed event channel, which panic or stop the server, are not steps of the model.
- Data races: each statistics update and each updateBlock call is one atomic step.
- The database: tables keyed by their primary keys; rejected values (such as a zero time), failing statements and failing commits are not modelled.
- JSON: token documents round-trip, and what the setPeer document decodes to is a parameter of the call; invalid UTF-8 account names are outside the model.
- Invalid UTF-8 in protobuf strings, which the Go library rejects; strings are byte sequences.
- Wire.Parse: accepts varints longer than ten bytes; rejects groups, and field number 0 inside map entries, which the Go library skips; unknown fields are dropped rather than kept for re-marshalling.
- The ChaincodeInput inside a chaincode spec: its marshalled bytes are a parameter and are not decoded.
- Messages.ProposalPayloadRoundTrip: transient map values do not distinguish nil from empty.
- Nil Response, Header and ChaincodeSpec pointers the source dereferences, and channel headers that fail to decode half-way, which updateBlock uses as far as they got.
- Blocks whose transactions filter has no code for a transaction the loop comes to, and peer names or organisation indexes out of range, on which the source panics: `Block.Valid` and the precondition of InvokeCC exclude them.
- Cryptography, nonces, clocks and certificates; the Datetime of a statistics row.
- ListenerRun.HandOff: ledger heights are at least 1, since a peer on the channel holds the genesis block; the zero height is covered by ListenerRun.Listener.SyncBlock alone.
- CreateSignedEnvelope, the proposal constructors for lifecycle chaincode, block header hashing, ByzantineNum and the sample chaincode.
