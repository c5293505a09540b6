# Keyserver verification model

A Dafny model of the Cash:web keyserver: a server that stores signed metadata under Bitcoin Cash addresses,
charges for each write, forgets entries whose time to live has passed, and learns of other servers' entries
from the transactions that paid for them. `dafny verify dfyconfig.toml` checks the whole project.

## How it is laid out

| file | what it holds |
|---|---|
| `Prelude.dfy`, `Utf8.dfy`, `Base64Url.dfy` | bytes and integer ranges; what a Rust string is (RFC 3629); the token's text form (RFC 4648) |
| `Wire.dfy`, `Messages.dfy`, `Bip70.dfy`, `Schemas.dfy` | the Protocol Buffers wire format and the messages of the two schemas, with their round trips; what the decoders make of any list of records |
| `Script.dfy`, `Wallet.dfy`, `WalletRaces.dfy` | the two outputs of an invoice and their parsers; the set of unpaid addresses, as one step and as two |
| `Authentication.dfy`, `Codecs.dfy`, `KeyDb.dfy`, `TtlRefinement.dfy` | signature checks; what the store asks of its encoding; the expiring store; its refinement of a map that never deletes |
| `Handlers.dfy`, `Registers.dfy`, `Cluster.dfy`, `Interleavings.dfy` | the PUT, GET and peer handlers; one server as a last-writer-wins register; many servers with interleaved handlers; when such handlers lose updates |
| `Payments.dfy`, `PaymentRuns.dfy`, `HonestClient.dfy`, `Answers.dfy` | invoices, payments and tokens; whole runs recorded in a ledger; what an honest client can rely on; exactly when each answer of a handler is given |
| `Gossip.dfy`, `WholeSystem.dfy` | many servers that pull an address from each other while clients write; stores and payments of many servers together |
| `Replication.dfy`, `Deployment.dfy` | from a paid invoice to the other servers; the main results for the encoding in use, and their limits |

The classes `KeyDB`, `WalletState`, `CheckPaymentMiddleware` and `PeerClient`, and the methods `PutKey`, `GetKey`,
`ReadBody` and `PaymentHandler`, follow the program statement by statement; each is proved against a function of the
old state. The lemmas are about those functions and about runs made of them. A run is any sequence of actions, so a
lemma about runs speaks of every order of events.

## What is assumed, and where

- Signatures, hashes, the address and URL parsers, the transaction decoder and the HMAC are parameters. The store needs
  nothing of them. Authorised writes take two things about the HMAC of section 2 of RFC 2104, stated as `InjectiveHmac`
  and `Unforged`: different messages have different codes, and who presents a code received it in a 202 response.
- Conservation and authorised writes take that the node never hands out an address twice (`FreshAddresses`).
- The store's lemmas hold for every encoding that is `Lawful`; `ProtobufIsLawful` shows that the program's encoding is.
  In the same way an honest client and the server are any two that `Understand` each other; `Bip70IsUnderstood` shows that
  those using the payment messages of the schema do.
- The expiry time is 64-bit signed addition and is modelled with its wrap-around (`WrapI64`), as an optimised build computes it.
  The OP_RETURN length byte is modelled the same way, in 8 bits. A build with overflow checks panics there instead.
- `check_timestamp` reads the clock twice, and so does the model. Storage errors are an argument of each database call (`Disk`).
- Lengths are those a 64-bit machine can hold: round trips of payloads and payment messages take that the encoding is
  shorter than 2^64 bytes.

## What turned out false, and the exact conditions

- Stored timestamps can fall: an accepted write replaces a readable record by an older one just when the stored record had
  expired by the time it was fetched (`WriteGoesBackIff`). So it does for every two PUTs of which the first has expired
  (`ExpiredGivesWay`); `TimestampsCanFallAcrossExpiry` gives two payloads with which the owner of any address sees it.
- An already expired record can be stored, just when no live record is in its way (`ExpiredIsStoredIff`).
- A sum of timestamp and time to live past the range of `i64` makes a record expire at once (`ExpiredMeansPastIff`).
- The check and the write are separate steps, so an update can be lost: in any run of any cluster an action removes a live
  record or puts an older one in its place just when it is the last step of a handler that read the address before another
  handler wrote that record (`LiveRecordLostIff`, with a run from the start in `TwoPutsLoseOne`). Without such an overlap
  timestamps do not fall while a record is live, however the rest is interleaved (`WithoutOverlapTimestampsNeverFall`), and
  a handler whose entry nobody else touches does what one atomic check-and-put does (`PassageIsOffer`).
- The wallet's test and removal are separate steps: a check succeeds just when its hash was outstanding as it read
  (`CheckSucceedsIff`), so a second check of an invoice succeeds too just when none has completed by then
  (`BothChecksSucceedIff`, with a run in `TwoChecksCanSucceed`).
- A pull and a PUT of the same record leave different stores just when the record claims a scheme other than ECDSA, passes
  the other checks, and is neither refused nor already stored (`PullIsPutIff`): the peer path does not look at the scheme.
  They agree on every store just when the scheme is ECDSA or another check fails (`PullIsPutEverywhereIff`).
- An invoice for a URL of more than 226 bytes cannot be followed by other servers (`OpReturnRecoveredIff`).

## Model

| member | source | states |
|---|---|---|
| Messages.MetadataRoundTrip | src/db.rs:51-62 | every metadata message whose buffers are addressable decodes from its own encoding |
| Messages.PayloadRoundTrip | example/addressmetadata_pb2.py:132-174 | every payload, with negative times, omitted defaults and nested entries and headers, decodes from its own encoding |
| Messages.DecodedMetadataFits | src/net/mod.rs:46-47 | whatever bytes arrive, a message decoded from them can be stored and read back |
| Schemas.MetadataIsRead | example/addressmetadata_pb2.py:181-217 | any list of records, in any order, with repeated and unknown ones, decodes to the last key, signature, scheme and payload by the schema's numbers, and fails exactly when a record has the wrong type |
| Schemas.PayloadIsRead | example/addressmetadata_pb2.py:132-174 | the same for timestamp, time to live and all entries in order |
| Schemas.PaymentIsRead | example/paymentrequest_pb2.py:229-275 | the same for merchant data, all transactions and refund outputs in order, and memo |
| Schemas.DetailsIsRead | example/paymentrequest_pb2.py:66-135 | the same for the seven fields of the payment details |
| Wire.VarintIsRead | src/db.rs:51-66 | any one to ten groups, minimal or not, are read as their value in 64 bits |
| Utf8.Utf8Iff | src/bitcoin/mod.rs:124 | a byte string is taken as text exactly when it spells a sequence of Unicode scalar values |
| Codecs.ProtobufIsLawful | src/db.rs:51-66 | the encoding in use reads back what it writes, and no error body of a GET decodes as a record |
| Codecs.NotFoundIsNoRecord | src/net/peer.rs:54-63 | the body of a 404, which the peer client decodes without looking at the status, is never taken for a record |
| Authentication.ValidIffSigned | src/crypto/authentication.rs:5-25 | validation succeeds exactly for records whose key hashes to the address and whose signature verifies over the payload |
| KeyDb.ExpiredMeansPastIff | src/db.rs:15-21 | exactly when the wrapping comparison means that timestamp + ttl is past |
| KeyDb.Compacted | src/db.rs:23-33 | compaction removes exactly the visited entries that have expired and alters none |
| KeyDb.FilterRemovesIff | src/db.rs:23-33 | the compaction filter removes a stored record exactly when timestamp + ttl, wrapped into 64 bits, is past, and keeps it otherwise |
| KeyDb.CompactionForgetsExpired | src/db.rs:23-33 | a visited record past its deadline is absent after a compaction; an unexpired or unvisited one keeps its bytes |
| KeyDb.PanicsIff | src/db.rs:57-66 | a read fails on stored bytes exactly when they, or the payload inside, do not decode |
| KeyDb.GetReturnsPut | src/db.rs:51-76 | a read returns the record that was put while it is live, and nothing afterwards |
| KeyDb.AfterGet | src/db.rs:64-72 | a read removes the entry exactly when it has expired, and touches no other |
| KeyDb.KeyDB.Put | src/db.rs:51-55 | stores the encoding under the address body, or leaves the store unchanged on a storage error |
| KeyDb.KeyDB.Get | src/db.rs:57-76 | answer and deletion for absent, unreadable, expired and live entries and for storage errors |
| KeyDb.KeyDB.CheckTimestamp | src/db.rs:78-97 | the verdict on a new payload against the stored record, with the deletion its read makes |
| TtlRefinement.StoreRefinesPlainMap | src/db.rs:15-97 | over every run of puts, gets, checks and compactions, each answer equals that of a map that never deletes and hides the last put once it is past its deadline |
| Handlers.ReadBody | src/net/mod.rs:42-45 | the loop yields the concatenation of all chunks, or nothing when one fails |
| Handlers.GetKey | src/net/mod.rs:18-34 | response and store after a GET in each case |
| Handlers.PutKey | src/net/mod.rs:36-70 | response and store after a PUT: every error, and the write exactly when all checks pass |
| Handlers.PeerClient.Poll | src/net/peer.rs:98-141 | the store after one item of the peer stream, whatever the peer answers |
| Handlers.PeerClient.PeerPolling | src/net/peer.rs:66-145 | the loop leaves the store that the items leave one after the other |
| Registers.StreamIsRun | src/net/peer.rs:66-145 | the loop over the stream is the run of its items' pulls, every one of them |
| Registers.StreamHoldsNewest | src/net/peer.rs:66-145 | after any stream an address holds the newest of the records that its items bring for it, and nothing exactly when none brings any |
| Answers.ScreenedIff | src/net/mod.rs:42-60 | a PUT passes the checks before the store exactly when it is readable, claims the supported scheme, is signed for the address and holds a payload that decodes |
| Answers.ScreeningRefusesIff | src/net/mod.rs:42-60 | each error answer to a PUT is given exactly when its check is the first to fail |
| Answers.SignatureRefusedIff | src/crypto/authentication.rs:5-25 | each validation error is given exactly when its part of the signature check is the first to fail |
| Answers.OfferAnswerIff | src/net/mod.rs:63-69 | success, outdated, expired, storage error and failure on unreadable bytes are answered exactly in the stated cases |
| Answers.PutAnswerIsTrue | src/net/mod.rs:63-69 | after a 200 reads of the address return the record while it is live; after any other answer, and at other addresses, every read is as before |
| Registers.Converge | src/db.rs:78-97 | two servers offered the same live records in any order, with any repetition, by PUTs or pulls, agree on presence and on the greatest timestamp; on the bytes when timestamps are distinct |
| Registers.RunHoldsGreatest | src/net/mod.rs:63-66 | after any such run the store holds an offered record with the greatest timestamp, and nothing when none was offered |
| Registers.TimestampsNeverFall | src/db.rs:83-94 | along any stretch in which an address's record never expires its timestamps never decrease |
| Registers.ReplacementsAreLive | src/db.rs:91-94 | along such a stretch every replacing record is signed for the address and was unexpired when examined |
| Registers.WriteGoesBackIff | src/db.rs:83-96 | a write replaces a readable record by an older one exactly when the stored one had expired |
| Registers.ExpiredIsStoredIff | src/db.rs:83-96 | an expired record is accepted exactly when no live record is stored |
| Registers.ExpiredGivesWay | src/net/mod.rs:36-70 | for every two PUTs to an address that pass screening, the second replaces the first once that has expired, whatever their timestamps |
| Registers.PullIsPutIff | src/net/peer.rs:118-141 | a pull and a PUT of the same bytes leave the same store exactly when the scheme is supported, a check fails, the stored record is newer or unreadable, the write cannot be made, or the same bytes are stored already |
| Registers.PullIsPutEverywhereIff | src/net/mod.rs:52-55 | they leave the same store on every store exactly when the scheme is supported or the record fails the other checks |
| Registers.PullIsJoin | src/net/peer.rs:92-141 | after a pull from an honest peer the timestamp is the maximum of the peer's and the server's own live one |
| Registers.MutualPullsAgree | src/net/peer.rs:92-141 | two servers that pull an address from each other hold the same bytes, those of the newer record |
| Gossip.NewestPrevails | src/net/peer.rs:92-141 | among any number of servers, every server that news of the newest record has reached, by pulls in any order and among any client requests, compactions and hostile answers, holds its timestamp, and its bytes when no other record shares the timestamp |
| Gossip.NewsSpreads | src/net/peer.rs:92-141 | every server reached by a chain of pulls from a record's holder holds a record at least as new, whatever else the servers do meanwhile |
| Gossip.NothingIsInvented | src/net/peer.rs:92-141 | whatever a server holds in the end was held by some server in the beginning or offered to one on the way |
| Gossip.ReachableStoresAreClean | src/net/peer.rs:118-141 | every store a cluster run reaches meets the premises of the results on pulls while its record is live |
| Cluster.StoredRecordsAreSigned | README.md:11 | in every reachable state of any number of servers, with interleaved handlers and hostile peers, each stored record is signed for its address, its payload decodes, and its bytes are its own encoding |
| Cluster.StoredBytesNeverPanic | src/db.rs:24-26 | in every reachable state the decode unwraps of reads, checks and compaction succeed |
| Cluster.StoredRecordsCameFromClients | src/net/peer.rs:92-141 | with honest peers every stored record was submitted in a client's PUT for the same address and written somewhere before |
| Interleavings.LiveRecordLostIff | src/net/mod.rs:63-66 | in every run of interleaved handlers, a live record is removed or replaced by an older one exactly by the clearing step or older write of a handler that read the address before another handler wrote that record |
| Interleavings.WithoutOverlapNothingIsLost | src/net/peer.rs:127-141 | no action loses a live record in a run where no handler is about to write an address while another one has read it and not yet acted |
| Interleavings.WithoutOverlapTimestampsNeverFall | src/db.rs:78-97 | along such runs an address's timestamps never decrease while its record is live, with ticks, reads, compactions and other addresses and servers interleaved in any way |
| Interleavings.PassageIsOffer | src/net/mod.rs:63-66 | a handler that runs to its end decides as one atomic check on the store it read, and leaves the entry as one atomic check-and-put when nobody else touched it |
| Interleavings.TwoPutsLoseOne | src/net/mod.rs:63-66 | for every two PUTs to an address there is a run from the empty cluster in which the newer record is stored and the older one replaces it |
| Script.OpReturnRecoveredIff | src/bitcoin/mod.rs:100-143 | a peer recovers URL and address from the invoice's second output exactly for 20-byte bodies, URLs of 1 to 226 bytes, and a URL not its own |
| Script.OutputsOnTheWire | src/bitcoin/mod.rs:161-185 | the bytes of an invoice's two outputs, with their amounts |
| Script.OpReturnReprints | src/bitcoin/mod.rs:100-185 | what the OP_RETURN parser accepts is exactly what printing its result gives |
| Script.PubkeyHashRecoveredIff | src/bitcoin/mod.rs:145-169 | the payment script gives back its hash exactly when it has 20 bytes |
| Script.PubkeyHashReprints | src/bitcoin/mod.rs:145-169 | what the payment-script parser accepts is exactly what printing its result gives |
| Script.ParsersAreInjectiveAndDisjoint | src/bitcoin/mod.rs:100-159 | both parsers are injective on accepted scripts, and none is accepted by both |
| Script.ExtractDetailsIsFirst | src/bitcoin/tx_stream.rs:38-50 | a transaction yields its first keyserver OP_RETURN |
| Script.NoDetails | src/bitcoin/tx_stream.rs:38-50 | a transaction yields nothing exactly when no output is a keyserver OP_RETURN |
| Wallet.ConsumesFirst | src/bitcoin/mod.rs:71-97 | the hash consumed is that of the first output paying the price to an outstanding address, and none is consumed when no output does |
| Wallet.WalletState.Add | src/bitcoin/mod.rs:63-65 | the address becomes outstanding and nothing else changes |
| Wallet.WalletState.Remove | src/bitcoin/mod.rs:67-69 | the address is no longer outstanding and nothing else changes |
| Wallet.WalletState.CheckP2pkh | src/bitcoin/mod.rs:71-92 | succeeds exactly for the exact price paid to an outstanding hash, which it removes |
| Wallet.WalletState.CheckOutputs | src/bitcoin/mod.rs:94-97 | succeeds exactly when some output pays an outstanding address, and removes only the first such hash |
| WalletRaces.GrantedWasIssued | src/bitcoin/mod.rs:79-91 | with test and removal as separate steps, every successful check is of an address added before |
| WalletRaces.GrantedThenRefused | src/bitcoin/mod.rs:79-91 | once a check of a hash has succeeded, every check that reads later fails unless the hash is added again |
| WalletRaces.CheckSucceedsIff | src/bitcoin/mod.rs:79-91 | a check succeeds exactly when its hash was outstanding as it read, whatever happens before it removes the hash |
| WalletRaces.BothChecksSucceedIff | src/bitcoin/mod.rs:82-85 | a second check of an outstanding hash succeeds exactly when no check of it has completed by the time the second reads, and is refused otherwise |
| Base64Url.DecodeEncode | src/net/payments.rs:100-104 | every byte string survives unpadded URL-safe base64 |
| Base64Url.DecodesFromIff | src/net/payments.rs:292-293 | the texts a token can be read from are exactly its encoding and that followed by some or all of its padding |
| Base64Url.GroupsKeepTheirBits | src/net/payments.rs:100-104 | three bytes become four characters that carry their bits in order |
| Payments.TokenSurvivesHeader | src/net/payments.rs:184-193 | the header of a 202 is visible ASCII with the prefix, and carries the token back unchanged |
| Answers.ForwardsIff | src/net/payments.rs:171-314 | the middleware forwards whatever is not a PUT and exactly those PUTs whose header spells the code of their own URL; any other header is answered InvalidAuth |
| Answers.TokenlessAnswerIff | src/net/payments.rs:195-245 | a PUT without a token gets a 402, and its fresh address becomes outstanding, or the error that names what failed, exactly in the stated cases |
| Answers.PaymentUnreadableIff | src/net/payments.rs:46-70 | each error before the wallet check is given exactly when its check is the first to fail |
| Answers.PaymentAnswerIff | src/net/payments.rs:72-116 | a payment is answered 202 exactly when an output pays 5 satoshi to an outstanding address, the node accepts the transaction, and the merchant data is a URL; each error exactly otherwise |
| Answers.AcceptedSendsToken | src/net/payments.rs:93-116 | a 202 names the URL of the merchant data, its token and the acknowledgement |
| Payments.CheckPaymentMiddleware.FetchAddress | src/net/payments.rs:209-230 | only an address of the right network and kind reaches the wallet |
| Payments.CheckPaymentMiddleware.Call | src/net/payments.rs:171-314 | response and wallet for every request, with and without a token |
| Payments.PaymentHandler | src/net/payments.rs:38-117 | response and wallet for every payment, including those that fail after the address is consumed |
| PaymentRuns.ForwardedPutWasPaid | src/net/payments.rs:291-313 | at any point of any run, a PUT that the middleware forwards follows a 202 for merchant data equal to its URL, that follows the node's acceptance of a transaction paying exactly the price to a hash not consumed before, that follows the invoice issuing the hash |
| PaymentRuns.PayThenSentIsHandler | src/net/payments.rs:38-117 | the two actions on a payment in a run leave the wallet and give the answer of the payment handler |
| PaymentRuns.OutstandingUntilSpent | src/net/payments.rs:209-230 | the address of a 402 is outstanding from that answer until a payment spends it |
| PaymentRuns.AdmittedWritesWerePaid | src/net/payments.rs:291-313 | every admitted PUT in the ledger rests on such a chain of records |
| WholeSystem.StoredRecordsWerePaidFor | src/net/payments.rs:291-313 | over every joint run of stores and payments of any number of servers with honest peers, every record stored anywhere came in a PUT admitted by a server that had by then issued an invoice, received exactly the price in a transaction the node accepted, and answered 202 for that URL |
| PaymentRuns.InvoicesAreConserved | src/net/payments.rs:72-97 | issued addresses are those outstanding and those consumed, none both, none consumed twice; acknowledgements never outnumber consumed addresses |
| HonestClient.Bip70IsUnderstood | src/net/payments.rs:56-91 | with the messages in use a client reads every invoice and acknowledgement the server writes, and the server every payment the client writes |
| HonestClient.InvoiceHoldsDetails | src/net/payments.rs:247-283 | a client decodes the bytes of a 402 to the merchant URL, payment URL, time, expiry, network, and the two outputs with their amounts |
| HonestClient.HonestClientIsServed | src/net/payments.rs:93-116 | who decodes a 402 and pays its first output with its merchant data before anyone else does gets a 202, with any actions of others in between, whose header admits a PUT to the same URL in every later state |
| HonestClient.AckReturnsPayment | src/net/payments.rs:85-91 | the acknowledgement decodes to the payment the client sent |
| Bip70.PaymentRoundTrip | src/net/payments.rs:56-61 | the server decodes exactly the payment a client wrote |
| Bip70.DetailsRoundTrip | src/net/payments.rs:262-266 | a client decodes exactly the details the server wrote |
| Bip70.RequestRoundTrip | src/net/payments.rs:268-278 | a client decodes exactly the request the server wrote |
| Replication.InvoiceIsAnnouncedIff | src/bitcoin/tx_stream.rs:38-50 | a transaction holding both invoice outputs in any positions passes the wallet's check and announces URL and address, the latter exactly within the bounds |
| Replication.PaidPutReachesPeer | src/net/peer.rs:102-141 | a peer that sees the paying transaction and polls the server holds a record at least as new as the one put |
| Deployment.ServersHoldSignedRecords | src/net/peer.rs:118-141 | authenticity of every reachable store, for the Protocol Buffers encoding |
| Deployment.DeletionIsInvisible | src/db.rs:15-97 | the refinement of the plain map, for the Protocol Buffers encoding |
| Deployment.TimestampsCanFallAcrossExpiry | src/net/mod.rs:36-70 | with two concrete payloads, signed by the owner of any address and sent as two PUTs, the stored timestamp falls from 100 to 50 |

## Left out

- HTTP server set-up, CORS, logging, static files, settings and status codes of errors: plumbing around the handlers.
- Bitcoin RPC and ZMQ transport: a new address, the node's verdict on a transaction, and the transaction stream are inputs.
- RocksDB: a map whose compaction may visit any entries; each call's storage errors are inputs.
- secp256k1, SHA-256, HASH160 and HMAC: parameters, with the assumptions named above; constant-time comparison is equality.
- cashaddr, base58, URL and transaction decoding: parameters; the store is keyed by address body alone.
- The network and kind of an address: a node's reply is of the right kind or it is not.
- The 30-second wait before a poll and the HTTP fetch: the clock readings and the answer of each poll are inputs.
- Groups of the Protocol Buffers wire format (wire types 3 and 4): the decoder refuses them. Base64 text: up to a full group's padding is accepted after the symbols and any other is refused. The libraries behind both are not part of this model.
- Tokens are not single-use and the wallet does not enforce an invoice's expiry; nothing here says otherwise.
- Registers.Converge: takes that no storage error occurs and that the offered records stay live to the end of both runs, because otherwise an offered record need not be stored.
- WalletRaces.GrantedThenRefused: models the wallet's check alone, because payments as a whole are conserved only when the check is one step (`TwoChecksCanSucceed`).
