# Indy SDK command line, null payment plugin and ledger proofs: a verified model

This project models six parts of the Indy SDK and proves properties of every
run, every input or every reachable state of them.

* **Key rotation** (`did rotate-key`, with the library's wallet writes and the
  ledger's acceptance rule): `Verkeys`, `RotationProtocol`, `RotateKeyCommand`.
* **The null payment ledger** (libnullpay) behind the library's check of payment
  requests: `Sums`, `SourceIds`, `NullPayLedger`, `PaymentRequests`,
  `NullPayRuns`, `NullPayConservation`, `NullPayFailures`, `NullPayFees`,
  `SourceIndex`, `SourceListing`, `PaymentMethod`.
* **The Merkle tree of the transaction log** and its consistency proofs:
  `MerkleHashes`, `ConsistencyProofs`, `MerkleTrees`.
* **State proofs** over a Patricia Merkle trie: `TrieNodes`, `StateProofs`,
  `StateTries`.
* **The command-line parser** and the structured values it hands on:
  `CommandWords`, `CommandLine`, `CommandAnswers`, `CommandLineRoundTrip`,
  `PaymentParams`, `PaymentLine`, `Identifiers`, on top of `Text`.
* **The CLI session**: opened wallet, connected pool, active DID and the live
  library handles behind them: `SessionState`, `SessionRuns`,
  `SessionEffects`, `SessionCommands`.

Code that updates state in place is a class whose methods change fields
(`RotateKeyCommand.World`, `PaymentMethod.NullPay`, `MerkleTrees.MerkleTree`,
`SessionCommands.CommandContext`, `Indy` and `Session`); each method's contract
ties the new state to a function of the old one, and the theorems are about
those functions and the runs they make. Loops of the source are loops.

## How each part is modelled

**Rotation.** A state holds the wallet's DID record, its pending-key record and
its key records, the history of keys on the ledger, the requests in flight and
the position of the client. The client may be interrupted between any two
steps, including between the two writes of start and the two writes of apply.
A sent request may be lost, delivered late or any number of times, and its
reply may be lost. A ledger read returns any key the ledger ever held, in full
or abbreviated. The ledger accepts a NYM exactly when its signer is the current
key; a request is signed with the key in the DID record. That a pending key is
not overwritten and that keys are never reused is not assumed: it follows from
the library, whose wallet inserts a record only if none of that type and name
exists. Other commands may store keys at any time. Assumptions: one client per
DID, and the observed run begins with the wallet key on the ledger and nothing
in flight. A DID has 16 or 32 bytes, a key 32.

What the code does beyond its documentation: a resume that reads an abbreviated
verkey while the pending key abbreviates too switches the keys and then reports
failure, because the last abbreviation refuses a text that starts with a tilde
(`Outcome.AppliedButUnprintable`, reached as `UnprintableResumeIsReachable`
shows); and a start interrupted after its first write leaves a key record
behind, so the same seed is refused from then on (`KeysAreNeverReused`).

**Null payments.** Source identifiers are the real strings. The transaction
counter is cast to `i32` and wraps, sums wrap at 2^64 as in a release build, and
a request whose outputs get no receipt panics with the outputs so far added.
A request is checked at one moment and applied, refused or dropped at a later
one; any number of requests interleave. Each callback is one step, because the
library calls them one after another on its command thread.

The library passes a request to the plugin only if no input and no recipient is
named twice, neither list is empty (a fee request may have no outputs), and
every entry has three parts with one payment method in the middle; anything else
changes nothing (`ReachingRequests`, `RepetitionsChangeNothing`). Every theorem
about runs is about all requests that remain. Neither the library nor the plugin
checks four things, and for each there is the exact condition or a failing run:

* an underscore in the third part of a recipient: such a request panics, exactly
  then (`FeesAreAllOrNothing`, `PaymentsAreAllOrNothing`);
* that amounts and fee together stay below 2^64: then the price is paid, and in
  general exactly when they come to no more multiples of 2^64 than the inputs
  hold (`PriceIsPaidIff`); `WrappingPaymentExceedsMinted` is a run in which they
  come to more;
* that no input is named by another live request: the settlement keeps the books
  exactly when no input of value was spent in between
  (`LateSettlementConservesIff`), and `SharedSourceExceedsMinted` is a run in
  which two payments share one;
* that the counter stays within 2^32 transactions: up to there nothing spent
  comes back (`NoResurrection`), one transaction later something does
  (`SpentSourceReturnsAfterWrap`).

Runs in which accepted requests keep the second and third expectation never hold
more than was minted (`UnspentNeverExceedsMinted`).

**Transaction log.** A digest is 32 symbols that name the hashed text and its
prefix, so hashing is free of collisions by construction and nothing is assumed
about it; a proof may contain texts of any length and any content. Clearing the
lowest set bit of the leaf count (`v & (v - 1)`) is written out on numbers. A
tree reads its leaves from left to right, as its iterator does. The abort for a
target log shorter than the held one is the outcome `Aborted`.

**State proofs.** The hash is any function from encoded nodes to 32 bytes, and
nothing is assumed about it: a proof that shows something else than the trie
holds contains a node that collides with one of the trie's. The trie is stored in
any way that replaces some of its nodes by their hashes. An encoded node is a
tree of lists and byte texts. An empty stored path panics, as the code indexes
it (`Aborted`). Hashes could lead round in a circle, so a lookup is given a
number of steps; the theorems are about every number.

**Parser.** Text is a sequence of characters instead of UTF-8 bytes. Deferred
parameters are answered by an oracle of non-empty strings. The result of a parse
holds a deferred name even when it was given twice, because the duplicate test
only sees names that have their value (`TokensFit`); required parameters are not
checked here. A value that ends in a backslash makes its own closing quotation
mark look escaped, so the print/execute round trip holds exactly when no value
but the last of the line ends in a backslash (`ExecutingPrintedLine`).

**Session.** Every command may fail at each library call. That a failed open of
a wallet or pool leaves no handle behind is an assumption about the library. A
close that fails may leave the handle open or may already have removed it,
because both services take the handle out of their table before the step that
can fail; after the latter the record points at a handle that is gone, and no
wallet can be opened in that session again (`LostWalletIsFinal`), or no pool
connected (`LostPoolIsFinal`); two commands lead there. Handles come from one
counter shared by wallets and pools. Cleanup writes the closed wallet or pool
back into the context, as the code does. A DID that the library has found has at
least three characters.

## Model

| member | source | states |
|---|---|---|
| Verkeys.AbbreviateKeepsKey | libindy/src/commands/did.rs:465-487 | Expanding an abbreviated verkey of a DID gives back the key, so abbreviation is injective for one DID. |
| Verkeys.ComparisonIsExact | cli/src/commands/did.rs:249-267 | Comparing texts in the form the ledger shows decides equality of keys, for a full or an abbreviated ledger verkey. |
| RotationProtocol.StepKeepsInv | cli/src/commands/did.rs:224-334 | Every step of client, wallet, network or ledger keeps the protocol invariant. |
| RotationProtocol.LedgerKeyIsNeverLost | cli/src/commands/did.rs:224-334 | In every reachable state the ledger key is the wallet's verkey or its pending key, is verkey when nothing is pending, and its key record is still in the wallet. |
| RotationProtocol.ApplyIsSound | cli/src/commands/did.rs:247-275 | Whenever the client is about to apply, fresh or resumed, also after a stale read, the ledger's key is the pending key; after the first write both sides agree, after the second nothing is pending. |
| RotationProtocol.KeysAreNeverReused | libindy/src/commands/did.rs:208-229 | A key once stored in the wallet is refused by every later start, which changes nothing. |
| RotationProtocol.PendingKeyIsNotOverwritten | libindy/src/services/wallet/storage/default/mod.rs:362-386 | In every run, starts over it included, a pending key stays the pending key until the ledger has taken it. |
| RotationProtocol.LeftoversAreHarmless | cli/src/commands/did.rs:297-312 | With nothing pending, every request ever sent has a signer the ledger has left behind; so has every request whose new key the ledger has held. |
| RotationProtocol.HarmlessForever | cli/src/commands/did.rs:297-312 | Such a request, delivered at the end of any further run, changes nothing. |
| RotationProtocol.LateMessagesNeverChangeLedger | cli/src/commands/did.rs:297-312 | Requests left over when no rotation is pending never change the ledger, delivered in any order, any number of times, across any number of later rotations. |
| RotationProtocol.ReadTells | cli/src/commands/did.rs:244-275 | From an idle state with a pending key, an up-to-date read in either form is answered by "apply" if the ledger has the pending key and by "submit" otherwise, never by the mismatch error. |
| RotationProtocol.ReadIsExact | cli/src/commands/did.rs:247-275 | For any read: apply, submit or end, by whether the text stands for the pending key, else the wallet key, else neither; nothing else changes. |
| RotationProtocol.ResumeCompletes | cli/src/commands/did.rs:224-334 | From every reachable idle state with a pending key, an uninterrupted resume with an up-to-date read and a responsive ledger ends with wallet and ledger on the pending key and nothing pending. |
| RotationProtocol.FreshRotationCompletes | cli/src/commands/did.rs:277-334 | With nothing pending, an uninterrupted rotation to any key the wallet does not hold completes. |
| RotateKeyCommand.ReadDecides | cli/src/commands/did.rs:247-267 | A text equals the wallet key in the ledger's form exactly when it stands for that key, for both wallet keys. |
| RotateKeyCommand.World.constructor | cli/src/commands/did.rs:211-222 | The tracked run starts in an initial state of the protocol. |
| RotateKeyCommand.World.DeliverAll | cli/src/commands/did.rs:303-312 | Requests delivered during a command, repeated or late, move the world exactly as delivering them one by one moves the protocol state. |
| RotateKeyCommand.DeliveriesMoveOnce | cli/src/commands/did.rs:297-312 | Whatever is delivered while no other step is taken, the ledger takes at most one step, to the pending key, and takes it exactly when some delivered request is signed with its current key. |
| RotateKeyCommand.World.ReplaceKeysStart | libindy/src/commands/did.rs:208-229 | Start succeeds exactly when key and pending record are both absent; the key record stays when the second insert is refused. |
| RotateKeyCommand.World.ReplaceKeysApply | libindy/src/commands/did.rs:231-250 | Apply leaves wallet and ledger on the pending key with nothing pending, and touches nothing else. |
| RotateKeyCommand.World.Compare | cli/src/commands/did.rs:247-275 | The comparison moves the client as the protocol step does: to apply if the text stands for the pending key, to submit if it stands for the wallet key, else the command ends; nothing else changes. |
| RotateKeyCommand.World.Resume | cli/src/commands/did.rs:224-276 | The whole state afterwards: nothing happens without a pending key; else late requests are delivered and the read decides by the key its text stands for, and ends the command if there is no read or it shows no such key. With a current read it always proceeds. |
| RotateKeyCommand.World.Send | libindy/src/commands/ledger.rs:422-462 | The request is signed with the DID record's verkey, carries the pending key, and is not answered yet. |
| RotateKeyCommand.World.SubmitNym | cli/src/commands/did.rs:297-320 | The whole state afterwards: refused fees leave everything as it was; else the request is sent, what is delivered is delivered, and the command goes on to apply exactly if reply and receipts come and the ledger accepted this very request. |
| RotateKeyCommand.World.Execute | cli/src/commands/did.rs:211-341 | The command stays inside the protocol's reachable states. It gets to apply exactly if a start finds both records absent, or a read shows the pending key, or shows the wallet key, and, but for the second, fees, reply, receipts and the ledger's acceptance all come; then both sides are on the new key. Otherwise it fails and no verkey changes; without fees nothing is sent. Failure is reported after the switch exactly for an abbreviated new key. |
| RotateKeyCommand.UnprintableResumeIsReachable | cli/src/commands/did.rs:322-334 | For every 16-byte DID a run leads to a pending key that abbreviates and that the ledger already has; a responsive ledger showing it abbreviated is the case in which `Execute` switches the keys and reports failure. |
| Sums.WrapSumExact | libnullpay/src/payment_method.rs:470-476 | The wrapping u64 fold equals the true sum if and only if the true sum is below 2^64. |
| SourceIds.SourceRoundTrip | libnullpay/src/utils/source.rs:1-41 | Reading a source id back gives its transaction number and address exactly when the address is well formed, and fails otherwise. |
| SourceIds.SourceInjective | libnullpay/src/utils/source.rs:1-14 | Equal source ids come from the same address and the same transaction number. |
| NullPayLedger.ProcessInputsBalances | libnullpay/src/payment_method.rs:437-441 | Processing readable inputs removes exactly those sources from the balances and touches no transaction, counter or fee. |
| NullPayLedger.ProcessOutputsBalances | libnullpay/src/payment_method.rs:405-413 | Outputs of a logged transaction are added, one source each, up to the first malformed recipient; there the code panics, so all are added if and only if every recipient is well formed. |
| NullPayLedger.ProcessOutputsReceipts | libnullpay/src/payment_method.rs:405-413 | Each output of an applied request gets a receipt naming its own source, recipient and amount. |
| NullPayLedger.MintOutputsBalances | libnullpay/src/payment_method.rs:269-276 | A mint adds exactly the sources of its outputs. |
| NullPayLedger.OutputMapCarriesSeq | libnullpay/src/services/source_cache.rs:24-41 | Every source a transaction makes carries its number and belongs to one of its outputs. |
| NullPayLedger.AddingOutputsTotal | libnullpay/src/payment_method.rs:405-413 | Outputs to distinct recipients under an unused number raise the total by exactly the value of those that get a source. |
| NullPayLedger.RemovingInputsTotal | libnullpay/src/payment_method.rs:437-472 | For any inputs, removing them lowers the total by what was counted less what was counted repeatedly. |
| NullPayLedger.RepeatedValueZero | libnullpay/src/payment_method.rs:470-472 | Nothing is counted repeatedly if and only if only empty sources are named more than once. |
| NullPayLedger.SettleEffect | libnullpay/src/payment_method.rs:106-116 | Settling removes exactly the inputs still there and adds the outputs up to the first malformed recipient, and moves the total by exactly their values. |
| PaymentRequests.CommonMethodExact | libindy/src/services/payments.rs:312-390 | A list is passed to the null method exactly when it is non-empty, free of repetitions and every entry has three parts with that method in the middle. |
| PaymentRequests.NullMethodMeans | libindy/src/services/payments.rs:392-399 | An address is of the null method exactly if it has three parts between colons, the middle one "null". |
| PaymentRequests.CommonMethodRefusals | libindy/src/services/payments.rs:312-390 | All other lists are refused: as wrongly structured exactly if empty, repeating or with an entry without three parts, and as incompatible exactly if well structured with two methods. |
| PaymentRequests.PaymentRefusals | libindy/src/commands/payments.rs:656-665 | A fault of the inputs is reported before one of the outputs, and both before different methods. |
| PaymentRequests.ReachingRequests | libindy/src/commands/payments.rs:345-351 | Exactly which mint, payment and fee requests reach the plugin; recipients that do are distinct and have three parts. |
| PaymentRequests.RepetitionsAreRefused | libindy/src/services/payments.rs:325-330 | A request naming an input or a recipient twice never reaches the plugin. |
| NullPayRuns.RepetitionsChangeNothing | libindy/src/commands/payments.rs:448-461 | Asking for a payment, fees or a mint with a repetition leaves the whole system as it is. |
| NullPayRuns.AskedRequestsWait | libindy/src/commands/payments.rs:434-540 | A request that reaches the plugin waits as it was asked; a fee table with an entry of 2^63 or more never does. |
| NullPayRuns.CallbackEndsRequest | libnullpay/src/payment_method.rs:38-307 | Each callback comes once: its request is over, or is a payment that passed its check. |
| NullPayRuns.StepKeepsInv | libnullpay/src/payment_method.rs:38-307 | Every step, whatever is asked and however it interleaves, keeps the books balanced, transaction numbers unique and unused, and what each check has established. |
| NullPayRuns.SettlingMoves | libnullpay/src/payment_method.rs:106-116 | Every settlement of every run takes out the inputs still there, puts its outputs in under its own number and moves the total by exactly their values; it panics exactly for a malformed recipient. |
| NullPayRuns.NoResurrection | libnullpay/src/payment_method.rs:98-108 | In every run of at most 2^32 transactions a spent source never becomes unspent again, a source found in two states holds the same in both, and one that is there stays or is spent. |
| NullPayConservation.ValueIsConserved | libnullpay/src/payment_method.rs:203-240 | In every state of every run, unspent value plus what settlements took in and did not give out is exactly the minted value. |
| NullPayConservation.FeesAreAllOrNothing | libnullpay/src/payment_method.rs:62-116 | In every run a fee callback changes nothing unless the wallet owns all inputs; then it exchanges exactly its inputs for exactly its outputs, with receipts, or panics exactly when a recipient is malformed. |
| NullPayConservation.PaymentsAreAllOrNothing | libnullpay/src/payment_method.rs:203-240 | In every run a payment changes nothing unless the library call succeeded and the check found existence and cover; then it exchanges exactly its inputs, all owned by the calling wallet at its check, for exactly its outputs, or panics exactly when a recipient is malformed. |
| NullPayConservation.CheckedIsCoveredIff | libnullpay/src/payment_method.rs:89-92 | What a check accepted is covered by its inputs, fee included, if and only if amounts and fee come to no more multiples of 2^64 than the inputs hold; always when they stay below 2^64. |
| NullPayConservation.PriceIsPaidIff | libnullpay/src/payment_method.rs:203-233 | In every run a settlement whose inputs are unspent lowers the total by at least the fee read at its check, a payment by at least zero, if and only if amounts and fee come to no more multiples of 2^64 than the inputs hold: always when they stay below 2^64, and only then if the inputs hold less than that. |
| NullPayConservation.LateSettlementConservesIff | libnullpay/src/payment_method.rs:208-233 | In every run a settlement, one that panics included, keeps the difference of what its inputs held and what it gives out if and only if none of its inputs of positive value was spent since its check. |
| NullPayConservation.ValueIsFixed | libnullpay/src/payment_method.rs:203-206 | What inputs hold when they are checked is what they are worth in every later state of the run. |
| NullPayConservation.CountingIsExactIff | libnullpay/src/payment_method.rs:470-472 | The fold is the true sum for every list of distinct inputs if and only if the unspent total is below 2^64, and then no addition on the way overflows. |
| NullPayConservation.UnspentNeverExceedsMinted | libnullpay/src/payment_method.rs:203-240 | In runs whose checks accept only amounts that fit and inputs no live request names, unspent value never exceeds minted value, however much is minted; while that is below 2^64, counting never overflows. |
| NullPayConservation.CarefulSettlementsPay | libnullpay/src/payment_method.rs:98-116 | In such runs every settlement finds all its inputs unspent and lowers the total by at least the fee read at its check. |
| NullPayFailures.WrappingPaymentExceedsMinted | libnullpay/src/payment_method.rs:474-476 | From the start, for any funded address, a run in which a payment of 2^64 - 1 and 1 passes its check, is applied, and leaves 2^64 unspent. |
| NullPayFailures.SharedSourceExceedsMinted | libnullpay/src/payment_method.rs:208-233 | From the start, a run in which two payments pass their check on one source, both are applied, and twice the minted value is unspent. |
| NullPayFailures.SpentSourceReturnsAfterWrap | libnullpay/src/services/payment_ledger.rs:16-18 | For every null address a run of 2^32 + 1 transactions, made of requests the library accepts, in which its first source is spent and unspent again. |
| NullPayFees.SameCodeIsSameType | libnullpay/src/services/config_ledger.rs:35-43 | Two texts are one type exactly if equal or a pair of NYM and 1, ATTRIB and 100, SCHEMA and 101, CRED_DEF and 102. |
| NullPayFees.FeeIsLastSet | libnullpay/src/services/config_ledger.rs:13-21 | After a table is set the fee of a type, under its name or code, is the last entry for it, and other types keep theirs. |
| NullPayFees.FeeOfRun | libnullpay/src/payment_method.rs:298-305 | In every run the fee of a type is the last one set for it in that run, or what it was. |
| NullPayFees.AcceptedFeeIsLastSet | libnullpay/src/payment_method.rs:62-92 | The fee an accepted request must pay is the last one set for its type before its check, or nothing. |
| NullPayFees.FeesAcceptedExactly | libnullpay/src/payment_method.rs:74-132 | Where sums fit u64, a fee request is accepted exactly if its inputs are unspent, hold amounts and fee, and it has an id; else the first failing one of these is reported and nothing changes. |
| NullPayFees.PaymentCheckedExactly | libnullpay/src/payment_method.rs:195-212 | Where sums fit u64, the check of a payment refuses exactly a failed listing and foreign inputs, and otherwise notes what the inputs hold, what is paid and whether all are unspent. |
| NullPayFees.PaymentLiveExactly | libnullpay/src/payment_method.rs:203-233 | Where sums fit u64, a checked payment will be applied exactly if its inputs are unspent and hold its amounts. |
| SourceIndex.ListingIsExact | libnullpay/src/services/source_cache.rs:11-62 | In every run, duplicates, malformed addresses, panics and wrapped counters included, listing an address gives exactly the unspent sources made for it, and no source is listed under two addresses. |
| SourceListing.ListingHasNoRepetition | libnullpay/src/services/source_cache.rs:24-62 | In every run of at most 2^32 transactions a listing names no source twice. |
| PaymentMethod.NullPay.RemoveOne | libnullpay/src/services/source_cache.rs:43-62 | Removes balance and index entry, dropping an emptied list; an unreadable source is left alone. |
| PaymentMethod.NullPay.ProcessInputs | libnullpay/src/payment_method.rs:437-441 | The in-place loop equals the specification whose effect on balances is proved above. |
| PaymentMethod.NullPay.ProcessOutputs | libnullpay/src/payment_method.rs:405-413 | The in-place loop equals its specification, the panic and the state it leaves included. |
| PaymentMethod.NullPay.CheckOwners | libnullpay/src/payment_method.rs:417-425 | True exactly when every input is readable and its address is among the wallet's. |
| PaymentMethod.NullPay.CheckExistence | libnullpay/src/payment_method.rs:427-435 | True exactly when every input is unspent. |
| PaymentMethod.NullPay.CountTotalInputs | libnullpay/src/payment_method.rs:470-472 | The fold over balances, wrapping, and the true sum whenever that fits u64. |
| PaymentMethod.NullPay.CountTotalPayments | libnullpay/src/payment_method.rs:474-476 | The fold over amounts, wrapping, and the true sum whenever that fits u64. |
| PaymentMethod.NullPay.AddRequestFees | libnullpay/src/payment_method.rs:62-132 | The fee check in source order: existence, cover with the wrapping addition, request id, log entry. |
| PaymentMethod.NullPay.FeesCallback | libnullpay/src/payment_method.rs:100-116 | Applies after the ownership check, or leaves the ledger as it is. |
| PaymentMethod.NullPay.PaymentAddressesCallback | libnullpay/src/payment_method.rs:195-212 | Checks ownership, captures balance, payments and existence, and logs. |
| PaymentMethod.NullPay.PaymentCallback | libnullpay/src/payment_method.rs:223-238 | Decides on the captured values only and settles or leaves the ledger as it is. |
| PaymentMethod.NullPay.MintCallback | libnullpay/src/payment_method.rs:269-281 | Logs the mint and adds its outputs, if the library call succeeded. |
| PaymentMethod.NullPay.SetTxnFees | libnullpay/src/payment_method.rs:298-305 | Sets each fee under its transaction code, if the library call succeeded. |
| CommandWords.SplitFirstWord | cli/src/command_executor.rs:733-751 | The loop with its two flags returns the word and tail of the specification. |
| CommandWords.SplitShrinks | cli/src/command_executor.rs:733-751 | A word is empty exactly when the trimmed line is; a non-empty word leaves a strictly shorter tail, without whitespace at its ends. |
| CommandWords.WordsAreSinglePass | cli/src/command_executor.rs:733-751 | For every line, splitting word by word with flags restarted each time equals one pass over the trimmed line with the flags carried along. |
| CommandWords.WordsKeepText | cli/src/command_executor.rs:733-751 | The words put together are the trimmed line without its unquoted whitespace. |
| CommandLine.RunParser | cli/src/command_executor.rs:651-731 | The parser's loop ends and returns the outcome of the specification, errors included. |
| CommandLine.FindParamFinds | cli/src/command_executor.rs:690-704 | A parameter is found exactly when some declaration has that name. |
| CommandLine.FindsTheFirst | cli/src/command_executor.rs:690-704 | Of several declarations of a name the first is found. |
| CommandLine.ParseTokensExact | cli/src/command_executor.rs:673-706 | The token loop accepts exactly the lines whose words fit, and then holds exactly the earlier parameters and the given values, with the waiting names in order. |
| CommandLine.ParseParamsExact | cli/src/command_executor.rs:651-731 | A parse succeeds exactly when the main parameter is readable and the other words fit; its keys are the main name and the names of the words, values are the ones given unless the name was also deferred, and each answer is the value of the name it was asked for. |
| CommandAnswers.LineIsAnswered | cli/src/command_executor.rs:320-339 | Any line is answered by its first three words: help screens first, then groups, then top-level commands, else the unknown-command error; the rest goes to the parser. |
| CommandAnswers.ErrorIsAboutFirstBadWord | cli/src/command_executor.rs:673-706 | Every error of the token loop names the first word that does not fit, and says whether its name has a value already, is not declared, has a bad escape or lacks its value, in this order. |
| CommandAnswers.MainErrorIsAbout | cli/src/command_executor.rs:651-668 | A missing main parameter and a bad escape in it are reported as such before anything else. |
| CommandLineRoundTrip.UnescapeEscape | cli/src/command_executor.rs:664-668 | Unescaping undoes escaping for every value, whatever follows it. |
| CommandLineRoundTrip.SwallowedReadsWrong | cli/src/command_executor.rs:743-747 | A quoted value with anything after it never reads back as that value. |
| CommandLineRoundTrip.FirstItemSplits | cli/src/command_executor.rs:733-751 | The first printed argument is split off whole when it is the last one or its value does not end in a backslash, and otherwise takes some of what follows with it. |
| CommandLineRoundTrip.PrintedTokensParse | cli/src/command_executor.rs:673-706 | Printed name-value pairs parse to exactly their map when no value but the last ends in a backslash. |
| CommandLineRoundTrip.SwallowingTokensAreWrong | cli/src/command_executor.rs:673-706 | If some value before the last ends in a backslash, the parse fails or holds a wrong value for some printed name. |
| CommandLineRoundTrip.ParamsReadBack | cli/src/command_executor.rs:651-731 | Printed parameters, with or without a main one, are accepted as exactly their map when no value but the last ends in a backslash. |
| CommandLineRoundTrip.ParamsReadWrong | cli/src/command_executor.rs:651-731 | Otherwise they are never accepted as that map. |
| CommandLineRoundTrip.PrintedLineDispatches | cli/src/command_executor.rs:320-339 | A printed line reaches its top-level or grouped command with its printed arguments, never a help screen. |
| CommandLineRoundTrip.ExecutingPrintedLine | cli/src/command_executor.rs:320-339 | Executing a printed line invokes the command with exactly the given parameters if and only if no value but the last ends in a backslash. |
| PaymentParams.ScanFromParen | cli/src/commands/mod.rs:128-131 | For any text, tuple scanning splits at every opening parenthesis: what stands before it and what starts there are scanned independently. |
| PaymentParams.TuplesCompose | cli/src/commands/mod.rs:128-131 | A non-empty parenthesised text without parentheses inside is found whatever stands around it, and the rest is scanned as if alone. |
| PaymentParams.TuplesAreReadIff | cli/src/commands/mod.rs:128-145 | The parameter is read exactly if it is present and holds a non-empty parenthesised text without parentheses somewhere. |
| PaymentParams.OutputOfTuple | cli/src/commands/ledger.rs:1426-1440 | A tuple without a comma is refused; else it is the text before the first comma and the number up to the next one, refused exactly if that is no decimal below 2^64. |
| PaymentParams.ParsePaymentOutputs | cli/src/commands/ledger.rs:1419-1444 | The loop returns the specification's outputs; no tuples or one bad tuple fails it. |
| PaymentParams.OutputsRoundTrip | cli/src/commands/ledger.rs:1419-1444 | Printed outputs with recipients free of parentheses and commas read back in order when all amounts fit u64; one amount of 2^64 or more anywhere fails the whole parse. |
| PaymentParams.ParsePaymentFees | cli/src/commands/ledger.rs:1473-1495 | The loop returns the specification's table; one bad entry fails it. |
| PaymentParams.FeeOfEntry | cli/src/commands/ledger.rs:1476-1490 | A fee entry without a colon is refused; else it is the type before the first colon and the number up to the next one, refused exactly if that is no decimal below 2^64. |
| PaymentParams.FeesRoundTrip | cli/src/commands/ledger.rs:1473-1495 | A printed fee list reads back as the table it describes, the last entry of a type winning; it fails exactly when an amount is 2^64 or more. |
| PaymentParams.TableOfListing | cli/src/commands/ledger.rs:1473-1495 | Any listing of a map's entries, in any order, describes that map. |
| PaymentLine.PrintedOutputsArrive | cli/src/commands/mod.rs:133-145 | Outputs printed into a parameter of any registered command come out of the executed line as the same outputs, in order. |
| Identifiers.SchemaIdInjective | cli/src/commands/ledger.rs:25-27 | Schema ids are injective for a colon-free DID and version, any schema name. |
| Identifiers.CredDefIdInjective | cli/src/commands/ledger.rs:29-31 | Credential definition ids are injective for a colon-free DID, signature type and tag, any schema id. |
| Identifiers.CredDefOfSchemaInjective | cli/src/commands/ledger.rs:25-31 | Composed, all six parts are determined. |
| Text.SplitJoin | cli/src/commands/mod.rs:90-96 | Splitting undoes joining for parts free of the delimiter. |
| Text.JoinSplit | libnullpay/src/utils/source.rs:16-41 | Joining undoes splitting for every string, and no part holds the delimiter. |
| Text.PlainDecimalParses | cli/src/commands/ledger.rs:1434-1438 | A plain decimal number is accepted exactly when it is below the bound of its type. |
| Text.ParsesExactly | cli/src/commands/ledger.rs:1434-1438 | A text is accepted as a number exactly if it is that number in decimal, but for leading zeros and one plus sign, and below the bound. |
| SessionRuns.CommandKeepsInv | cli/src/commands/wallet.rs:180-212 | Every session command, failing at any library call, keeps agreement, handle exactness and the DID check. |
| SessionRuns.LiveHandlesAreRecorded | cli/src/commands/pool.rs:95-138 | In every session the live wallet and pool handles are exactly the recorded ones under their names, except a recorded one removed by a failed close. |
| SessionRuns.SessionAgrees | cli/src/commands/mod.rs:170-241 | In every session handle, name and prompt slot are present together and agree, and an active DID exists only while a wallet is recorded and was looked up in that wallet. |
| SessionEffects.WalletOpenEffect | cli/src/commands/wallet.rs:180-212 | When opening a wallet succeeds, and what is then recorded, prompted, open and closed, in success and in each failure. |
| SessionEffects.WalletCloseEffect | cli/src/commands/wallet.rs:265-290 | Closing succeeds exactly for a recorded wallet that can be closed, and then leaves no wallet and no DID; else nothing recorded changes. |
| SessionEffects.PoolConnectEffect | cli/src/commands/pool.rs:95-138 | When connecting succeeds, and what is then recorded, prompted, open and closed, in success and in each failure; wallet and DID stay. |
| SessionEffects.PoolDisconnectEffect | cli/src/commands/pool.rs:218-237 | Disconnecting succeeds exactly for a recorded pool that can be closed, and leaves wallet and DID alone. |
| SessionEffects.DidUseEffect | cli/src/commands/did.rs:172-194 | A DID becomes active exactly if the recorded wallet is live and knows it; else nothing changes. |
| SessionRuns.LostWalletIsFinal | libindy/src/services/wallet/mod.rs:232-242 | After a failed close that removed the handle, every later wallet open, wallet close and DID use of the session fails and the dead record stays. |
| SessionRuns.WalletLossIsReachable | cli/src/commands/wallet.rs:265-290 | An open and one late-failing close lead any new session there. |
| SessionRuns.LostPoolIsFinal | libindy/src/services/pool/mod.rs:219-230 | After a failed close that removed a pool handle, every later connect and disconnect of the session fails and the dead record stays. |
| SessionRuns.PoolLossIsReachable | cli/src/commands/pool.rs:218-237 | A connect and one late-failing disconnect lead any new session there. |
| SessionRuns.DropClosesEachOnce | cli/src/command_executor.rs:781-795 | After any session, dropping the executor with closes that succeed leaves nothing open and closes each live handle exactly once and no other, in any command order. |
| SessionCommands.Session.WalletOpenCommand | cli/src/commands/wallet.rs:180-212 | The in-place command equals its specification and keeps the session invariant. |
| SessionCommands.Session.WalletCloseCommand | cli/src/commands/wallet.rs:265-290 | The in-place command equals its specification and keeps the session invariant. |
| SessionCommands.Session.PoolConnectCommand | cli/src/commands/pool.rs:95-138 | The in-place command equals its specification and keeps the session invariant. |
| SessionCommands.Session.PoolDisconnectCommand | cli/src/commands/pool.rs:218-237 | The in-place command equals its specification and keeps the session invariant. |
| SessionCommands.Session.DidUseCommand | cli/src/commands/did.rs:172-194 | The in-place command equals its specification and keeps the session invariant. |
| SessionCommands.Session.RunCleanup | cli/src/commands/wallet.rs:214-228 | Cleanup closes a recorded handle and writes the record back. |
| SessionCommands.Session.Drop | cli/src/command_executor.rs:781-795 | The loop over all commands equals the specification, for any order. |
| MerkleHashes.TopInjective | libindy/src/utils/crypto/hash/openssl.rs:48-54 | Two levels of digests of one length with the same root hash are the same level. |
| MerkleHashes.EmptyRootIsItsOwn | libindy/src/utils/crypto/hash/openssl.rs:38-55 | Only the empty log has the root hash of the empty log. |
| ConsistencyProofs.ClimbIsSound | libindy/src/services/ledger/merkletree/mod.rs:93-113 | A climb that ends in both roots, whatever texts it was given, shows that both levels agree before the last old node, and at it if both ways started from one hash. |
| ConsistencyProofs.AcceptedOnlyForPrefixes | libindy/src/services/ledger/merkletree/mod.rs:60-127 | A consistency proof of any content is accepted only if the held leaves are a prefix of the leaves behind the new root and size. |
| ConsistencyProofs.HonestProofIsAccepted | libindy/src/services/ledger/merkletree/mod.rs:60-127 | For every non-empty log and every extension of it the new tree's own hashes on the way up, the last old node and its neighbours, are accepted. |
| ConsistencyProofs.WithoutLookingAtTheProof | libindy/src/services/ledger/merkletree/mod.rs:63-76 | An empty log and a log identical to the target are accepted with any proof; a log longer than the target aborts. |
| ConsistencyProofs.LeftoversAreIgnored | libindy/src/services/ledger/merkletree/mod.rs:82-113 | Hashes that follow an accepted proof do not change the answer. |
| ConsistencyProofs.ProvableIffPrefix | libindy/src/services/ledger/merkletree/mod.rs:60-127 | An accepted proof exists if and only if the new log begins with the held one. |
| MerkleTrees.TreeHash | libindy/src/services/ledger/merkletree/merkletree.rs:28-90 | The root hash of the built tree is the level-by-level root of the leaf hashes. |
| MerkleTrees.BuildSplits | libindy/src/services/ledger/merkletree/merkletree.rs:53-79 | The tree built level by level is one node over the trees of two parts of the list, split where `Split` says. |
| MerkleTrees.SplitIsPower | libindy/src/services/ledger/merkletree/merkletree.rs:53-79 | The left part has as many leaves as the largest power of two below the length of the list. |
| MerkleTrees.SplitGrows | libindy/src/services/ledger/merkletree/mod.rs:11-19 | One leaf more moves the split and adds a level exactly when the leaf count has one bit set. |
| MerkleTrees.FullTreeGrows | libindy/src/services/ledger/merkletree/mod.rs:157-191 | A full tree grows by a new top node over itself and the new leaf. |
| MerkleTrees.PartialTreeGrows | libindy/src/services/ledger/merkletree/mod.rs:134-156 | Any other tree keeps its left part and grows in its right part. |
| MerkleTrees.CountBits | libindy/src/services/ledger/merkletree/mod.rs:11-19 | The loop that clears the lowest bit counts the bits. |
| MerkleTrees.MerkleTree.FromVec | libindy/src/services/ledger/merkletree/merkletree.rs:28-90 | The in-place pairing loops build the tree of the list, with its height and its numbers of leaves and inner nodes. |
| MerkleTrees.MerkleTree.Append | libindy/src/services/ledger/merkletree/mod.rs:129-194 | Appending a leaf gives exactly the tree that building the longer list gives, height and counts included. |
| MerkleTrees.MerkleTree.ConsistencyProof | libindy/src/services/ledger/merkletree/mod.rs:60-127 | The loops over the leaf positions compute the check of the specification, for the tree as it was built or grown. |
| MerkleTrees.MerkleTree.AcceptedMeansExtension | libindy/src/services/ledger/merkletree/mod.rs:60-127 | A proof accepted for this tree means the new log begins with the leaves of this tree. |
| MerkleTrees.ProcessCatchupReply | libindy/src/services/pool/request_handler.rs:675-693 | Received transactions are appended to a copy and the copy is checked against the target, while the held log stays; a reply that completes the target log is accepted whatever its proof, one that goes beyond it aborts. |
| MerkleTrees.CatchupIsExact | libindy/src/services/pool/request_handler.rs:675-693 | An accepted reply holds how the target log goes on after the held one; a reply with as many transactions as are missing holds exactly the missing ones. |
| TrieNodes.DecodedIffItComesBack | libindy/src/services/pool/state_proof/node.rs:51-135 | A node is one that decoding can yield if and only if encoding and decoding it gives it back. |
| TrieNodes.EncodingIsInjective | libindy/src/services/pool/state_proof/node.rs:51-135 | Two such nodes with one encoding, which is what is hashed, are one node. |
| TrieNodes.EmptyListIsNoValue | libindy/src/services/pool/state_proof/node.rs:117-120 | An empty list in the last place of a full node means no value, like an empty text. |
| TrieNodes.WhatIsNoNode | libindy/src/services/pool/state_proof/node.rs:86-135 | Texts of other lengths, lists of other lengths and a list as path are malformed; an empty path panics. |
| TrieNodes.PathToNibbles | libindy/src/services/pool/state_proof/node.rs:223-232 | The loop gives the nibbles of the bytes in order. |
| TrieNodes.CompactIsReadBack | libindy/src/services/pool/state_proof/node.rs:234-242 | Every path of nibbles, of a leaf or an extension, even or odd, has a stored form that is read back as that path and kind. |
| StateProofs.DecodeList | libindy/src/services/pool/state_proof/mod.rs:346 | The loop over the received list stops at its first bad node as the specification does. |
| StateProofs.VerifyProof | libindy/src/services/pool/state_proof/mod.rs:344-362 | The loops that decode the nodes and fill the table compute the specified verdict. |
| StateProofs.FirstBadItemDecides | libindy/src/services/pool/state_proof/mod.rs:346 | The first received item that is no node makes the check panic or reject, whatever follows. |
| StateProofs.DeeperIsSame | libindy/src/services/pool/state_proof/node.rs:172-221 | A lookup that ends does so in one way, however many steps it is allowed. |
| StateProofs.NeverMismarked | libindy/src/services/pool/state_proof/node.rs:192-218 | The two errors for a wrong leaf or extension mark cannot occur on received nodes. |
| StateTries.ContentIsListed | libindy/src/services/pool/state_proof/node.rs:172-221 | The value found at a path is the one the trie lists for that path, and nothing is found exactly if none is listed. |
| StateTries.StoredIsSound | libindy/src/services/pool/state_proof/node.rs:172-221 | From any stored node, a lookup in any table that is right about the hashes it knows ends with what the trie holds, or unfinished or incomplete. |
| StateTries.AcceptedIsReal | libindy/src/services/pool/state_proof/mod.rs:344-362 | Whatever nodes were sent, an expected text accepted under the root hash of a trie is how a value that the trie lists for the key reads, and an accepted absence means that the trie lists none; or the nodes hold a collision of the hash. |
| StateTries.OneAnswer | libindy/src/services/pool/state_proof/mod.rs:344-362 | Collisions apart, all proofs accepted for a key under one root hash have one answer. |
| StateTries.HonestProofIsAccepted | libindy/src/services/pool/state_proof/mod.rs:344-362 | The stored nodes on a key's way are accepted as proof of the text its listed value reads as, or of its absence. |
| StateTries.ProvableIffReal | libindy/src/services/pool/state_proof/mod.rs:344-362 | Collisions apart, a text can be proved for a key if and only if the trie lists a value that reads as it, and absence if and only if the trie lists none. |

## Left out

- RotationProtocol.ResumeCompletes: fairness is stated as a concrete sequence of steps of one uninterrupted attempt; nothing is said about a ledger that never answers.
- RotateKeyCommand.World.Execute: the checks for an active DID, an opened wallet and a connected pool, a DID missing from the wallet and JSON errors are not modelled; each ends the command before its next effect, which interruption covers.
- CommandLineRoundTrip.UnescapeEscape: the numeric escapes of the `unescape` crate, which is not part of this model, are treated as invalid; printing never produces them.
- SessionRuns.LiveHandlesAreRecorded: the handle counter is unbounded; its wrap after 2^31 handles is not modelled.
- RotationProtocol.LateMessagesNeverChangeLedger: several clients for one DID, or requests in flight before the observed run, are outside the model.
- PaymentRequests.ReachingRequests: an empty list of outputs that is written other than as the text `[]` is treated like that text, although the library refuses it; a negative fee, which the plugin itself refuses, is not representable.
- ConsistencyProofs.AcceptedOnlyForPrefixes: the new size is taken to be the number of leaves behind the new root; who vouches for that pair, the vote of the nodes, is not modelled.
- MerkleTrees.ProcessCatchupReply: the received transactions are a list in the order of their numbers, and base58 and serialisation errors, which end the reply without effect, are left out.
- StateProofs.VerifyProof: RLP itself, which writes different trees of lists and texts as different bytes, is not part of this model, and a hash is one of such a tree; how the bytes of a value are read as a text is a parameter.
- The multi-signature over a state root and the making of key and expected value from a reply.
- Inclusion proofs of the Merkle tree and the search for a hash in it; the stored copy of the log.
- Cryptography and signatures: a signer is a key, and the ledger compares it with the current key.
- JSON text, C strings and the extra field of transactions and receipts: replaced by datatypes or dropped.
- Response storage and receipt verification of libnullpay: they change no source.
- The regular expression engine: only the one tuple pattern, as a scanner.
- Optional-parameter variants that accept an empty value, password prompts, help text, tables, tab completion, logging and the rendering of the whole prompt line.
- Plugins, wallet configuration files, the batch script loop and all commands that change neither session, wallet keys nor payments.
- Reading and checking the parameters of `wallet open` and `pool connect`: one flag that says they were accepted, since a refusal has no effect.
- Truly parallel calls into libnullpay from several threads: a check and an application are each one step.
