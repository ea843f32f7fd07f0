# Verified model of the wallet program

A Dafny 4.11 model of the on-chain wallet program, with proofs of what its
documentation promises. A wallet has authorities (owners, admins, spenders) that
sign with an Ed25519 key or a passkey, sessions with spending rules, and
deferred authorisations that are executed by hash in a second transaction.

`dafny verify dfyconfig.toml` checks the whole project.

## What is modelled

The **spending-rule engine** works on the real bytes. `Actions`, `Rules` and
`Validation` give the grammar of the rule buffer and the check at creation;
`Evaluate`, `Snapshots` and `Tokens` the program lists, balances and authority
snapshots; `PostActions` the two read-only passes and the counters rewritten in
place in an array, refining the abstract step of `Limits`. `Limits` and
`WindowBound` prove what the rules add up to over every run of executes, and
`SessionExecute` puts the whole session branch together around a CPI loop in
which each CPI is an arbitrary new account state. `SessionRuns` follows the bytes of a
session account from its creation (`Sessions`) through any sequence of executes and
shows that the rules mean there what they mean in `Limits`. `TokenTotals` says when the
measured loss of tokens is the real one, and `RuleMeaning` what each rule, end date and
error means in the fields of the rules alone.

The **passkey authentication** is `Secp256r1` with `Json`, `Webauthn` and
`Introspection`. The hand-written scanner for clientDataJSON is proved equal to a
member lookup on JSON trees (`JsonText`, following sections 2, 4 and 7 of RFC
8259), and the encoder follows section 5 of RFC 4648. `PasskeyRuns` follows the counter
over every run of calls and says when a payload passes a second time; `PasskeyAccounts`
starts from created accounts. `SignedPayloads` says what each instruction has signed and
what a signature binds, and `AuthorityExecute` is the authority branch of execute.

The **compact-instruction codec** is `Compact` and `CompactRefs`. `Binding` proves
what the two hashes of a deferred authorisation bind, and `Deferred` follows the record
from its writing to its execution. `Guards` writes the conditions of all ways to
execute out on the accounts and bytes, both directions, and `Layouts` fixes the formats
on literal bytes. The hash is any function to 32 bytes; no injectivity is assumed, and
each binding result says "the same, or here are two inputs with the same hash".

The **wallet state machine** is `Ledger`: a class over a map from addresses to typed
accounts, one method for each instruction, each working on a copy that is kept
only on success, as the runtime does. `LedgerRuns` adds what the rest of the world may
do in between and proves the invariant of every reachable state; `LedgerDriver` shows that the methods of
the class are its steps; `LedgerSafety` and
`LedgerTotals` prove role safety, the life of deferred records, what they let run, and
the conservation of lamports; `LedgerGuards` who may do what, both directions, and what
stays when neither owner nor admin acts. `Credentials` and `Sessions` tie the typed
accounts to the bytes written.

Machine integers are integers with their range as a subset type; saturating and
wrapping operations are written out. Derived addresses are constructors, so they are
injective in their seeds. Slots, rent and signatures are inputs.

## Where the code differs from what one would expect

- At a recurring limit of 2^64-1 the saturating sum never exceeds the limit, so the
  window bound fails; `WindowBoundExactly` gives the exact condition.
- Serialising an instruction with more than 65535 data bytes truncates its length;
  `RoundTripExactly` gives the exact condition.
- Reclaiming a deferred record with the record itself as refund account passes all
  guards and loses the lamports inside the handler; `ReclaimConservesExactly` gives the
  exact condition. The runtime, which is not part of this model, rejects such a
  transaction for its unbalanced lamports. For the execution of a record the case cannot
  arise, because the stored payer is a key that signed.
- The comment at `program/src/processor/manage_authority.rs:308` lets an owner remove
  anyone; the code refuses to remove any owner (`:427-431`). The model follows the code.
- The challenge of a passkey names neither the wallet nor the authority account, and a new
  authority starts counting at 0; `AcceptedElsewhere`, `SecondAccount` and `SecondCreation`
  give the exact conditions under which a second account accepts a payload. Signed payloads
  do not name the wallet either. A removal and a revocation are tied to one wallet by the
  account they name (`TargetNamesWallet`); adding an authority
  (`program/src/processor/manage_authority.rs:187-189`), transferring ownership
  (`program/src/processor/transfer_ownership.rs:189-192`), creating a session
  (`program/src/processor/create_session.rs:250-252`) and authorising
  (`program/src/processor/authorize.rs:132-135`) are not, and an execute only as far as its
  instructions list accounts of the wallet.
- The token balance of a mint is a sum that saturates at 2^64-1, over all listed entries. A
  loss of listed tokens is charged in full if and only if the total before is at most that
  (`LossChargedExactly`, with the input of `UnchargedLoss`). An account listed more often
  than another weighs more; `EntriesCoverAccounts` gives the exact condition.
- The scanner takes form feed as whitespace, which JSON does not; it ends with an error at
  the first backslash in any string it passes, wanted or not.

## Model

| member | source | states |
|---|---|---|
| Actions.ParseActions | program/src/state/action.rs:105-142 | the parser accepts exactly the concatenations of at most 16 known-type records and returns one view per record |
| Actions.DecodeRecordsSound | program/src/state/action.rs:105-142 | whatever decodes is byte for byte the encoding of what was decoded: no gap, no trailing byte |
| Actions.DecodeRecordsComplete | program/src/state/action.rs:105-142 | every list of records with representable lengths decodes to itself |
| Actions.ViewsTile | program/src/state/action.rs:122-134 | the views tile the buffer in order, and each payload lies where its view says |
| Rules.RulesOfEncode | program/src/state/action.rs:25-83 | encoding a rule list and reading it back is the identity |
| Rules.EncodeRulesOf | program/src/state/action.rs:25-83 | reading a buffer of rightly sized records and encoding it is the identity |
| Rules.WordAt | program/src/state/action.rs:298-306 | every counter of every rule type is found little-endian at its fixed offset |
| Validation.ValidateActionsBuffer | program/src/state/action.rs:152-271 | creation accepts exactly the encodings of admissible rule lists: right sizes, no whitelist with blacklist, no cap given twice for one asset, fresh recurring state with a window; the whitelist/blacklist conflict has its own error |
| Validation.RepeatedSolCap | program/src/state/action.rs:178-203 | the flag loop finds exactly the SOL cap types given twice |
| Validation.RepeatedMint | program/src/state/action.rs:205-228 | the nested loop over the filtered actions finds exactly the pairs of one type naming one mint |
| Validation.RepeatedCap | program/src/state/action.rs:177-228 | both loops together find exactly two caps of one kind on one asset |
| Validation.StaleRecurring | program/src/state/action.rs:230-268 | the last loop finds exactly the recurring rules that start used or without a window |
| Validation.AcceptedBuffers | program/src/state/action.rs:152-271 | the accepted buffers are the images of the admissible rule lists, each of exactly one list |
| Layouts.AdmissibleMeans | program/src/state/action.rs:152-271 | what creation accepts, in the fields of the rules: at most 16, not both program lists, no two caps of one kind on one asset, recurring caps unused and with a window |
| Layouts.TypeBytes | program/src/state/action.rs:23-57 | the type bytes: 1 to 6 for the caps, 10 for the whitelist, 11 for the blacklist, and no other |
| Layouts.SolRuleBytes | program/src/state/action.rs:74-83 | the literal bytes of a SOL rule: type, size, end date, counters in order |
| Layouts.TokenRuleBytes | program/src/state/action.rs:74-83 | the literal bytes of a token rule, mint before counters |
| Layouts.ProgramRuleBytes | program/src/state/action.rs:74-83 | the literal bytes of a program rule |
| Sessions.ParseCreateSessionArgs | program/src/processor/create_session.rs:53-112 | which inputs are accepted, old 40-byte form included, and that the argument bytes carry exactly the returned arguments |
| Sessions.CarriedDetermines | program/src/processor/create_session.rs:217-225 | the argument bytes that are signed determine key, expiry and actions |
| Sessions.WriteSession | program/src/processor/create_session.rs:298-323 | readers of the written account find type 3, version 1 and each field, execute finds the validated rules |
| Sessions.HeaderFields | program/src/state/session.rs:13-28 | the fields lie at the offsets the session branch of execute reads |
| Sessions.CreatedSessionStores | program/src/processor/create_session.rs:276-323 | a created session stores its admissible rules |
| SessionRuns.Execute | program/src/processor/execute.rs:151-355 | on the bytes: a call succeeds exactly when it is admitted, and leaves the account as one step of the rules with the measured flow says; a refused call changes nothing |
| SessionRuns.SessionFollowsRules | program/src/processor/execute.rs:151-355 | from the created bytes through any sequence of calls: header and length stay, and the stored rules are those of the creation after one event for each admitted call |
| SessionRuns.SessionBounded | program/src/processor/execute_actions.rs:326-581 | over the whole life of a created session: what the admitted calls took, as the engine measures it on vault and listed token entries, is within each lifetime cap, within each recurring limit below 2^64-1 in every aligned window, and nothing after the expiry of a cap |
| SessionRuns.SessionBoundedExactly | program/src/processor/execute_actions.rs:326-581 | the same bounds for the exact losses, in every run whose admitted calls start with a listed total of at most 2^64-1 |
| TokenTotals.LossChargedExactly | program/src/processor/execute_actions.rs:613-650 | whatever happens to the listed accounts, their loss is charged in full if and only if their total before is at most 2^64-1 |
| TokenTotals.UnchargedLoss | program/src/processor/execute_actions.rs:646-650 | a concrete input beyond that: one account listed 245 times loses 2*10^16 units, nothing is charged, and every cap on the mint accepts, expired or not |
| TokenTotals.EntriesCoverAccounts | program/src/processor/execute_actions.rs:622-648 | each entry counts: the loss over the entries covers the loss of the accounts behind them, whatever they hold, if and only if all are listed equally often |
| TokenTotals.TotalIsListed | program/src/processor/execute_actions.rs:613-650 | the measured total is the sum over the entries that hold the mint |
| Evaluate.EvaluatePreActions | program/src/processor/execute_actions.rs:68-136 | passes exactly when every instruction names a permitted program; otherwise reports the first instruction that fails, with its error |
| Evaluate.CollectPrograms | program/src/processor/execute_actions.rs:86-113 | one pass collects the ids of the unexpired rules of each list, and whether a whitelist rule was ever stored |
| Evaluate.ProgramsListed | program/src/processor/execute_actions.rs:123-132 | membership in a collected list is being named by an unexpired rule |
| Evaluate.PermissionsOverTime | program/src/processor/execute_actions.rs:82-85 | with a whitelist the permitted programs only shrink over slots, to none once all entries expired; with a blacklist they only grow |
| RuleMeaning.PermittedMeans | program/src/processor/execute_actions.rs:82-132 | a program is permitted exactly when a whitelist, if one was stored, names it in an entry that is not over, and no blacklist entry that is not over names it |
| RuleMeaning.ExpiredDenyIsVoid | program/src/processor/execute_actions.rs:82-113 | after its end date a blacklist entry bans nothing |
| RuleMeaning.DatesInertForPrograms | program/src/processor/execute_actions.rs:585-589 | up to and including its slot an end date of a program rule makes no difference |
| RuleMeaning.PreCheckMeans | program/src/processor/execute_actions.rs:115-135 | which instructions pass, and which error each refusal has |
| Snapshots.CollectMints | program/src/processor/execute_actions.rs:151-165 | the mints of the token rules, once each |
| Snapshots.MintsListed | program/src/processor/execute_actions.rs:203-218 | a mint is collected exactly when some token rule names it |
| Snapshots.SnapshotTokenBalances | program/src/processor/execute_actions.rs:139-182 | looking a listed mint up in the snapshot gives its balance before the CPIs |
| Snapshots.SnapshotTokenAuthorities | program/src/processor/execute_actions.rs:191-269 | the snapshot holds the authority fields of exactly the vault's token accounts of listed mints |
| Snapshots.AuthorityFrozen | program/src/processor/execute_actions.rs:271-314 | after a passed check every account that counted for a listed mint is still a token account of the vault with the same delegate and close authority |
| Tokens.FindTokenBalance | program/src/processor/execute_actions.rs:613-650 | the saturating loop gives min(2^64-1, exact sum over matching accounts), and None exactly without a match |
| Layouts.AmountMeans | program/src/processor/execute_actions.rs:613-650 | an entry counts with the amount in bytes 64..72 exactly if it is of one of the two token programs, has 165 bytes, and names mint and vault |
| Tokens.DummyIgnored | program/src/processor/execute_actions.rs:602-612 | a zero-balance, foreign or undersized account changes the balance nowhere in the list |
| Tokens.TotalPermuted | program/src/processor/execute_actions.rs:602-612 | the total does not depend on the order of the accounts |
| Tokens.VerifyTokenAuthoritiesUnchanged | program/src/processor/execute_actions.rs:274-314 | accepts exactly when every snapshot is unchanged in the accounts |
| PostActions.EvaluatePostActions | program/src/processor/execute_actions.rs:326-581 | refines the abstract step: accepts exactly the flows all rules accept and then stores the settled rules; otherwise reports the first SOL violation or else the first token violation and changes no byte; the header is never written |
| PostActions.NoErrorIsAcceptance | program/src/processor/execute_actions.rs:350-485 | the two ordered passes report nothing exactly when every rule accepts |
| RuleMeaning.EndDateInert | program/src/processor/execute_actions.rs:585-589 | up to and including its slot an end date makes no difference to what a cap lets through, nor to the counters it leaves |
| RuleMeaning.DatesInert | program/src/processor/execute_actions.rs:350-485 | end dates still to come decide nothing about an execute, for every list of rules |
| RuleMeaning.LifetimeMeans | program/src/processor/execute_actions.rs:372-382 | a lifetime cap that is not over lets through exactly up to what remains, one that is over exactly nothing, and loses exactly what went |
| RuleMeaning.PerTxMeans | program/src/processor/execute_actions.rs:359-371 | a per-transaction cap meters gross outflow for SOL and net loss for a token, and keeps no state |
| RuleMeaning.RecurringMeans | program/src/processor/execute_actions.rs:383-408 | a recurring cap lets through the limit once its window is over and what is left of it before, and leaves spent and window start accordingly |
| RuleMeaning.RefusalMeans | program/src/processor/execute_actions.rs:350-485 | a refusal reports the first SOL cap that refuses, or else the first token cap, with the error of its kind |
| PostActions.CheckSolRule | program/src/processor/execute_actions.rs:354-411 | one round of the SOL pass reads the bytes and decides as the rule does |
| PostActions.CheckTokenRule | program/src/processor/execute_actions.rs:415-485 | one round of the token pass reads the bytes, measures the mint and decides as the rule does |
| PostActions.SettleAction | program/src/processor/execute_actions.rs:491-578 | one round of the writing pass replaces one rule by its settled form in the encoding |
| PostActions.SettleActions | program/src/processor/execute_actions.rs:487-580 | the writing pass settles all rules and leaves the views valid |
| PostActions.SettleLifetimeIs | program/src/processor/execute_actions.rs:499-508 | the saturating subtraction of the writing pass never clips after the checks |
| PostActions.OffsetsKept | program/src/processor/execute_actions.rs:487-489 | after any run, parsing again gives the same rules at the same offsets |
| Patch.RulePatch | program/src/processor/execute_actions.rs:502-506 | overwriting a counter where its view says is the encoding of the list with that counter changed, at the same offsets |
| Limits.LifetimeConserved | program/src/processor/execute_actions.rs:372-382 | over every run: initial remaining = final remaining + measured outflow, for SOL and each mint, with other rules interleaved and rejected executes counting nothing |
| Limits.RuleShapeKept | program/src/processor/execute_actions.rs:487-578 | a run changes nothing of a rule but remaining, spent and last reset |
| Limits.NoOutflowAfterExpiry | program/src/processor/execute_actions.rs:350-353 | once a cap of any kind has expired, no more of its asset leaves; for the SOL per-transaction cap, which meters gross outflow, given that gross covers net, as `SessionExecute.DropsDominate` supplies |
| WindowBound.WindowRun | program/src/processor/execute_actions.rs:383-408 | the invariant over runs: last reset is a multiple of the window and not after the slot, spent is at most the limit |
| WindowBound.WindowBound | program/src/processor/execute_actions.rs:509-527 | in every chronological run of a fresh rule each interval (k*window, (k+1)*window] sees at most the limit, for SOL and per mint |
| WindowBound.SlidingBound | program/src/processor/execute_actions.rs:509-527 | any window of consecutive slots sees at most twice the limit |
| WindowBound.SlidingBoundTight | program/src/processor/execute_actions.rs:509-527 | twice the limit is reached |
| WindowBound.WindowBoundExactly | program/src/processor/execute_actions.rs:403-406 | the bound holds of every run if and only if the limit is below 2^64-1, where the saturating sum hides the overflow |
| SessionExecute.ExecuteSession | program/src/processor/execute.rs:151-355 | succeeds exactly when session, programs, CPIs and limits admit the encoded instructions; then those ran in order and the rules are settled behind an unchanged header; on any error the session is unchanged, and expiry, missing signature and the checks behind the CPIs have their errors |
| SessionExecute.CheckSession | program/src/processor/execute.rs:151-197 | the guards of the session branch: type, stack height, size, wallet, expiry, signer; `Guards.SessionOpenMeans` writes them out |
| Guards.SessionOpenMeans | program/src/processor/execute.rs:151-197 | when a session is open, on its bytes: one signing entry with the key in bytes 40..72 is needed and enough, an unsigned listing is not |
| Guards.AdmittedMeans | program/src/processor/execute.rs:42-352 | everything a session execute depends on, written out on accounts and bytes, both directions |
| Guards.NextCall | program/src/processor/execute.rs:151-352 | from creation on, after any calls: when the next call runs a list, in the terms stated at creation (session key signs, slot not after the stated one, wallet, rules) and with what earlier calls left of the caps |
| Guards.UntouchedMeans | program/src/processor/execute.rs:232-257 | what the CPIs must leave alone: vault owner and data length, and owner, delegate and close authority of the counted token accounts |
| Guards.ExecutedFlowMeans | program/src/processor/execute_actions.rs:326-345 | what is measured of an execute: net loss of the vault and of each mint from before the CPIs to behind them, and the capped sum of single losses; gains count as no loss |
| SessionExecute.InvokeAll | program/src/processor/execute.rs:259-319 | invokes exactly the resolved list in order, never the program itself; tracked gross outflow is min(2^64-1, sum of the single drops) |
| SessionExecute.DropsDominate | program/src/processor/execute.rs:259-319 | gross outflow is at least the net loss between any two points of the CPI sequence |
| SessionExecute.DropsSplit | program/src/processor/execute.rs:259-319 | gross outflow adds up over any split of the CPI sequence |
| SessionExecute.DropsExactly | program/src/processor/execute.rs:259-319 | while the vault only falls, gross outflow is exactly what is gone; while it never falls, zero |
| SessionExecute.PerTxBoundsEveryPrefix | program/src/processor/execute_actions.rs:359-371 | a per-transaction SOL cap bounds the net loss between any two points, and an expired one forbids any |
| SessionExecute.NoPrefixLosesMore | program/src/processor/execute.rs:259-319 | with such a cap an admitted execute never stands more than the cap below its start, after any number of its CPIs |
| SessionExecute.CheckAfter | program/src/processor/execute.rs:319-352 | the checks behind the CPIs accept exactly when the vault is intact and the rules accept the measured flow; otherwise the error is the first of: vault owner, vault data length, token authority, SOL limit, token limit |
| Guards.AfterErrorMeans | program/src/processor/execute.rs:319-352 | which error the checks behind the CPIs report, in the fields of vault, token accounts and caps |
| SessionExecute.FlowsAgree | program/src/processor/execute_actions.rs:421-433 | only the flow of listed mints matters to the verdict and the new counters |
| SessionExecute.ProgramsRestricted | program/src/processor/execute.rs:199-207 | corollary of `ExecuteSession` and `EvaluatePreActions`: every program an admitted execute invokes is permitted by the rules and is not this program |
| SessionExecute.AuthoritiesKept | program/src/processor/execute.rs:232-257 | through an admitted execute every token account that counted for a listed mint keeps its authorities |
| Compact.ParseCompactInstructions | program/src/compact.rs:275-298 | accepts exactly the inputs that start with the serialisation of a parseable list, and returns that list and its serialised length |
| Layouts.EncodesMeans | program/src/compact.rs:275-298 | which lists are read: at most 16 instructions of at most 255 accounts and 65535 data bytes, where the input starts with them |
| CompactRefs.ParseCompactRefs | program/src/compact.rs:119-142 | the borrowing parser accepts the same inputs, consumes as much, and its slices stand for the same list |
| CompactRefs.RefFromBytes | program/src/compact.rs:46-80 | one borrowed instruction is the copied one, errors included |
| Compact.FromBytesSound | program/src/compact.rs:178-212 | whatever one instruction parses from is its own serialisation followed by the rest |
| Compact.FromBytesComplete | program/src/compact.rs:178-225 | a serialised instruction followed by anything parses back |
| Compact.IntoBytes | program/src/compact.rs:158-172 | the pushing loop writes the count and the serialised instructions |
| Compact.UniqueDecoding | program/src/compact.rs:275-298 | input bytes determine the instruction list |
| Compact.RoundTripExactly | program/src/compact.rs:158-172 | serialise then parse, with any suffix, is the identity if and only if no instruction has more than 65535 data bytes, since the length is truncated without an error |
| Compact.Decompress | program/src/compact.rs:84-107 | resolves exactly the instructions whose indexes are all in range, to the named program, the keys behind the indexes and the instruction's own data |
| Compact.ResolvedFields | program/src/compact.rs:84-107 | what runs, on the fields: at every position the named program, the keys behind the indexes in order, and the instruction's own data |
| Compact.ResolvedAlike | program/src/compact.rs:84-107 | lists that resolve alike have equal data and equal keys behind their indexes at every position |
| Guards.SessionInvoked | program/src/processor/execute.rs:259-319 | what an admitted session execute invoked, field by field at every position |
| Guards.AuthorityInvoked | program/src/processor/execute.rs:259-319 | the same for an execute by an authority |
| Guards.DeferredInvoked | program/src/processor/execute_deferred.rs:143-189 | the same for the execution of a record |
| Layouts.CompactBytes | program/src/compact.rs:158-225 | the literal bytes of a list of one instruction |
| Binding.ComputeAccountsHash | program/src/processor/execute.rs:362-404 | hashes the concatenated keys that the instructions resolve to, and fails exactly on an index out of range |
| Layouts.HashedKeys | program/src/processor/execute.rs:362-404 | the literal order of the hashed keys: each program, then its accounts |
| Binding.HashesBind | program/src/processor/execute_deferred.rs:108-118 | two lists with the same two hashes resolve to the same programs, accounts and data, or exhibit a hash collision |
| Binding.SignedPayloadBinds | program/src/processor/execute.rs:129-147 | the payload signed for a direct execute binds what runs in the same way |
| Deferred.ExecuteDeferred | program/src/processor/execute_deferred.rs:31-189 | succeeds exactly on an open record whose hashes match, then the record is drained into the refund account and wiped, and exactly the resolved list ran; on an error nothing changes |
| Guards.DeferredAdmittedMeans | program/src/processor/execute_deferred.rs:52-141 | everything the execution of a record depends on, written out on accounts and bytes, both directions |
| Guards.GrantedExecutes | program/src/processor/execute_deferred.rs:86-118 | a record made for these very instructions and keys executes them exactly for its wallet, up to its expiry, refunded to its payer |
| Binding.CheckHashes | program/src/processor/execute_deferred.rs:102-118 | passes exactly when the parsed bytes and the resolved keys have the stored hashes |
| Deferred.WriteRecord | program/src/processor/authorize.rs:196-216 | whatever was in the account, a reader of the written record finds type 4, version 1, zero padding and exactly the authorisation given |
| Deferred.RecordFields | program/src/state/deferred.rs:14-35 | fields that follow the eight header bytes without a gap are read back by `ReadRecord`, which reads where execution reads |
| Deferred.AuthorisationBindsExecution | program/src/processor/execute_deferred.rs:86-118 | from authorisation to execution: a record executes the very list it was made for, up to its expiry, whatever bytes and accounts are presented, short of a hash collision |
| Json.ExtractTopLevelStringField | program/src/auth/secp256r1/webauthn.rs:69-229 | the index loops compute the scanner function |
| Json.SkipNestedValue | program/src/auth/secp256r1/webauthn.rs:182-218 | the bracket-counting loop computes the skip function |
| Json.ReadMember | program/src/auth/secp256r1/webauthn.rs:102-221 | one member: its verdict, or where to go on |
| JsonText.ExtractIsLookup | program/src/auth/secp256r1/webauthn.rs:69-229 | on every well-formed JSON text, with any nesting, whitespace and escapes, the scanner is the lookup among the top-level members |
| Layouts.KnownObject | program/src/auth/secp256r1/webauthn.rs:69-229 | a known object of one member, byte by byte |
| Layouts.BlankBytes | program/src/auth/secp256r1/webauthn.rs:69-229 | exactly the five whitespace bytes are passed over |
| JsonText.LookupIsFirstMember | program/src/auth/secp256r1/webauthn.rs:64-68 | without escapes the result is the first member of that raw key if it is a string; nested keys and brackets never matter |
| JsonText.ValueSkipped | program/src/auth/secp256r1/webauthn.rs:171-218 | skipping goes over exactly one value whatever it contains, unless one of its strings has an escape |
| JsonText.ScanFinds | program/src/auth/secp256r1/webauthn.rs:102-156 | on any input at all, what is returned is a string that stands behind the quoted field name and a colon |
| Webauthn.Base64UrlEncodeNoPad | program/src/auth/secp256r1/webauthn.rs:7-29 | the chunk loop with shifts and masks computes the sextet encoding |
| Webauthn.DecodeEncode | program/src/auth/secp256r1/webauthn.rs:7-29 | the encoding has a left inverse |
| Webauthn.EncodeLength | program/src/auth/secp256r1/webauthn.rs:7-29 | 4*(n/3) characters plus 0, 2 or 3 |
| Webauthn.EncodeAlphabet | program/src/auth/secp256r1/webauthn.rs:8-8 | only characters of the URL-safe alphabet |
| Layouts.OneByteText | program/src/auth/secp256r1/webauthn.rs:7-35 | the text of each single byte, letter by letter, which fixes the alphabet |
| Layouts.KnownTexts | program/src/auth/secp256r1/webauthn.rs:7-35 | the texts of two known inputs |
| Webauthn.CtEq | program/src/auth/secp256r1/mod.rs:268-277 | the OR of XORs is zero exactly for equal slices |
| Webauthn.ChallengeText | program/src/auth/secp256r1/mod.rs:177-182 | a challenge text is accepted for exactly one hash, and has 43 characters |
| Introspection.AcceptedMeansSigned | program/src/auth/secp256r1/introspection.rs:71-148 | whatever is accepted makes a reader that only follows the embedded offsets see one signature by the stored key over authenticator data and client data hash |
| Introspection.AcceptedIsLayout | program/src/auth/secp256r1/introspection.rs:71-148 | only the one fixed layout is accepted |
| Introspection.LayoutAccepted | program/src/auth/secp256r1/introspection.rs:71-148 | every instruction in that layout is accepted for its own key and message |
| Layouts.OffsetBytes | program/src/auth/secp256r1/introspection.rs:46-148 | the literal bytes of the accepted offset record |
| Introspection.OffsetsRead | program/src/auth/secp256r1/introspection.rs:46-60 | the seven offset fields are read from their places |
| Secp256r1.SplitPayload | program/src/auth/secp256r1/mod.rs:143-161 | splits exactly the encodings of (14-byte prefix, authenticator data, non-empty client data), with nothing behind |
| Secp256r1.BytesSplit | program/src/auth/secp256r1/mod.rs:143-161 | the split of an encoded payload gives its three parts back |
| Secp256r1.CheckClientData | program/src/auth/secp256r1/mod.rs:169-182 | passes exactly when the type is webauthn.get and the challenge encodes the computed hash |
| Secp256r1.CheckSignature | program/src/auth/secp256r1/mod.rs:203-248 | passes exactly when user presence, relying party, sysvar and the previous instruction fit; `Guards.AuthenticMeans` writes them out |
| Secp256r1.CheckFresh | program/src/auth/secp256r1/mod.rs:61-94 | passes exactly at top level, within 150 slots of the stated slot and with the next counter; each refusal has its own error |
| Secp256r1.Authenticate | program/src/auth/secp256r1/mod.rs:46-261 | accepts exactly the authentic payloads; acceptance steps the counter and changes no other byte, a refusal changes nothing, and a stale slot or counter has its own error |
| Guards.AuthenticMeans | program/src/auth/secp256r1/mod.rs:61-248 | everything an authentication depends on, written out on the bytes, both directions |
| Guards.AuthenticFlags | program/src/auth/secp256r1/webauthn.rs:51-53 | whatever authenticates has an odd flags byte and starts with the stored hash of the relying party |
| PasskeyRuns.Handle | program/src/auth/secp256r1/mod.rs:46-261 | on the bytes: one call of the authenticator is one step of the run, accepted or not |
| PasskeyRuns.CounterCounts | program/src/auth/secp256r1/mod.rs:250-257 | over every run the counter is the number of acceptances modulo 2^32 and nothing else of the account changes |
| PasskeyRuns.AcceptanceNumbered | program/src/auth/secp256r1/mod.rs:90-94 | the i-th accepted payload carries i modulo 2^32 from the start value |
| Secp256r1.ChallengeBinds | program/src/auth/secp256r1/mod.rs:113-136 | equal challenges mean equal discriminator, prefix, signed payload, payer, counter and program id, or a hash collision |
| Secp256r1.ClientDataBinds | program/src/auth/secp256r1/mod.rs:169-182 | client data that authenticates two calls was made for one: all six parts agree, or the hash collides |
| PasskeyRuns.AcceptedElsewhere | program/src/auth/secp256r1/mod.rs:61-248 | the exact condition for a payload that one account accepted to be accepted in any other call by any account: the same counter and relying party bytes, the same payer, a slot in the window, the sysvar at the stated index, and a previous instruction that verifies under the key of that account; short of a hash collision. Neither the wallet nor the account's address enters |
| PasskeyRuns.SecondAccount | program/src/auth/secp256r1/mod.rs:90-94 | the same after any two runs of calls: two accounts that start with one counter and relying party accept one payload if and only if they have accepted equally often modulo 2^32 and the second call renews it |
| PasskeyAccounts.CreatedAlike | program/src/processor/manage_authority.rs:252-296 | accounts made for passkeys of one relying party start alike whatever the wallet, the role, the bump and the key, with the counter at 0 |
| PasskeyAccounts.SecondCreation | program/src/processor/manage_authority.rs:252-264 | the exact condition for one credential in two wallets, or removed and added again, from the created bytes through any calls on either account |
| PasskeyAccounts.Authenticable | program/src/auth/secp256r1/mod.rs:46-261 | every passkey account has an authentic payload at every slot, for every request, payer and account list behind payer and sysvar, with any authenticator data that starts with the stored hash and has an odd flags byte, whatever its other flags, count and extensions |
| PasskeyAccounts.SecondCall | program/src/auth/secp256r1/mod.rs:61-248 | the condition of `AcceptedElsewhere` can be met by a second call with another account list, slot and previous instruction |
| PasskeyRuns.ReplayNeedsFullTurn | program/src/auth/secp256r1/mod.rs:71-94 | on one account from one creation on, in any run of calls a payload is accepted twice only with 2^32 acceptances between, and within 150 slots; for other accounts and after a new creation see `SecondCreation` |
| SignedPayloads.PayloadDetermines | program/src/processor/manage_authority.rs:187-199 | the signed payload of each of the seven instructions determines all that was put into it |
| SignedPayloads.ForMeans | program/src/processor/manage_authority.rs:176-201 | the discriminator and the payload that each instruction hands to the authenticator |
| SignedPayloads.OneInstruction | program/src/processor/transfer_ownership.rs:189-201 | what authenticates on one client data is one instruction with one set of arguments, for one payer, program and count, short of a hash collision |
| SignedPayloads.AddSigned | program/src/processor/manage_authority.rs:107-113 | what is signed for a new authority is the instruction data up to the end of the credential, then the payer |
| SignedPayloads.TransferSigned | program/src/processor/transfer_ownership.rs:104-108 | what is signed for a transfer is the instruction data up to the end of the credential, then payer and refund account |
| SignedPayloads.ExecuteSigned | program/src/processor/execute.rs:129-147 | what is signed for an execute is its instruction bytes, then the hash of the keys they resolve to |
| SignedPayloads.AuthorizeSigned | program/src/processor/authorize.rs:85-135 | what is signed for a deferred authorisation is the first 66 bytes of the instruction data |
| AuthorityExecute.ExecuteAuthority | program/src/processor/execute.rs:42-318 | the authority branch of execute, Ed25519 or passkey: succeeds exactly when an authority of the wallet may execute the encoded instructions, then exactly these ran in order and of the account at most the counter changed; on an error nothing changes |
| AuthorityExecute.ExecutedIsSigned | program/src/processor/execute.rs:129-147 | two executes admitted by passkeys on one client data ran the same programs on the same accounts with the same data, for one payer and program, short of a hash collision |
| AuthorityExecute.CheckKeySigns | program/src/auth/ed25519.rs:9-36 | passes exactly when the stored key is among the signers; `Guards.AuthorityAdmitsMeans` writes it out |
| Guards.AuthorityAdmitsMeans | program/src/processor/execute.rs:101-150 | everything an execute by an authority depends on, on accounts and bytes: for a key one signing entry with bytes 48..80, for a passkey an authentic payload |
| Guards.CreatedKeyExecutes | program/src/auth/ed25519.rs:9-36 | an account made for a key executes exactly what that key signs, for its wallet |
| PasskeyRuns.SeedsDistinct | program/src/processor/authorize.rs:147-165 | the counters that seed deferred addresses are pairwise distinct within one turn |
| Credentials.ParseCredential | program/src/processor/manage_authority.rs:77-105 | accepts exactly the data that starts with an allowed credential of the stated kind |
| Credentials.StatedUnique | program/src/processor/manage_authority.rs:107-113 | the signed credential bytes determine the credential |
| Credentials.WriteAuthority | program/src/processor/manage_authority.rs:252-296 | the bytes of a new authority account |
| Credentials.AuthorityFields | program/src/state/authority.rs:9-29 | the fields lie where the two authenticators read them, and the counter starts at zero |
| Ledger.Chain.CreateWallet | program/src/processor/create_wallet.rs:73-293 | when it succeeds, and the new wallet with its first owner |
| Ledger.Chain.AddAuthority | program/src/processor/manage_authority.rs:72-299 | when it succeeds (owners add any role up to 2, admins only spenders), and the whole new state |
| Ledger.Chain.RemoveAuthority | program/src/processor/manage_authority.rs:318-459 | when it succeeds (never oneself, never an owner, admins only spenders, refund elsewhere), and the whole new state |
| Ledger.Chain.TransferOwnership | program/src/processor/transfer_ownership.rs:63-305 | when it succeeds, and the atomic swap of owners |
| Ledger.Chain.CreateSession | program/src/processor/create_session.rs:133-326 | when it succeeds (owner or admin, expiry within 6,480,000 slots, admissible actions), and the new session |
| Ledger.Chain.RevokeSession | program/src/processor/revoke_session.rs:33-157 | when it succeeds, and the closed session |
| Ledger.Chain.Execute | program/src/processor/execute.rs:101-150 | the authority branch: who may execute, and the counter step |
| Ledger.Chain.Authorize | program/src/processor/authorize.rs:42-219 | when it succeeds (passkey owner or admin, window of 10 to 9000 slots), and the record at its counter-seeded address |
| Ledger.Chain.ExecuteDeferred | program/src/processor/execute_deferred.rs:52-141 | who may consume a record by execution and until when, and the close |
| Ledger.Chain.ReclaimDeferred | program/src/processor/reclaim_deferred.rs:25-90 | who may consume a record by reclaiming and from when, and the close |
| Ledger.Chain.Initialise | program/src/utils.rs:54-146 | an account is initialised only where nothing lives; the payer tops it up to the rent |
| LedgerDriver.Perform | program/src/entrypoint.rs:13-38 | the class refines the state machine: each handler, called with the derived addresses it expects, does exactly its step of `LedgerRuns`, and nothing if the step is not enabled |
| LedgerGuards.CreateMeans | program/src/utils.rs:54-146 | when an account can be made, and the balance and content of every account afterwards |
| LedgerGuards.CloseMeans | program/src/processor/manage_authority.rs:447-456 | the balance and content of every account after a close |
| LedgerGuards.AuthenticationMeans | program/src/auth/secp256r1/mod.rs:249-261 | an authentication steps the counter of the passkey used, wrapping at 2^32, and changes nothing else |
| LedgerGuards.MadeAccounts | program/src/processor/create_wallet.rs:233-254 | what the creating instructions put at their addresses |
| LedgerRuns.StepEffect | program/src/processor/manage_authority.rs:318-459 | every instruction changes the contents of exactly the accounts it names, here removal: the target is closed, the counter of the admin stepped, all else kept |
| LedgerRuns.StepChanges | program/src/processor/transfer_ownership.rs:158-302 | every change of any account by any step is one of five: kept but for a counter or session spending, made in its place where nothing lived, closed by an instruction of its own kind, reaped without lamports, or changed from outside without being owned |
| LedgerRuns.GoodKept | program/src/processor/manage_authority.rs:204-212 | every step, outside steps included, keeps the state invariant |
| LedgerRuns.RunGood | program/src/processor/create_wallet.rs:233-254 | in every reachable state every wallet has an owner, roles are 0, 1 or 2, and typed accounts live at their derived addresses |
| LedgerRuns.OwnerStays | program/src/processor/manage_authority.rs:427-431 | an owner stays one in every step but the transfer it signs itself |
| LedgerSafety.OwnersNeverFewerOverRuns | program/src/processor/transfer_ownership.rs:158-302 | over every run the number of owners of a wallet never falls |
| LedgerSafety.SeniorsKeptOverRuns | program/src/processor/manage_authority.rs:403-456 | in a run that no owner of the wallet authenticates, its owners and admins stay the same apart from counters |
| LedgerGuards.StandingKeptOverRuns | program/src/processor/manage_authority.rs:203-212 | in a run that no owner or admin of the wallet authenticates, every authority keeps credential and role, spenders included, every session its key and end, and none is added or removed |
| LedgerGuards.WhoAdds | program/src/processor/manage_authority.rs:203-212 | owners add any of the three roles, admins spenders, nobody else anyone; and they always can where the account can be made |
| LedgerGuards.WhoRemoves | program/src/processor/manage_authority.rs:403-445 | owners remove admins and spenders, admins spenders, nobody an owner or itself; and they always can |
| LedgerGuards.WhoTransfers | program/src/processor/transfer_ownership.rs:63-305 | exactly owners hand on their ownership, to a key that is not all zero |
| LedgerGuards.WhoCreatesSessions | program/src/processor/create_session.rs:133-326 | exactly owners and admins create sessions, ending within 6,480,000 slots |
| LedgerGuards.WhoRevokes | program/src/processor/revoke_session.rs:33-157 | exactly owners and admins revoke sessions of their wallet |
| LedgerGuards.WhoAuthorises | program/src/processor/authorize.rs:99-129 | exactly owners and admins with a passkey authorise, for 10 to 9000 slots |
| LedgerGuards.WhoExecutesSessions | program/src/processor/execute.rs:151-197 | exactly the session key executes, up to the expiry, for its wallet, what the rules accept |
| LedgerGuards.WhoConsumes | program/src/processor/execute_deferred.rs:52-118 | who consumes a record by execution, and who by reclaiming |
| LedgerSafety.RecordsBalance | program/src/processor/execute_deferred.rs:128-141 | over every run the authorisations of an address equal its consumptions plus what is pending |
| LedgerSafety.ConsumedAtMostOnceEach | program/src/processor/authorize.rs:153-216 | each authorisation is followed by at most one execution or reclaim |
| LedgerSafety.ExecutedInTime | program/src/processor/authorize.rs:99-155 | an authorisation is executed with its own hashes and payer, no later than 9000 slots after it was given |
| LedgerSafety.OnlyTheGrantedRuns | program/src/processor/execute_deferred.rs:102-118 | over every run: what a consumed authorisation lets run is the list it was granted for, resolved to the same programs, accounts and data, whoever presents it and with whatever bytes and accounts, short of a hash collision |
| LedgerSafety.TargetNamesWallet | program/src/processor/manage_authority.rs:403-420 | the signed target of a removal, or session of a revocation, is an account of one wallet only, in any two reachable states |
| LedgerSafety.OneWayOut | program/src/processor/reclaim_deferred.rs:64-73 | corollary of the two guards: for a live record, and with all else in order, exactly one of execution and reclaim is open at any slot |
| LedgerTotals.StepConserves | program/src/processor/manage_authority.rs:441-456 | in every reachable state every instruction conserves total lamports under every aliasing its guards admit, but for a reclaim into the record itself |
| LedgerTotals.ReclaimConservesExactly | program/src/processor/reclaim_deferred.rs:75-87 | the reclaim handler conserves lamports if and only if the refund account is not the record |
| LedgerTotals.ReclaimIntoItself | program/src/processor/reclaim_deferred.rs:75-87 | the guards admit the aliased case, and then lamports are missing |
| LedgerTotals.RunConserves | program/src/processor/revoke_session.rs:139-154 | over balanced runs total lamports stay the same |
| LedgerTotals.ClosesItsOwnKind | program/src/processor/transfer_ownership.rs:293-302 | each instruction closes only accounts of its own kind, in the role and slot range it is meant for |

## Left out

- Cryptography: signatures are an input, the hash is an arbitrary function to 32 bytes.
- The runtime: compute limits, account locks and data alignment; a failed transaction is rolled back in full.
- Signer and writable flags passed on to CPIs: the effect of a CPI is arbitrary, so they would not restrict it.
- Accounts that are not listed in a transaction: token rules measure the listed accounts, and so do their properties.
- Mint fields: the check after the CPIs does not compare the mint field of a watched account again, and neither does the model.
- Ledger.Chain.ExecuteDeferred: leaves out the vault address and the CPI loop, because `Deferred.ExecuteDeferred` covers both.
- The mapping between the ledger's derived addresses and the 32-byte account keys: the accounts hash covers the keys of the accounts presented.
- Ledger.Chain.Execute: leaves out what is signed, the CPI loop and the writable flag, because `AuthorityExecute.ExecuteAuthority` covers them on the bytes.
- SessionExecute.ExecuteSession: the session branch only; the authority branch is `AuthorityExecute.ExecuteAuthority`. The session or authority account's bytes are an array of their own, because the runtime keeps CPIs from writing them, and a CPI that fails aborts the transaction.
- LedgerRuns.RunGood: CPIs of an instruction follow it as a separate outside step, which allows more interleavings than the chain does.
- Compact.ParseCompactInstructions: the wrapper without the length and the serialiser wrapper only rename what is modelled.
- The timing of the constant-time comparison: only its result is modelled.
- The instruction facade in `program/src/instruction.rs`, the IDL, the entry point's one-byte dispatch, the SDKs and the scripts hold no further logic to prove.
