# HardKAS in Dafny

A model of the parts of HardKAS in which an error would be silent: the validator of covenant transitions and the ledger it
guards, the canonical form and the hash versions of artifacts, the re-issue of legacy artifacts, lineage and its store, the
multi-party signing of a draft, the settlement of fees, the diff of artifacts and the keystore lock. Pure code is modelled by
functions, code that loops or updates by methods proved against them, and protocols by state machines over their steps.

`dafny verify dfyconfig.toml` checks everything.

| file | about |
|---|---|
| `Common`, `Json` | keyed lists and their sorting, JSON values, decimal texts, string literals |
| `Canonical`, `Paths`, `HashVersions` | the serializer, unique decodability, authenticated paths, versions 1 to 5 |
| `VersionForms`, `JsonReader`, `Utf16` | what each version keeps of texts and paths, reading canonical forms back as JSON, the order of keys |
| `LegacyFields`, `Prune`, `Migration`, `NonInterference` | what a legacy version never authenticated, and re-issuing without whitewashing it |
| `Provenance` | what a re-issue holds, the identity it verifies as, and its link to its source |
| `Exposure`, `Reissues`, `Whitewash` | exactly when stripping is complete and two re-issues agree, and artifacts for which they do not |
| `MigrationPath` | the registry of migration steps and its breadth-first search |
| `Identity`, `Tampering`, `Resolver` | the identity an artifact verifies as, what may change without changing it, lookups over a store with copies |
| `Lineage`, `LineageChain`, `LineageProducer`, `Synthetic` | one link, the walk to the root, what producers stamp, the simulator's authorizations |
| `Covenant`, `Validator`, `SameValues`, `PlannedUnlock` | what a transition is, the validator, argument comparison, the recognizer of signed unlocks |
| `SlotKeys`, `SlotMeaning`, `Inlining`, `SignatureSlots` | which keys a contract checks a signature against, what that means, the inlined function, and the signer slots of an input |
| `Ledger`, `Births`, `Acceptance`, `Conservation` | runs of accepted transactions: covenants and their births, what is spent and paid, value |
| `Diff`, `DiffEntries`, `DiffTexts` | the semantic diff, its entries path by path, and what its path texts keep |
| `Drafts`, `Fees`, `KeystoreLock` | multi-party drafts, fee settlement, the lock protocol |

Hashes, signatures, covenant ids, masses and Unicode normalisation are parameters. What is assumed of them is a named
predicate on the lemma that needs it: `IdsInjective`, `Coherent` (locks determine templates), `HexStable`, `CollisionFree`,
`HashesAreHex`, `Exact` (integer arithmetic on numbers), `CountsInNumbers` (a sequence counts on to a number),
`SixtyFiveBytes`, `MonotoneBelow`, `ReadsSlots` (the slot check of the world is the modelled one).

Six findings differ from what the source or its comments suggest, each with inputs that show it and its exact condition. A
key with a separator survives a migration unstripped (`SeparatorInKeyWhitewashes`): stripping is complete exactly when every
reported key is plain (`StrippedExactlyWhenPlain`). A version-3 source carries its unauthenticated sequence into the re-issue
(`V3SequenceUnauthenticated`), and with plain keys nothing else (`PlainReissuesAlikeExactly`). Keys `$`, nested in any number
from the top, extend the top-level exclusions of a diff to the object below them (`DollarKeyHides`, `TopLevelExactly`). The
keystore lock is safe only when the holding time leaves room for the delay between `stat` and the clock (`LockExact`). Of two
directly adjacent signer slots only the second has its last byte checked (`PlannedExactlyFilled`). The marker that tells a
bigint from the string of its digits does not tell it from the string of the marker and the digits (`BigIntLikeString`).

## Model

| member | source | states |
|---|---|---|
| `Ledger.OneToOneForever` | packages/accounts/src/v1-validate.ts:254-444 | In every run of the ledger, a covenant born in a one-output genesis of a contract whose policies are all one-to-one has, in every later state, at most one unspent output, and that output is locked to the contract's template. |
| `Ledger.BoundOutputsHaveParents` | packages/accounts/src/v1-validate.ts:401-409 | In every run from a sound ledger, an output bound to a covenant outside a genesis enters only in a transaction that spends an output of that covenant, which was unspent in the state before and is gone in the state after. |
| `Ledger.SpentInsideFamily` | packages/accounts/src/v1-validate.ts:302-399 | In every step, an unspent output of a covenant is spent only as a member of that covenant's family, which is one declared transition, under facts with the leader's template and with the spent script as their lock. |
| `Ledger.BoundOutputContinues` | packages/accounts/src/v1-validate.ts:401-409 | One step: every bound output has an input of the same covenant that was unspent. |
| `Ledger.FoundedFresh` | packages/accounts/src/v1-validate.ts:412-423 | One step: the id of a genesis group was never born before, because it commits to an outpoint that is unspent until now. |
| `Ledger.SoundRun` | packages/accounts/src/v1-validate.ts:254-444 | Every run keeps: unspent outpoints have used transaction ids, every live covenant was born, and its founding outpoint is spent and determines its id. |
| `Ledger.AtMostOneStep` | packages/accounts/src/v1-validate.ts:302-480 | One step keeps a one-to-one covenant at no more than one unspent output of its template. |
| `Ledger.BirthOfOne` | packages/accounts/src/v1-validate.ts:410-444 | A one-output genesis leaves exactly that output live in its covenant, locked to the template of the contract it names. |
| `Births.GenesisCommits` | packages/accounts/src/v1-validate.ts:412-423 | Under injective ids, an outpoint and outputs have the id of an accepted genesis exactly when they are the outpoint it spent, unspent until then, and its outputs in its order, each with the amount and script the ledger then holds. |
| `Births.DeclaredIdCommits` | packages/accounts/src/v1-validate.ts:414-423 | The same for the id the plan declares: an accepted one is the id of its own birth and of nothing else. |
| `Births.NewbornCommits` | packages/accounts/src/v1-validate.ts:410-444 | Every covenant that enters the record of births has such an id, recorded under the outpoint spent. |
| `Births.GenesisLocked` | packages/accounts/src/v1-validate.ts:424-443 | In the ledger, the k-th output of a genesis is the lock of the reproduced contract it names: at its k-th state, or as compiled when no states are given. |
| `Births.BornUnder` | packages/accounts/src/v1-validate.ts:410-444 | Every output of a genesis is born into the covenant of its own group and no other. |
| `Acceptance.KeySpent` | packages/accounts/src/v1-validate.ts:254-293 | A coin spent with a key is listed unspent with the plan's amount, in no covenant, of the plan's funder, and its listed script is that of its signer's key where keys are known. |
| `Acceptance.ContractSpent` | packages/accounts/src/v1-validate.ts:266-300 | A coin spent through a contract is listed under the lock of the contract the plan refers to, as reproduced from its record; it is spent as a covenant's exactly when listed as one, under that covenant. |
| `Acceptance.SignedUnlocks` | packages/accounts/src/v1-validate.ts:522-543 | In a signed transaction every input has its unlock: one 65-byte SIGHASH_ALL signature at a key, the planned unlock at a contract. |
| `Acceptance.OutputsAccounted` | packages/accounts/src/v1-validate.ts:545-554 | Every output that enters is in its covenant, or is a declared payment, or is change, which goes to the funder and nowhere else. |
| `Acceptance.WithinLimits` | packages/accounts/src/v1-validate.ts:555-581 | The fee covers the network's floor and stays within the plan's limit, the storage mass is the computed one, and the network is allowed. |
| `Acceptance.NextDeclares` | packages/accounts/src/v1-validate.ts:376-480 | A covenant that moves declares what follows by its lowest input on exactly its continuations; it ends only when that is declared and, of a one-to-one policy, allowed; a recompiled successor is one-to-one, of the same template and another bytecode, the declared artifact, and locks the continuation. |
| `Acceptance.NextNames` | packages/accounts/src/v1-validate.ts:376-398 | Every declared next state is of a covenant with an output unspent until now, which its input spends. |
| `Acceptance.EndedForever` | packages/accounts/src/v1-validate.ts:401-444 | In every run, a covenant without an unspent output never has one again. |
| `Conservation.StepConserves` | packages/accounts/src/v1-validate.ts:249-262 | An accepted transaction takes exactly its fee out of the ledger, and the fee is at least the network minimum and at most the plan's limit. |
| `Conservation.RunConserves` | packages/accounts/src/v1-validate.ts:249-262 | In every run, what has left the ledger is exactly the sum of the fees paid. |
| `Validator.ValidateV1Transition` | packages/accounts/src/v1-validate.ts:243-560 | Acceptance is equivalent to the declarative transition (shape, real inputs, kinds, families, origins, genesis, successors, authorization, scripts, outputs, fee), a refusal carries a code of the first step the plan fails, with every step before it passed; an accepted result carries the plan's fee and, for each covenant input, the role its position in its family gives it. |
| `Validator.CheckRealInputs` | packages/accounts/src/v1-validate.ts:254-262 | No fault exactly when every input is listed unspent with the plan's amount and script. |
| `Validator.CheckKinds` | packages/accounts/src/v1-validate.ts:266-300 | No fault exactly when what the node lists and what the plan declares agree on every input's kind, key, contract and lock. |
| `Validator.GroupFamilies` | packages/accounts/src/v1-validate.ts:303-308 | The grouping loop maps each covenant id to exactly the inputs that spend it, in input order. |
| `Validator.CollectContinuations` | packages/accounts/src/v1-validate.ts:337-338 | The outputs bound to a covenant, all of them, in output order. |
| `Covenant.LeadExact` | packages/accounts/src/v1-validate.ts:315-336 | A family has a lead exactly when its lowest input resolves to a contract, the policy it names has a non-empty entry and a declaration, and both bounds resolve; the lead is then that contract, policy and entry, the first declaration of the policy, and each bound the safe literal written or the safe natural number the named constructor parameter (the first of that name) was given. |
| `Covenant.NextOfExact` | packages/accounts/src/v1-validate.ts:379 | The next state of a covenant is the plan's first entry for it. |
| `Covenant.LowerExact` | packages/accounts/src/v1-validate.ts:254-262 | Ids and scripts are compared exactly up to the case of their letters. |
| `Validator.CheckTemplate` | packages/accounts/src/v1-validate.ts:323-331 | No fault exactly when every member moves with the leader: one template, contract, record and policy. |
| `Validator.CheckRoles` | packages/accounts/src/v1-validate.ts:341-363 | No fault exactly when an auth family has one input and no delegate entry, or a cov family has at most `from` members, its lowest input on the leader entry and every other on the delegate entry; then the roles assigned are those. |
| `Validator.CheckLineage` | packages/accounts/src/v1-validate.ts:364-374 | No fault exactly when every continuation is authorized by a member, and a family without one authorizes no binding. |
| `Validator.CheckNext` | packages/accounts/src/v1-validate.ts:377-398 | No fault exactly when the next state is declared by the leader on the continuations in order, and an ending is declared and allowed. |
| `Validator.CheckFamily` | packages/accounts/src/v1-validate.ts:314-399 | One family: no fault exactly when its inputs and outputs make one declared transition. |
| `Validator.CheckFamilies` | packages/accounts/src/v1-validate.ts:314-399 | No fault exactly when every family of the plan holds; then every covenant input has its role. |
| `Validator.CheckBindings` | packages/accounts/src/v1-validate.ts:402-409 | No fault exactly when every binding continues a covenant spent here, by a member of its family. |
| `Validator.CheckGroup` | packages/accounts/src/v1-validate.ts:412-444 | No fault exactly when the group has the id the network computes and each output is the lock of its contract, at its state when one is given. |
| `Validator.CheckSuccessor` | packages/accounts/src/v1-validate.ts:448-480 | No fault exactly when the k-th continuation is locked to the k-th declared state, or the only one to the recompiled successor of the same template. |
| `Validator.CheckStateArguments` | packages/accounts/src/v1-validate.ts:499-516 | True exactly when every state parameter is given the declared state or states. |
| `Validator.CheckAuthorized` | packages/accounts/src/v1-validate.ts:484-532 | No fault exactly when the input calls an entry with arguments it takes, in slots that resolve, signed as planned when signed. |
| `Validator.CheckOutputs` | packages/accounts/src/v1-validate.ts:545-554 | No fault exactly when every output is a continuation, a genesis output, a declared payment or the funder's change. |
| `Covenant.MembersExact` | packages/accounts/src/v1-validate.ts:303-308 | A family's members are exactly the inputs that spend its covenant, each once, ascending; so its leader is the lowest. |
| `Covenant.ContinuationsExact` | packages/accounts/src/v1-validate.ts:337 | A covenant's continuations are exactly the outputs bound to it, each once, ascending. |
| `Covenant.AcceptedTopology` | packages/accounts/src/v1-validate.ts:302-399 | For every covenant input of an accepted plan: one template; an auth family is that input alone; a cov family has at most `from` members, led by the lowest input, all others on the delegate entry; at most `to` continuations; the k-th declared state is the lock of the k-th continuation. |
| `Covenant.AcceptedStateArguments` | packages/accounts/src/v1-validate.ts:498-516 | For every `State` or `State[]` parameter of an accepted covenant input: the input is its family's leader and the argument equals the states the plan declares, one per continuation. |
| `SameValues.SameValueExact` | packages/accounts/src/v1-validate.ts:139-153 | `sameValue` holds exactly when the two values are equal up to the order in which objects list their members, at every depth. |
| `PlannedUnlock.IsPlannedUnlock` | packages/accounts/src/v1-validate.ts:180-196 | The byte scan with its `inSlot` flag computes the recursive recognizer of the three texts. |
| `PlannedUnlock.PlannedExactlyFilled` | packages/accounts/src/v1-validate.ts:156-196 | For a layout of fixed runs and signer slots, the scan accepts exactly the unlocks that fill the slots with signatures ending in 01 and leave every other byte alone, if and only if some fixed byte stands between any two slots. |
| `PlannedUnlock.SeparatedExact` | packages/accounts/src/v1-validate.ts:180-196 | For layouts with separated slots: accepted exactly when it is such a filling, for any number and position of slots. |
| `SlotKeys.SilverSignatureSlotKeys` | packages/accounts/src/v1-contract-facts.ts:118-210 | The analysis returns, for each `sig` parameter, the slot that all checks reached by the walk decide; it terminates on any source, recursive helpers included. |
| `SlotKeys.SlotScan.Walk` | packages/accounts/src/v1-contract-facts.ts:160-203 | The walk extends its two tables by exactly the checks of the calls it visits, through helpers not already being visited. |
| `SlotKeys.SlotScan.CheckCall` | packages/accounts/src/v1-contract-facts.ts:163-182 | A `checkSig` or `checkMultiSig` call extends the tables by exactly the checks it makes. |
| `SlotKeys.SlotScan.VisitCall` | packages/accounts/src/v1-contract-facts.ts:161-201 | One call extends the tables by its own checks, or by those of the helper it follows. |
| `SlotMeaning.KeyOfNameExact` | packages/accounts/src/v1-contract-facts.ts:134-147 | A name has exactly the key it stands for: a constructor parameter's argument first, then a field's value in the spent state or else the argument of the parameter that initialises it, last the argument of a `pubkey` parameter; each the first of its name, each 32 bytes. |
| `SlotMeaning.DirectChecksExact` | packages/accounts/src/v1-contract-facts.ts:163-182 | A check is among those of a call exactly when the call is written to make it: which signatures, against which keys, or that they cannot be told. |
| `SlotMeaning.ChecksExact` | packages/accounts/src/v1-contract-facts.ts:160-203 | A check is counted exactly when a chain of calls leads to it: each call inside the body before it, helpers not yet on the chain, their parameters standing for the caller's arguments. |
| `SlotMeaning.SlotMeans` | packages/accounts/src/v1-contract-facts.ts:118-210 | A slot is refused exactly when a chain of calls leads to a check of it that cannot be told, or none to one that names a key; otherwise it holds exactly the keys such checks name. |
| `SlotMeaning.StateDecidesSlots` | packages/accounts/src/v1-contract-facts.ts:137-143 | When the body and the helpers name only fields the spent state gives, or arguments, the slots are the same whatever the constructor was given. |
| `SlotMeaning.HelperExact` | packages/accounts/src/v1-contract-facts.ts:184-186 | A call follows the first function of its name that is not an entry. |
| `SlotKeys.Visiting` | packages/accounts/src/v1-contract-facts.ts:183-200 | Following a helper that is not being visited strictly shrinks the set of helpers left, which is why the walk ends. |
| `Inlining.SlotKeysAreInlined` | packages/accounts/src/v1-contract-facts.ts:118-210 | When helpers are not recursive and mention no signature of the caller, every slot is the one the fully inlined body states directly: the same keys in the same order, or the same refusal; and nothing is left to follow in that body. |
| `Inlining.RenamedChecks` | packages/accounts/src/v1-contract-facts.ts:183-200 | Binding a helper's parameters to the caller's names finds the same checks as renaming them in the helper's calls, through any depth of helpers. |
| `Inlining.InlinedCallsNoHelper` | packages/accounts/src/v1-contract-facts.ts:183-200 | A fully inlined body calls no helper. |
| `Inlining.SlotExact` | packages/accounts/src/v1-contract-facts.ts:205-208 | A slot is refused exactly when some check of it cannot be told or it has none; otherwise it holds each key some check names, once. |
| `SignatureSlots.CollectSlots` | packages/accounts/src/v1-validate.ts:199-241 | Succeeds exactly when every argument is a signer at a signature parameter and a value elsewhere, and, given public keys, every signer's key is known and among those its slot is told; the slots are then exactly the signature parameters, in order, with their signers and allowed keys. |
| `SignatureSlots.ReadSlot` | packages/accounts/src/v1-validate.ts:215-239 | One argument: accepted exactly when it fits its parameter, with its slot when that is a signature. |
| `SignatureSlots.FnArgsExact` | packages/accounts/src/v1-validate.ts:208-212 | A parameter's value is the one given at its last position that is given one; a signer gives none. |
| `SignatureSlots.KeyTextExact` | packages/accounts/src/v1-contract-facts.ts:86-87 | A key is compared as two lower-case hexadecimal digits for each byte. |
| `SignatureSlots.AcceptedSigners` | packages/accounts/src/v1-validate.ts:519-523 | In every accepted transaction, over a world that reads slots this way: each signature a contract input takes is left to a signer and nothing else is, and the signer's key is one that some check of that very signature, in the function or a helper it reaches, names, while no check of it is left untold. |
| `Canonical.UniquelyDecodable` | packages/artifacts/src/canonical.ts:233-307 | Under any rules, two values print the same string exactly when they are equal after the rules' exclusions and normalisation, whatever the key order. |
| `VersionForms.StringFormsExact` | packages/artifacts/src/canonical.ts:264-272 | Two strings have one form exactly when, under versions 1 and 2, they are equal, and from version 3, their NFC forms agree once every CR directly before an LF is left out and, under a path key, a backslash is read as a slash. |
| `VersionForms.StringChangeExact` | packages/artifacts/src/canonical.ts:202-307 | Replacing a string inside an artifact leaves its form alone exactly when the version does not cover the path, or reads the two strings alike under the last key on it, through any arrays. |
| `VersionForms.BigIntFormsExact` | packages/artifacts/src/canonical.ts:255-262 | Two bigints have one form exactly when they are equal. |
| `VersionForms.BigIntLikeString` | packages/artifacts/src/canonical.ts:255-272 | A bigint has the form of a string exactly when the string reads as its decimal text, after `n:` from version 2. |
| `JsonReader.CanonicalReadsBack` | packages/artifacts/src/canonical.ts:233-307 | A canonical form is JSON: read as RFC 8259 says, it gives back, to its end, what the rules show of the value, with the members of every object in ascending key order. |
| `JsonReader.ReadQuote` | packages/artifacts/src/canonical.ts:233-307 | A printed string reads back as itself, whatever follows it. |
| `JsonReader.ShortestEscape` | packages/artifacts/src/canonical.ts:233-307 | No text that reads as a character is shorter than what is printed for it. |
| `Utf16.KeyLessExact` | packages/artifacts/src/canonical.ts:297-300 | Keys are ordered by the first difference of their UTF-16 code units. |
| `Canonical.FormsDecideNormal` | packages/artifacts/src/canonical.ts:233-307 | Two values, each under its own version's rules, print the same string exactly when they have the same normal form. |
| `Canonical.PrintPrefixFree` | packages/artifacts/src/canonical.ts:233-307 | A printed value can be told from whatever follows it: equal concatenations have equal values and equal rests. |
| `Canonical.SerializePrintsNormal` | packages/artifacts/src/canonical.ts:233-307 | The recursive serializer prints exactly the value's normal form. |
| `Canonical.KeyOrderIrrelevant` | packages/artifacts/src/canonical.ts:283-306 | The order in which an object lists its members never shows. |
| `Canonical.ObjectsNormalEqual` | packages/artifacts/src/canonical.ts:283-306 | Objects have one normal form exactly when they show the same under every key. |
| `Json.QuotePrefixFree` | packages/artifacts/src/canonical.ts:233-307 | A string literal ends where its closing quote is: equal concatenations have equal strings and equal rests (section 7 of RFC 8259). |
| `Paths.IsAuthenticatedPath` | packages/artifacts/src/canonical.ts:219-231 | The loop that carries the enclosing key decides whether no key on the path is excluded where it sits. |
| `Paths.AuthenticatedPathExact` | packages/artifacts/src/canonical.ts:219-231 | Replacing the value at a path changes the canonical form exactly when the path is authenticated and the new value has another normal form there, for every nesting and array position. |
| `VersionForms.CoveredExact` | packages/artifacts/src/canonical.ts:202-231 | Version 5 covers every path but those below its hash, labels and operational fields at the top level and below lineage.artifactId; the earlier versions every path without a key of their list. |
| `VersionForms.NewlyCoveredExact` | packages/artifacts/src/canonical.ts:43-116 | Moving from version 4 to 5 brings exactly artifactId, hashVersion, events, status, dagContext and sourceSignedId under the hash at the top level, and takes nothing out of it. |
| `VersionForms.EarlierNames` | packages/artifacts/src/canonical.ts:8-80 | Version 4 drops what the earlier versions did but for lineage and parentArtifactId, and seven names besides. |
| `HashVersions.VersionsSeparated` | packages/artifacts/src/canonical.ts:202-211 | No artifact that declares version 5 has the canonical form of one that declares version 1 to 4. |
| `HashVersions.V5DropsWithinV4` | packages/artifacts/src/canonical.ts:202-211 | Whatever version 5 drops, version 4 dropped too, at every depth. |
| `HashVersions.DeclaredVersionExact` | packages/artifacts/src/canonical.ts:172-184 | A version is declared exactly by a number from 1 to 5 under hashVersion. |
| `LegacyFields.LegacyUnauthenticatedMaterialFields` | packages/artifacts/src/canonical.ts:355-378 | The visitor reports the texts of exactly the material paths, in traversal order, and none for the current version. |
| `LegacyFields.Visit` | packages/artifacts/src/canonical.ts:359-376 | The recursive visitor pushes the path texts found below a value, after what was there. |
| `LegacyFields.LegacyPathsExact` | packages/artifacts/src/canonical.ts:359-376 | A path is reported exactly when it is present, holds a value, ends at the topmost key the legacy version drops, and the current version does not drop that key. |
| `LegacyFields.MaterialPathsPromise` | packages/artifacts/src/canonical.ts:355-378 | The reported paths are prefix-free, each is unauthenticated under the legacy version, and they cover every present path that version drops and version 5 authenticates. |
| `LegacyFields.V4PathsAuthenticatedNow` | packages/artifacts/src/canonical.ts:355-378 | Every path reported for a version-4 artifact is authenticated under version 5. |
| `LegacyFields.ReportedPathAuthenticatedNow` | packages/artifacts/src/canonical.ts:355-378 | For any legacy version, a reported path is authenticated under version 5 exactly when its first segment is not a key version 5 drops at the top level. |
| `LegacyFields.LegacyReportBelowDropped` | packages/artifacts/src/canonical.ts:355-378 | A version-3 artifact for which a reported path is not authenticated under version 5 either. |
| `LegacyFields.ParsePathLoop` | packages/artifacts/src/migration.ts:361-370 | The cursor loop over the expression computes the recursive parse. |
| `LegacyFields.ParseRender` | packages/artifacts/src/migration.ts:361-370 | `parsePath` inverts the path texts whose keys are non-empty and free of the three separators. |
| `LegacyFields.ParseBracketed` | packages/artifacts/src/migration.ts:361-370 | Digits in brackets are read as an index, whatever follows. |
| `LegacyFields.ParseSkips` | packages/artifacts/src/migration.ts:361-370 | Any other text is read as the matches of the pattern from the left: with the laws for words and bracketed digits, a separator that begins no index is passed over. |
| `Migration.VerifyMigrationSource` | packages/artifacts/src/migration.ts:332-352 | A verified source declares a version, and its recomputed hash under it is its declared contentHash. |
| `Migration.SourceExact` | packages/artifacts/src/migration.ts:332-358 | A source verifies exactly when it declares a version, its contentHash is the non-empty hash it has under it, and its lineage names no other identity as its own. |
| `Migration.SortLongestOrdered` | packages/artifacts/src/migration.ts:407-409 | Fields are stripped longest path text first, texts of one length in order. |
| `Migration.SealFromVerifiedSource` | packages/artifacts/src/migration.ts:399-489 | The sealing loop over a clone gives the re-issue, or an error when the re-issue does not verify. |
| `Migration.MigrateArtifactToHashVersion` | packages/artifacts/src/migration.ts:603-627 | The migration succeeds exactly for target 5 and a verified older source whose re-issue verifies, and returns that re-issue. |
| `Provenance.ReissueIsChild` | packages/artifacts/src/migration.ts:424-463 | Every issued artifact verifies as the hash it carries and is its source's child: its parent reference is the source's contentHash, its root and line the ones version 4 authenticated or else the source, its sequence the next number. |
| `Provenance.ReissueHolds` | packages/artifacts/src/migration.ts:399-466 | What an issued artifact holds under every key: version 5, its hash, the label of its schema and no other, no artifactId or originalContentHash, what was claimed as unverified claims of its source, and otherwise what stripping left. |
| `Provenance.ReissueFindsSource` | packages/artifacts/src/lineage-chain.ts:36-76 | A store that holds the source gives the re-issue its parent exactly when every object naming the source's identity verifies as it; and it is the source when nothing else names it. |
| `Provenance.ReissueLinks` | packages/artifacts/src/lineage.ts:53-224 | A version-4 source whose lineage is in order and its re-issue make a link that holds strictly, when counting on makes a greater number. |
| `Provenance.ScalarKept` | packages/artifacts/src/migration.ts:399-466 | A top-level text, number or flag under a key the source's version authenticates is taken over as it is. |
| `NonInterference.MigrationNonInterference` | packages/artifacts/src/migration.ts:399-489 | Two verified version-4 sources with equal version-4 forms are re-issued as version-5 artifacts that, without `legacyClaims`, have equal version-5 forms. |
| `NonInterference.StripSourceExact` | packages/artifacts/src/migration.ts:399-440 | Stripping deletes every reported path but hashVersion, and claims exactly what it deleted. |
| `NonInterference.StrippedValueClaimed` | packages/artifacts/src/migration.ts:399-489 | Every value a legacy version never authenticated is found in the re-issue under its path in `legacyClaims.fields`. |
| `NonInterference.ClaimsOnlyReported` | packages/artifacts/src/migration.ts:399-489 | Nothing else is claimed: a claim's key is the text of a reported path, or artifactId. |
| `Prune.PrunedNormal` | packages/artifacts/src/migration.ts:381-395 | Deleting exactly the material paths of a value leaves, under the current rules, the normal form the legacy rules gave. |
| `Prune.PrunedKeepsBeside` | packages/artifacts/src/migration.ts:381-395 | Deleting at other paths leaves the value at a path beside them where it was. |
| `Prune.PrunedIsGone` | packages/artifacts/src/migration.ts:381-395 | After deletion nothing is at a deleted path. |
| `Exposure.StrippedExactlyWhenPlain` | packages/artifacts/src/migration.ts:399-440 | For every legacy version and every source: stripping removes every reported path but hashVersion if and only if every reported path has only keys that are non-empty and free of the three separators. |
| `Exposure.NotPlainStays` | packages/artifacts/src/migration.ts:361-395 | A reported path with another key is never stripped: its value stays where it was, and as it was. |
| `Reissues.ReissuesAlikeExactly` | packages/artifacts/src/migration.ts:399-489 | Two verified sources of version 3 or 4 with one form have, without `legacyClaims`, one version-5 form after re-issue if and only if version 5 sees the same at the paths no text can carry and, for version 3, their sequences count on to one number. |
| `Reissues.PlainReissuesAlikeExactly` | packages/artifacts/src/migration.ts:399-489 | With plain reports: if and only if their sequences count on alike, so always for version 4. |
| `Whitewash.SeparatorInKeyWhitewashes` | packages/artifacts/src/migration.ts:361-395 | With a dot in a key the promise fails: for any issued version-4 artifact with such metadata, changing a flag version 4 never authenticated keeps the form and the verdict, and the migration issues both with different version-5 forms. |
| `Whitewash.AssumptionWhitewashed` | packages/artifacts/src/migration.ts:603-627 | One such pair, written out: two assumption artifacts with schema, version and hash that the migration re-issues with different version-5 forms. |
| `Whitewash.V3SequenceUnauthenticated` | packages/artifacts/src/migration.ts:399-489 | For any issued version-3 artifact with a sequence and plain reports: with another sequence it has the same form and is issued too, and the two version-5 forms are equal if and only if both sequences count on to one number. |
| `Whitewash.AssumptionRecounted` | packages/artifacts/src/migration.ts:603-627 | The same for a version-3 assumption artifact written out, for any two sequences. |
| `MigrationPath.Registry.RegisterMigrationStep` | packages/artifacts/src/migration.ts:131-142 | A step is registered unless one between the same two versions is; otherwise nothing changes. |
| `MigrationPath.Registry.GetMigrationPath` | packages/artifacts/src/migration.ts:253-291 | The search ends on any registry, cyclic or not; what it returns is a chain of registered steps from source to target, no longer than any other, and it is empty exactly when the versions are equal or no chain exists. |
| `MigrationPath.Follow` | packages/artifacts/src/migration.ts:269-288 | One round of the search either returns a chain to the target through the current version or queues exactly the new versions one step away. |
| `MigrationPath.VersionsDecideChain` | packages/artifacts/src/migration.ts:131-142 | Because no pair of versions is registered twice, the versions a chain passes through say which steps it applies. |
| `Identity.CheckArtifactIdentity` | packages/artifacts/src/resolve.ts:315-344 | An identity is given only to an artifact that declares a version, hashes to that identity under it, and names it as its contentHash. |
| `Tampering.ChangeExact` | packages/artifacts/src/resolve.ts:315-344 | A value may be put under a top-level key of a verified version-5 artifact without changing its identity exactly when: the key is operational; or it is the contentHash, version or derived label itself; or an absent artifactId; or version 5 shows it as before, a lineage names no other identity and a schema fits the labels. |
| `Identity.FalsyExactly` | packages/artifacts/src/lineage.ts:33-35 | Exactly undefined, null, false, 0, NaN, 0n and the empty string count as false. |
| `Identity.StrictlyEqual` | packages/artifacts/src/lineage.ts:87-168 | `===` never holds of two objects or arrays, nor of NaN, and of anything else is equality. |
| `Resolver.Resolve` | packages/artifacts/src/resolve.ts:413-484 | Collect and pick answer: an error while some claimant does not verify, not-found without claimants, ambiguous when claimants verify as different identities, and otherwise the first claimant with every claimant's path as a copy. |
| `Resolver.Collect` | packages/artifacts/src/resolve.ts:413-437 | Nothing is invalid exactly when every claimant verifies as an accepted identity, and then the valid candidates are the claimants in store order. |
| `Resolver.Pick` | packages/artifacts/src/resolve.ts:447-482 | The outcome from the groups: invalid first, then missing, then ambiguous, else the only group. |
| `Resolver.ByIdExact` | packages/artifacts/src/resolve.ts:413-484 | A lookup by artifactId is never ambiguous: it finds exactly when some object names the identity (as contentHash, as its lineage's own id, or by hashing to it) and every one that does verifies as it; it is not found exactly when none names it; otherwise it fails closed. |
| `Resolver.LookupIgnoresLayout` | packages/artifacts/src/resolve.ts:413-484 | Two stores with the same claiming artifacts, in any order, under any paths and in any number of copies, give the same failure or the same identity. |
| `Resolver.CopiesAgree` | packages/artifacts/src/resolve.ts:447-482 | All claimants of a successful lookup have one canonical form (hashes not colliding on them), and version 5 is declared by all or by none. |
| `Resolver.Representatives` | packages/artifacts/src/resolve.ts:277-282 | The map holds, for every verified identity and no other, the copy the order puts first. |
| `Resolver.DistinctArtifacts` | packages/artifacts/src/resolve.ts:275-284 | The list is, in store order, exactly the entries that do not verify and the first copies of identities, and its length is the number of identities plus the number of unverified entries. |
| `Resolver.CountArtifacts` | packages/artifacts/src/resolve.ts:291-296 | The count is the number of identities plus the number of unverified entries, which is the length of that list. |
| `Resolver.CopyOrder` | packages/artifacts/src/resolve.ts:257-260 | The order of copies is total, asymmetric and transitive, so the first copy does not depend on the order of the store. |
| `Resolver.NestedCopyFirst` | packages/artifacts/src/resolve.ts:257-284 | A copy at the store root represents an identity only when every copy is there; among the others the first path does. |
| `Lineage.VerifyLineage` | packages/artifacts/src/lineage.ts:17-224 | The verifier reports, in order, the issue of every broken rule; with a parent it accepts exactly linked artifacts, strictly or not, and without one exactly those that stand alone. |
| `Lineage.LinkHoldsExact` | packages/artifacts/src/lineage.ts:53-224 | A link holds exactly when: the block's ids are hashes, the parent reference is the parent's id and not its own, lineage and root ids are the ones the parent hands on (its own id where it has none), its id is its contentHash, network and mode agree and the transition is allowed; and strictly, when also the sequence rises. |
| `Lineage.AloneHoldsExact` | packages/artifacts/src/lineage.ts:53-102 | Checked alone, an artifact passes exactly when its own id is a hash equal to its contentHash if it has one, and: as a version-5 root it has no lineageId or rootArtifactId, otherwise its three ids, and its parent's if it names one, are hashes. |
| `Lineage.AbsentHoldsExact` | packages/artifacts/src/lineage.ts:33-51 | Without a lineage block only a strict check fails, and not of observations, snapshots and workflows. |
| `Lineage.HashExact` | packages/artifacts/src/lineage.ts:55 | A hash is a text of 64 hexadecimal digits in either case. |
| `Lineage.TransitionsExact` | packages/artifacts/src/lineage.ts:175-216 | A child may follow a parent exactly as a migration receipt between their schemas allows, as one of seven successions, or as another spelling of one schema. |
| `Lineage.ParentNamed` | packages/artifacts/src/lineage.ts:230-257 | createLineageTransition names the first of the parent's contentHash, artifactId, planId and signedId that has a value, or sixty-four zeros; the parent's line and root, or else that name; and the next number. |
| `LineageChain.ResolveParent` | packages/artifacts/src/lineage-chain.ts:36-76 | A parent is found only under the reference of the artifact, and then verifies as it; no reference is a root. |
| `LineageChain.ReferenceExact` | packages/artifacts/src/lineage-chain.ts:36-45 | Which parent an artifact refers to, in its lineage block or, without that member, at the top level. |
| `LineageChain.FirstNamed` | packages/artifacts/src/lineage-chain.ts:98-110 | A chain's first member goes by the identity it verifies as, or else by the hash it claims. |
| `LineageChain.ResolveExact` | packages/artifacts/src/lineage-chain.ts:47-76 | What a lookup of a reference answers: invalid, found, missing or unresolved, in terms of the resolver's answer and of what the store's objects name and verify as. |
| `LineageChain.ResolveLineageChain` | packages/artifacts/src/lineage-chain.ts:98-149 | The walk ends with at most maxHops+1 links and no name twice, its links name members each found from the one before, and it is complete exactly when a complete chain of at most that length exists. |
| `LineageChain.CompleteChainShares` | packages/artifacts/src/lineage-chain.ts:98-149 | In a complete chain from an artifact with a lineage block, all members share networkId and mode, all but the root share lineageId and rootArtifactId, each ancestor verifies as its child's reference, and no child's sequence is at or below its parent's. |
| `LineageChain.SequencesFall` | packages/artifacts/src/lineage-chain.ts:98-149 | With integer sequences, a complete chain counts strictly down to its root, between any two members. |
| `LineageChain.RootFollows` | packages/artifacts/src/lineage-chain.ts:98-149 | When every link holds, the root reached is the one the first member declares: that check never fails on its own. |
| `LineageProducer.SealedBelow` | packages/artifacts/src/lineage.ts:230-257 | Stamping a draft with createLineageTransition below a sealed version-5 member and sealing it gives a member that verifies as its hash, of the same root, one further on. |
| `LineageProducer.LineStands` | packages/artifacts/src/lineage.ts:53-102 | Every stamped member of a produced line passes alone, strictly; its root passes exactly when it carries neither a lineageId nor a rootArtifactId. |
| `LineageProducer.TransitionBelow` | packages/artifacts/src/lineage.ts:230-257 | createLineageTransition below a sealed member names that member, its root and the next number. |
| `LineageProducer.SequencesSeparate` | packages/artifacts/src/lineage.ts:230-257 | Sealed members with different sequence numbers have different identities (hashes not colliding on them), through the injectivity of canonical forms. |
| `LineageProducer.ProducedIsComplete` | packages/artifacts/src/lineage-chain.ts:98-149 | Any line of artifacts stamped below a sealed version-5 root, along allowed transitions on one network and in one mode, is a complete chain of a store that holds it, and a candidate for the walker up to its hop limit. |
| `Synthetic.CreatedIsAuthorized` | packages/artifacts/src/signed-tx.ts:98-150 | What the simulator signs for a plan, stamped by createLineageTransition and sealed, always passes the authorization check, alone and for that plan, naming the plan's identity, its transaction id and its owner. |
| `Synthetic.CreatedVerifies` | packages/artifacts/src/signed-tx.ts:98-150 | Signed below a sealed version-5 plan, it is itself a sealed version-5 member of the plan's lineage, verifies as its hash, and is one further on. |
| `Synthetic.AuthorizationBindsOnePlan` | packages/artifacts/src/signed-tx.ts:174-300 | Two plans accepted under one authorization have the same version-5 canonical form (their hashes not colliding), the same addresses, amount and network as it describes, and their owner is among its signers. |
| `Synthetic.AuthorizationExact` | packages/artifacts/src/signed-tx.ts:174-262 | An authorization stands alone for a plan and signers exactly when it is a synthetic one that names the plan by its hash and lists them sorted and once, with the status, payload, transaction id and signatures that go with them. |
| `Synthetic.MultisigDescends` | packages/artifacts/src/signed-tx.ts:290-296 | A multisig authorization accepted for a plan has the plan's root, or the plan itself as root. |
| `Synthetic.TextOfScalars` | packages/artifacts/src/signed-tx.ts:283-289 | `String(value)` of a flag, a number or null is what JSON prints for it. |
| `Synthetic.CompleteHasThreshold` | packages/artifacts/src/signed-tx.ts:237-268 | A complete multisig authorization has the owner and at least the threshold of signers, all of them required ones; they are distinct and exactly those of the entries wherever no signer text holds the separator the lists are joined with. |
| `Diff.DiffArtifacts` | packages/artifacts/src/diff.ts:35-48 | The diff is identical exactly when both sides are equal up to what is not compared (and hold no NaN); when none of its entries is secret, applied to the left it gives the right; entries that are not secret reveal no secret. |
| `DiffEntries.EntriesExact` | packages/artifacts/src/diff.ts:50-120 | A path has an entry exactly when the sides differ there as a whole and are compared member by member above it; the entry has the kind, and both sides' values at that path, or only that it is secret when a key on the path or a value involves a secret. |
| `Diff.IdenticalExactly` | packages/artifacts/src/diff.ts:68-120 | At any path: no entry exactly when both sides are equal up to what is not compared and hold no NaN. |
| `Diff.DiffPatches` | packages/artifacts/src/diff.ts:68-120 | At any path: entries without secrets, applied in order to the left, give the right. |
| `Diff.DiffKeepsSecrets` | packages/artifacts/src/diff.ts:50-120 | An entry not flagged secret has no secret-named key on its path or anywhere in the values it carries; a flagged one carries no value. |
| `Diff.SecretSomewhere` | packages/artifacts/src/diff.ts:62-66 | `holdsSecret` is true whenever some path into the value has a secret key. |
| `Diff.SecretFound` | packages/artifacts/src/diff.ts:62-66 | When `holdsSecret` is true there is such a path. |
| `Diff.CompareRecursive` | packages/artifacts/src/diff.ts:68-120 | The recursion appends exactly the entries of the comparison, at their paths. |
| `Diff.TopLevelExactly` | packages/artifacts/src/diff.ts:35-42 | The keys left out are the named top-level ones, as documented, if and only if `$` is one of them or no chain of one or more keys `$` leads to an object with one of them. |
| `Diff.TopLevelDiffsAgree` | packages/artifacts/src/diff.ts:35-42 | Where that holds on both sides, the diff is empty exactly when the documented one is. |
| `Diff.DollarKeyHides` | packages/artifacts/src/diff.ts:38-40 | Otherwise a difference can go unseen: at every depth of keys `$`, the documented diff has an entry and the code's has none. |
| `DiffTexts.TextInjective` | packages/artifacts/src/diff.ts:68-120 | Two paths whose keys are plain and that have one text are one path. |
| `DiffTexts.RecordedDiffPatches` | packages/artifacts/src/diff.ts:50-120 | On artifacts with plain keys, what is recorded under path texts reads back as the entries, so without secrets it turns the left side into the right. |
| `DiffTexts.DefaultDiffDecidesForms` | packages/artifacts/src/diff.ts:35-48 | In the default mode artifacts without a difference have one canonical form under versions 1 to 3. |
| `Drafts.SignV1Draft` | packages/accounts/src/v1-draft.ts:151-176 | Signing succeeds exactly when the draft checks, the account has slots, the key is the one each is checked against and every signature made verifies; then exactly its slots are signed anew. |
| `Drafts.DraftBinds` | packages/accounts/src/v1-draft.ts:66-80 | A contentHash names one draft of one plan and transaction: two drafts that check under it, with bodies whose hashes do not collide, are equal. |
| `Drafts.TamperedIsRefused` | packages/accounts/src/v1-draft.ts:66-80 | A draft whose body was changed under its contentHash is neither signed nor combined. |
| `Drafts.CombineV1Drafts` | packages/accounts/src/v1-draft.ts:185-201 | Combining succeeds exactly when all drafts check, are of one transaction, plan and slots, and carry only valid signatures; each slot then has the lowest signature any of them has. |
| `Drafts.VerifySlotSignatures` | packages/accounts/src/v1-draft.ts:86-100 | True exactly when every present signature is valid for its slot's key. |
| `Drafts.CombineIgnoresOrder` | packages/accounts/src/v1-draft.ts:185-201 | Combining is commutative and idempotent on slots: drafts with the same members in any order and number give the same slots. |
| `Drafts.CombineInGroups` | packages/accounts/src/v1-draft.ts:185-201 | Combining is associative on slots: combining with a combination gives what combining everything gives. |
| `Drafts.CombinedChecks` | packages/accounts/src/v1-draft.ts:185-201 | A combination passes the draft check, is of the same transaction and slots, and every signature in it is valid. |
| `Drafts.CombinedSigned` | packages/accounts/src/v1-draft.ts:194-197 | A slot is signed in a combination exactly when it is in some operand, by one of their signatures, and by none higher than any. |
| `Drafts.EveryDraftIsKin` | packages/accounts/src/v1-draft.ts:60-201 | Over every interleaving of signing and combining from one prepared draft, every draft around checks, has the prepared transaction, plan and slots, and carries only valid signatures. |
| `Drafts.AnyDraftsCombine` | packages/accounts/src/v1-draft.ts:185-201 | Whatever drafts are around can be combined. |
| `Drafts.SignedExactlyBySigners` | packages/accounts/src/v1-draft.ts:151-201 | In every run from an unsigned draft, a slot is signed in some draft exactly when its signer has signed. |
| `Drafts.FullySignedExactly` | packages/accounts/src/v1-draft.ts:151-201 | Combining all drafts around gives a fully signed one, of the prepared transaction and plan, exactly when the signer of every slot has signed. |
| `Drafts.CheckFinal` | packages/accounts/src/v1-draft.ts:210-250 | No fault exactly when the draft checks, is fully signed, has the slots and keys the plan and the node give, and every signature is valid. |
| `Drafts.FinalIsSigned` | packages/accounts/src/v1-draft.ts:210-250 | Whoever sealed it, a draft that can be finalized has exactly the slots the plan and the node give, each signed for its input by a key the slot is checked against. |
| `Drafts.FinalizesExactly` | packages/accounts/src/v1-draft.ts:210-250 | After any run, the combination of all drafts can be finalized exactly when every signer has signed. |
| `Fees.SettleFee` | packages/accounts/src/silver-covenant.ts:62-85 | The loop computes the bounded iteration; an explicit fee is used as given exactly when it covers the minimum of its own transaction. |
| `Fees.SettledCovers` | packages/accounts/src/silver-covenant.ts:62-85 | A settled fee covers the requirement of the very transaction it leaves behind, and is the last fee tried. |
| `Fees.TriedRises` | packages/accounts/src/silver-covenant.ts:74-83 | The fees tried strictly increase, and each before the last was too low for its own transaction. |
| `Fees.SettledIsLeast` | packages/accounts/src/silver-covenant.ts:74-83 | For a measure monotone below the last fee that can be built (where a change output may disappear), the settled fee is the least that pays for itself; unsettled rounds show that none is below any fee tried; and funds never look insufficient when a fee below the last pays for itself. |
| `Fees.LeastWithChange` | packages/accounts/src/silver-covenant.ts:146-181 | For a genesis or a funding whose measure is monotone while change is left: the settled fee is the least that pays for itself, and a fee that pays for itself and leaves change is never refused for want of funds. |
| `Fees.SettlesExactly` | packages/accounts/src/silver-covenant.ts:74-83 | The loop settles within its rounds if and only if fewer raises than rounds reach a fee that pays for itself. |
| `Fees.SettlesOverFewValues` | packages/accounts/src/silver-covenant.ts:74-83 | Whatever the measure, the rounds never run out when the transactions in reach ask for fewer different fees than there are rounds. |
| `Fees.SettledBalances` | packages/accounts/src/silver-covenant.ts:62-85 | A settled transaction spends its inputs exactly on its outputs and a fee that meets the minimum and the rate of that very transaction. |
| `Fees.BuildersBalance` | packages/accounts/src/silver-covenant.ts:146-181 | Genesis, transition, sweep and funding transactions all satisfy inputs = outputs + fee, for every fee they can be built with. |
| `Fees.BuildersPay` | packages/accounts/src/silver-covenant.ts:146-181 | A genesis or funding pays the value first and exactly what is left, if anything, second; a transition or sweep pays all but the fee in one output that is never empty. |
| `Fees.SweepFee` | packages/accounts/src/silver-spend.ts:150-166 | The sweep's loop with its `converged` flag is the same iteration over the whole value less the fee. |
| `Fees.PricePrefix` | packages/accounts/src/silver-funding.ts:92-109 | The inner loop is the same iteration over the selected outputs. |
| `Fees.BuildScriptFunding` | packages/accounts/src/silver-funding.ts:85-112 | The first prefix that settles is spent, on exactly the value, a change that is not negative and its fee; every shorter prefix was passed over; funds are insufficient only when every prefix was. |
| `KeystoreLock.LockExact` | packages/accounts/src/keystore-lock.ts:4-83 | In every interleaving of any number of processes in which holders and lookers keep their times, at most one process is inside the lock and the file holds exactly the appends the actions finished, in that order and never cut off, if and only if the holding time and the delay between looking at the lock file and reading the clock together fit in the stale timeout. |
| `KeystoreLock.RunSafe` | packages/accounts/src/keystore-lock.ts:4-83 | When they fit, every such run keeps: the lock file is its holder's, what a holder read is what the file holds, and the keystore is the completed appends in lock order. |
| `KeystoreLock.StepSafe` | packages/accounts/src/keystore-lock.ts:4-83 | One step of any process keeps that. |
| `KeystoreLock.RaceRuns` | packages/accounts/src/keystore-lock.ts:20-25 | When they do not fit, twelve steps lead to two processes inside: a looker that read the age of a lock about to be released removes the lock of the next holder. |

## Left out

- Validator.ValidateV1Transition: does not say which of the first failing step's codes a refused plan gets, nor the messages and warnings; acceptance is exact.
- Validator.CheckAuthorized: takes the matching of accounts to slot keys and the encoding of unlocks as foreign answers of the world; the matching is modelled apart, in SignatureSlots.
- Migration.SealFromVerifiedSource: takes the strict verification of the finished artifact as a foreign answer; its two error codes are one; deleting reads a key segment only as an object's own member, so an array indexed by a key text and members inherited from Object.prototype are outside.
- Lineage.VerifyLineage: treats a schema that is not a string as absent, where the code would throw on some of them.
- SlotKeys.SilverSignatureSlotKeys: keys are 32-byte sequences, turned into their hexadecimal text where they are compared; names inherited from Object.prototype are ordinary names.
- Resolver.Resolve: the tables of schemas behind the plan, signed, tx and workflow namespaces are the query's test; paths and untyped inputs are not resolved.
- Synthetic.CreatedIsAuthorized: the members of the signed artifact that neither the check nor the lineage reads are given as a list.
- Diff.DiffArtifacts: entries hold structured paths, where the code records their texts; `DiffTexts` states when the texts lose nothing.
- Drafts.CombineV1Drafts: two spellings of one slot that differ only in member order count as the same slot.
- KeystoreLock.LockExact: a crash inside the lock is a holder that does not keep its time; file system errors other than an existing lock are not modelled.
- Numbers are the texts JSON.stringify prints; strings are sequences of Unicode scalar values, so lone surrogates are not modelled, nor are functions, symbols, dates, maps and sets inside artifacts.
- kaspa-wasm, silverc and the node: transaction ids, signature hashes, BIP340, P2SH locks, covenant ids and masses are parameters.
- assertV1PlanShape and silverDeclarationBound are modelled from their use: the plan's shape is a predicate, what a bound resolves to is `BoundIs`.
- The migration between schema versions (migrateArtifactPayload) and its receipts, which rename fields before sealing.
- Broadcasting, node status, receipts and the derivation of a simulated fee: single sums and lookups.
- Reading the store from disk, containment of paths, byte order marks, keystore encryption and key generation.
- Zod schemas, constants, formatters, the CLI and the documentation generators.
