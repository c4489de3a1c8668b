# Verified models of a household finance backend

This project models the algorithms and protocols of the backend that carry hard invariants, and proves those invariants
in Dafny. `dafny verify dfyconfig.toml` checks everything. The clusters share little but the two files of the last row.

| files | what they model |
|---|---|
| `UnionFind`, `Components`, `DatasetSplit`, `DatasetSplitTheorems`, `DatasetSplitMeaning` | splitting a training dataset into train, validation and test without leakage |
| `JsonText`, `CanonicalJson`, `CanonicalJsonTheorems` | canonical JSON, the text under which groups, labels and rows are hashed |
| `DatasetArtifact`, `StableSort`, `DatasetArtifactTheorems`, `DatasetArtifactMeaning` | dataset artifacts: checked examples with their splits as lines of canonical JSON; stable sorting by a collation |
| `RemoteAuth`, `RemoteAuthStorage`, `RemoteAuthTheorems`, `RemoteAuthHistory`, `RemoteAuthConsent` | the OAuth store of the MCP server: codes, tokens, grants, revocation |
| `GrantQueue`, `SessionProtocol`, `SessionHistory` | the per-grant queue and the rotating upstream cookie behind it |
| `BankRunner`, `BankRunnerRecovery` | the crash-safe bank runner: durable state file, parent loop, child phases |
| `ProcessTree`, `Lease` | the runner's owned process tree and the lock held until cleanup is confirmed |
| `SmsRetention`, `SmsPurge` | deleting three copies of raw messages with fallible calls |
| `Lineage`, `LineageTheorems`, `LineageMeaning` | training runs, models and aliases under revocation, with trainers at work |
| `MerchantTruncation`, `MerchantTruncationTheorems`, `MerchantTruncationMeaning` | grouping merchant names cut short |
| `Spans`, `Recipe`, `RecipeMeaning`, `MerchantCandidates`, `MerchantCandidatesMeaning` | quotes of a message, candidates for its merchant, and recipes learned from one confirmed message |
| `ManualSavings`, `ManualSavingsMeaning`, `LoanOverview`, `LoanOverviewMeaning` | monthly savings in closed form; loans without double counting |
| `JsonRepair` | escaping raw control characters inside JSON strings |
| `Classifier`, `ClassifierTheorems`, `ClassifierMeaning` | a character n-gram classifier and the check of its models |
| `Wrappers`, `Strings` | optional values; strings as the program compares them |

A program part that works by changing things is a class or a method with loops, proved against a specification function;
what the program promises is proved about those functions, over all inputs or over all runs of a state machine whose steps
are the program's transactions, calls and crashes. The files named `...Meaning`, `...History`, `...Consent` and `...Recovery`
say what each result means in terms of the inputs, or of the run, without the functions that compute it: with numbers, sums
over given sets, and conditions in both directions.

Some promises are false in general. There the model keeps the code as it is, two statements give the exact condition, and a
last one exhibits a failing input or run:

- A replaced refresh cookie can be spent again (`apps/mcp/src/tools/finance-review.ts` lets one of several parallel fetches fail while
  others are in flight; a rotated session too long to store is dropped). It is not, as long as actions end with no refresh
  in flight, no first try open under the current token, and a session that can be stored. After the first end that is not so,
  it can be, by steps that are clean again, unless the next call is a revocation by the user:
  `SessionProtocol.ReplacedCookieNeverSent`, `UncleanEndRelapses` and `UncleanEndHappens`.
- A stored final outcome of the bank runner can be contradicted by a later completion call, if an unfinished child outlives
  its parent or its parent's wait, and by that child alone: `BankRunner.CompletionStands`, `OrphanMayContradict` and `OrphanHappens`.
- A succeeded training run can lack its artifact, if the trainer never learns that it has published:
  `LineageTheorems.SucceededHasArtifact`, `LostAnswerLosesArtifact` and `LostAnswerHappens`. An artifact no run records is
  left for ever by a trainer that dies holding it or cannot delete it: `PurgeIsComplete`, `LeakIsForever` and
  `LeakHappensInARun`.
- Canonical JSON drops a field named `__proto__`, and with an object in it a label is accepted that makes its row fail:
  `CanonicalJsonTheorems.TextIffSame`, `ProtoFieldIsLost`, `CanonicalTwice` and `DatasetArtifactTheorems.ArtifactIff`.
- The text of a dataset artifact can depend on the order of its input, if different ids compare as equal in the locale; the
  rows and their splits never do: `DatasetArtifactTheorems.TextIgnoresOrderIff`, `RowsIgnoreOrder` and `TextDependsOnOrder`.
- A trained classifier, and with it the hash of its artifact, can depend on the order of the training rows, if two category
  ids compare as equal in the locale; its labels are the same up to their order: `ClassifierTheorems.TrainingIgnoresOrderIff`,
  `LabelsIgnoreOrder` and `TiedCategoriesShow`.
- A trained classifier can fail its own check, if all patterns of a category are too short for one n-gram:
  `ClassifierTheorems.TrainedIsAcceptedIff` and `TrainedIsRefused`.

The comment in `manual-savings.ts` that text comparison of dates is date comparison, and the one in
`merchant-truncation.ts` that grouping is transitive, are theorems here. Two promises hold with less than their usual
assumptions: merchant names need not be distinct, and the JSON repair preserves meaning with incomplete `\u` escapes too.

## Model

| member | source | states |
|---|---|---|
| `UnionFind.CompressKeepsRoots` | `packages/rag/src/dataset-split.ts:306-311` | path compression changes the root of no row, on every reachable parents array |
| `UnionFind.LinkMovesRoot` | `packages/rag/src/dataset-split.ts:314-320` | linking one root under another moves exactly the rows of that tree |
| `UnionFind.FindRoot` | `packages/rag/src/dataset-split.ts:301-313` | terminates on every heap-shaped parents array and returns the root, leaving every row's root as it was |
| `UnionFind.Union` | `packages/rag/src/dataset-split.ts:314-320` | afterwards two rows share a root if they did before or were in the two united trees, and no others do |
| `Components.MergeRows` | `packages/rag/src/dataset-split.ts:321-331` | after the double loop two rows have one root exactly as far as shared keys link them |
| `Components.CollectKeys` | `packages/rag/src/dataset-split.ts:332-338` | each root collects exactly the group keys of the rows under it |
| `Components.BuildComponentKeys` | `packages/rag/src/dataset-split.ts:300-345` | every row gets the sorted listing of all keys of its connected component |
| `Components.SameKeyIffConnected` | `packages/rag/src/dataset-split.ts:322-345` | two rows get the same component key exactly when a chain of rows sharing group keys links them |
| `DatasetSplitMeaning.LinkedIffConnected` | `packages/rag/src/dataset-split.ts:322-345` | the program's connected rows are those joined by a chain of rows that name a common group, as the inputs give them |
| `DatasetSplit.NormalizeInputs` | `packages/rag/src/dataset-split.ts:277-298` | rejects exactly the empty identifiers, repeated rows and invalid times, in input order, and otherwise keeps every row with its keys de-duplicated |
| `DatasetSplit.IndexRows` | `packages/rag/src/dataset-split.ts:211-234` | the three maps of the audit: splits per group, splits per target, latest event per group |
| `DatasetSplit.ValidateLeakage` | `packages/rag/src/dataset-split.ts:207-267` | the audit's counts, computed from the maps, are those of the rows themselves |
| `DatasetSplit.LatestByKey` | `packages/rag/src/dataset-split.ts:351-358` | the latest event of each component |
| `DatasetSplit.AssignRows` | `packages/rag/src/dataset-split.ts:359-374` | each row's digest and split follow its component's key or latest event |
| `DatasetSplit.BuildPlan` | `packages/rag/src/dataset-split.ts:270-380` | the whole builder: errors, assignments, resolved policy and audit are those of the plan whose windows, shares and groups the rows of `DatasetSplitMeaning` give in the inputs' own terms |
| `DatasetSplitTheorems.AuditPassedIff` | `packages/rag/src/dataset-split.ts:236-266` | the audit passes exactly when no group and no target has two splits and every row sits in its group's time split, for any stored rows |
| `DatasetSplitTheorems.SameDigestSameSplit` | `packages/rag/src/dataset-split.ts:100-102` | if the digest tells the groups of these rows apart, rows of one group hash are connected, share a split and have one latest event |
| `DatasetSplitTheorems.SomeHasherTellsApart` | `packages/rag/src/dataset-split.ts:100-102` | for any rows in two components there is a digest that tells their groups apart |
| `CanonicalJsonTheorems.GroupHashTellsApart` | `packages/rag/src/dataset-split.ts:100-102` | a digest of the JSON text of seed and key tells the groups of these rows apart if it tells the texts of their keys apart |
| `DatasetSplitTheorems.AssignmentsHoldGroupsAndTime` | `packages/rag/src/dataset-split.ts:359-374` | the plan's own rows never overlap groups and never violate time; a time policy needs a digest that tells these groups apart, a hash policy needs nothing |
| `DatasetSplitTheorems.PlanFailsOnlyOnTargetOverlap` | `packages/rag/src/dataset-split.ts:375-378` | the closing audit fails exactly when two rows of one target land in different splits, under the same condition on the digest |
| `DatasetSplitTheorems.TrainOnlyPlan` | `packages/rag/src/dataset-split.ts:270-380` | with all basis points on training, every acceptable list of rows gets a plan, whatever the digest |
| `DatasetSplitTheorems.TimeHoldout` | `packages/rag/src/dataset-split.ts:174-204` | in time mode no train event is at or after the validation cutoff and the test split is never empty |
| `DatasetSplitTheorems.ConnectedRowsShareSplit` | `packages/rag/src/dataset-split.ts:346-374` | rows linked by a chain of shared keys get one group hash and one split |
| `DatasetSplitTheorems.PlanIgnoresOrder` | `packages/rag/src/dataset-split.ts:270-380` | under any permutation of the inputs each row keeps its group hash and split, and policy and audit stay the same |
| `DatasetSplitMeaning.RowsKeepIdentity` | `packages/rag/src/dataset-split.ts:277-298` | every input keeps its place, name, target and time in the plan |
| `DatasetSplitMeaning.GroupHashMeaning` | `packages/rag/src/dataset-split.ts:346-364` | a row's group hash is the digest of the seed and of all groups named by the inputs linked with it, in order |
| `DatasetSplitMeaning.ReferenceIsNewest` | `packages/rag/src/dataset-split.ts:175-179` | the reference of a time plan is the newest event of the inputs |
| `DatasetSplitMeaning.SplitByRequestedDays` | `packages/rag/src/dataset-split.ts:180-204` | with t the newest event of its linked rows, a row is in test exactly if reference - t is at most testDays * 86 400 000 ms, in train exactly if it exceeds (testDays + validationDays) * 86 400 000 ms, and in validation otherwise |
| `DatasetSplitMeaning.SplitByBasisPoints` | `packages/rag/src/dataset-split.ts:150-164` | under a hash policy the first eight hexadecimal digits of the group hash modulo 10 000 decide by the requested basis points |
| `DatasetSplitMeaning.RefusedRequests` | `packages/rag/src/dataset-split.ts:115-149` | which requests on good rows are refused, and that the others are refused by the closing audit only |
| `DatasetSplitMeaning.AuditCountsMeaning` | `packages/rag/src/dataset-split.ts:207-266` | the audit counts the rows, the groups, and the groups and targets with rows in two splits |
| `DatasetSplitMeaning.ViolationsMeaning` | `packages/rag/src/dataset-split.ts:236-266` | its temporal violations are the rows on the wrong side of a cutoff; a hash policy has none |
| `JsonText.QuoteIsRead` | `packages/rag/src/revisions.ts:189-192` | a strict reader (section 7 of RFC 8259) gets from a quoted string its very characters |
| `JsonText.ShowPrefix` | `packages/rag/src/revisions.ts:189-192` | a JSON text, followed by anything but the rest of a number, can be read in one way only |
| `JsonText.ShowHasNoBreak` | `packages/rag/src/revisions.ts:285` | a JSON text is one line, whatever its strings hold |
| `CanonicalJson.Canonicalize` | `packages/rag/src/revisions.ts:154-187` | refuses with the first fault in visiting order, or gives the clean value |
| `CanonicalJson.CanonicalizeFields` | `packages/rag/src/revisions.ts:171-185` | setting keys in ascending order leaves them as the engine enumerates them: array indices by number, then the others; a field named `__proto__` is dropped and sets the prototype |
| `CanonicalJson.InOrderUnique` | `packages/rag/src/revisions.ts:177` | a set of keys can be enumerated in one order only |
| `CanonicalJsonTheorems.FaultMeaning` | `packages/rag/src/revisions.ts:154-187` | a value is refused exactly when some part of it, at any depth, is not JSON, and the fault's path leads to such a part |
| `CanonicalJsonTheorems.TextIffSame` | `packages/rag/src/revisions.ts:189-192` | two values have one canonical text exactly when they are the same up to the order of keys and fields named `__proto__` |
| `CanonicalJsonTheorems.TextIsFaithful` | `packages/rag/src/revisions.ts:189-192` | without such fields one text means one value up to the order of keys |
| `CanonicalJsonTheorems.ProtoFieldIsLost` | `packages/rag/src/revisions.ts:176-183` | any value with such a field has the text of another value, one without |
| `CanonicalJsonTheorems.CanonicalTwice` | `packages/rag/src/revisions.ts:154-187` | a canonical value passes canonicalisation again, unchanged, exactly when no `__proto__` field held a list or an object |
| `CanonicalJsonTheorems.FingerprintMeansSources` | `packages/rag/src/revisions.ts:198-207` | chunk revisions have one source fingerprint exactly when they have the same set of sources, if the digest tells their two texts apart |
| `StableSort.SortIsStable` | `packages/rag/src/revisions.ts:233-236` | what is in order already, or ties, stays in its order |
| `StableSort.SortedUnique` | `packages/rag/src/revisions.ts:233-236` | without ties there is one sorted order |
| `DatasetArtifact.CheckExamples` | `packages/rag/src/revisions.ts:237-253` | the loop over seen ids, targets and pairs reports the first objection, or passes the examples on |
| `DatasetArtifact.IndexById` | `packages/rag/src/revisions.ts:263-265` | the map from row id to assignment |
| `DatasetArtifact.BuildRows` | `packages/rag/src/revisions.ts:266-283` | each example with its assignment and its canonical label, or the first refusal |
| `DatasetArtifact.WriteLines` | `packages/rag/src/revisions.ts:285` | the canonical text of every row, each ended by a line feed, or the first refusal |
| `DatasetArtifact.BuildArtifact` | `packages/rag/src/revisions.ts:224-302` | the whole builder: checks, plan, rows, text, counts and every error in its place |
| `DatasetArtifactTheorems.CheckMeaning` | `packages/rag/src/revisions.ts:415-439` | examples pass exactly when each is complete (its query matching its hash) and no two share an id, a merchant target, or a query and chunk |
| `DatasetArtifactTheorems.AssignmentsInStep` | `packages/rag/src/revisions.ts:257-270` | the plan has one assignment for each example, in the same order and under the same id |
| `DatasetArtifactTheorems.LookupFinds` | `packages/rag/src/revisions.ts:263-270` | an assignment is never missing: the lookup by id finds the one in step with the example |
| `DatasetArtifactTheorems.ArtifactIff` | `packages/rag/src/revisions.ts:266-285` | once there is a plan, the artifact is built exactly when every label is JSON without objects in `__proto__` fields |
| `DatasetArtifactTheorems.TextTellsRows` | `packages/rag/src/revisions.ts:285` | artifacts with one text have the same examples in the same order, in the same groups and splits |
| `DatasetArtifactTheorems.RowsIgnoreOrder` | `packages/rag/src/revisions.ts:224-302` | in any input order the same rows come out, each in its group and split, with the same counts, policy and audit |
| `DatasetArtifactTheorems.ArtifactIgnoresOrder` | `packages/rag/src/revisions.ts:224-302` | if the collation tells all ids apart, every input order gives the same artifact or the same refusal |
| `DatasetArtifactTheorems.TextIgnoresOrderIff` | `packages/rag/src/revisions.ts:233-285` | the text is the same for all input orders exactly when the collation tells all ids apart |
| `DatasetArtifactTheorems.TextDependsOnOrder` | `packages/rag/src/revisions.ts:233-285` | in every locale that ties two given ids, two examples with them, built in both orders, have two texts |
| `DatasetArtifactTheorems.GroupsStayTogether` | `packages/rag/src/revisions.ts:398-453` | rows that share a target, a query hash or a source are in one group and one split |
| `DatasetArtifactTheorems.ArtifactIsComplete` | `packages/rag/src/revisions.ts:286-301` | every accepted example is a row with its own assignment, the counts of the splits add up to the rows, and the audit passed |
| `DatasetArtifactMeaning.RefusedIff` | `packages/rag/src/revisions.ts:228-253` | examples are refused before the split exactly if there is none, one is incomplete, or two clash |
| `DatasetArtifactMeaning.RowIsSaid` | `packages/rag/src/revisions.ts:266-283` | the object of a row holds each of its fields under its name and nothing else |
| `DatasetArtifactMeaning.TextMeaning` | `packages/rag/src/revisions.ts:285-297` | the text is one line a row, the canonical text of an object that says exactly the row; the hash is the digest of the text |
| `DatasetArtifactMeaning.RowsComeFrom` | `packages/rag/src/revisions.ts:233-283` | the rows are the examples in order of their ids, each in the group and split that the plan of its own groups gives it |
| `DatasetArtifactMeaning.CountsMeaning` | `packages/rag/src/revisions.ts:286-293` | the counts are those of the rows in each split |
| `RemoteAuthStorage.RemoteAuthStore.RegisterClient` | `apps/mcp/src/remote-auth.ts:244-264` | a refused registration inserts nothing; an accepted one exactly its own row |
| `RemoteAuthStorage.RemoteAuthStore.CreateAuthorization` | `apps/mcp/src/remote-auth.ts:267-289` | checks client, address, scope, resource and challenge before the one insert |
| `RemoteAuthStorage.RemoteAuthStore.CompleteAuthorization` | `apps/mcp/src/remote-auth.ts:300-322` | grant, code and consumed request are written together or, on a throw, not at all |
| `RemoteAuthStorage.RemoteAuthStore.DenyAuthorization` | `apps/mcp/src/remote-auth.ts:325-331` | consumes the request and nothing else |
| `RemoteAuthStorage.RemoteAuthStore.ExchangeCode` | `apps/mcp/src/remote-auth.ts:334-355` | consumes the code and issues a pair, or revokes the grant of a replayed code, or rolls back |
| `RemoteAuthStorage.RemoteAuthStore.RefreshTokens` | `apps/mcp/src/remote-auth.ts:358-376` | consumes the token and issues a pair, or revokes the grant of a replayed token, or rolls back |
| `RemoteAuthStorage.RemoteAuthStore.Authenticate` | `apps/mcp/src/remote-auth.ts:379-388` | answers as the specification does and touches only the date of last use, and only of an active grant; who authenticates, and for how long, is `RemoteAuthHistory` |
| `RemoteAuthStorage.RemoteAuthStore.UpdateSession` | `apps/mcp/src/remote-auth.ts:406-412` | writes the session of an active grant only |
| `RemoteAuthStorage.RemoteAuthStore.RevokeToken` | `apps/mcp/src/remote-auth.ts:415-427` | an unknown or foreign token changes nothing (section 2.2 of RFC 7009) |
| `RemoteAuthStorage.RemoteAuthStore.RevokeGrantForUser` | `apps/mcp/src/remote-auth.ts:440-448` | revokes the user's own grant and returns its session |
| `RemoteAuthTheorems.StepKeepsInv` | `apps/mcp/src/remote-auth.ts:300-519` | every operation keeps: session present exactly while not revoked, each grant from a consumed request of its client, linear refresh chains, tokens only for redeemed codes |
| `RemoteAuthTheorems.RunKeepsInv` | `apps/mcp/src/remote-auth.ts:300-519` | so does every sequence of operations |
| `RemoteAuthTheorems.OneLiveRefreshToken` | `apps/mcp/src/remote-auth.ts:334-376` | a redeemed grant has exactly one unconsumed refresh token, the last of its chain; an unredeemed one has no token |
| `RemoteAuthTheorems.RunPermanent` | `apps/mcp/src/remote-auth.ts:334-519` | consumption, revocation and ownership of rows are permanent over every run |
| `RemoteAuthTheorems.CodeRedeemedAtMostOnce` | `apps/mcp/src/remote-auth.ts:339-352` | no run redeems one code twice (section 4.1.2 of RFC 6749) |
| `RemoteAuthTheorems.RefreshRotatedAtMostOnce` | `apps/mcp/src/remote-auth.ts:362-373` | no run rotates one refresh token twice (section 10.4 of RFC 6749) |
| `RemoteAuthTheorems.ReplayedRefreshRevokes` | `apps/mcp/src/remote-auth.ts:367-370` | replaying a rotated refresh token while its grant is active yields nothing and revokes that grant |
| `RemoteAuthTheorems.RedeemedOnlyByTheRequester` | `apps/mcp/src/remote-auth.ts:341-344` | a code is redeemed only by the client, address and challenge of its authorization request (section 4.6 of RFC 7636), before it expires |
| `RemoteAuthTheorems.TokensBelongToTheRequester` | `apps/mcp/src/remote-auth.ts:308-319` | in every reachable state a token's grant has the client of the consumed request behind it |
| `RemoteAuthTheorems.FailedExchange` | `apps/mcp/src/remote-auth.ts:334-355` | a failing exchange changes nothing, or is a replay that meets the challenge and revokes exactly that grant |
| `RemoteAuthTheorems.FailedRotation` | `apps/mcp/src/remote-auth.ts:358-376` | a failing refresh changes nothing, or is a replay by the grant's own client and revokes exactly that grant |
| `RemoteAuthTheorems.RevokeIsLocal` | `apps/mcp/src/remote-auth.ts:513-515` | revoking touches one grant row, clears its session and keeps the first date |
| `RemoteAuthTheorems.RevokedForGood` | `apps/mcp/src/remote-auth.ts:493-515` | once revoked a grant keeps its date, has no session, and no later operation authenticates, redeems, rotates or updates it |
| `RemoteAuthTheorems.RevokedSessionHandedOutOnce` | `apps/mcp/src/remote-auth.ts:440-448` | in any run at most one revocation of a grant hands out a session: of two steps that do, they are one and the same |
| `RemoteAuthHistory.TokenWasIssued` | `apps/mcp/src/remote-auth.ts:500-511` | every token of every reachable state was handed out by an earlier step of the run |
| `RemoteAuthHistory.AuthenticatedWasIssued` | `apps/mcp/src/remote-auth.ts:379-388` | a token authenticates only if an earlier step issued it as access token, less than 3 600 000 ms before and before the grant's own end, while the grant lives; the answer has that grant's id, user and session |
| `RemoteAuthHistory.IssuedAuthenticates` | `apps/mcp/src/remote-auth.ts:379-388` | within that time the access token of a live grant does authenticate, with that answer |
| `RemoteAuthHistory.RefreshNeverAuthenticates` | `apps/mcp/src/remote-auth.ts:383` | a refresh token never authenticates |
| `RemoteAuthHistory.RotatedWasIssued` | `apps/mcp/src/remote-auth.ts:358-376` | a token rotates only if an earlier step issued it as refresh token, for the client that asks, while its grant lives |
| `RemoteAuthHistory.UnusedRefreshRotates` | `apps/mcp/src/remote-auth.ts:358-376` | a refresh token not yet rotated serves its client at any later time, as long as the grant lives |
| `RemoteAuthHistory.UsedUpByRotation` | `apps/mcp/src/remote-auth.ts:371-374` | a token is used up by its rotation and by nothing else |
| `RemoteAuthHistory.RotationMeans` | `apps/mcp/src/remote-auth.ts:358-376` | what a rotation asks for, and that its pair is good for an hour or until the grant ends |
| `RemoteAuthConsent.RegistrationIff` | `apps/mcp/src/remote-auth.ts:244-258` | a registration goes through exactly for one to ten allowed addresses, a public client, a proper name and fewer than a thousand clients |
| `RemoteAuthConsent.RegistrationAdds` | `apps/mcp/src/remote-auth.ts:259-264` | it adds one client, with these addresses and the trimmed name |
| `RemoteAuthConsent.ClientsStayGood` | `apps/mcp/src/remote-auth.ts:244-264` | no run registers more than a thousand clients, and all may be sent back to allowed addresses only |
| `RemoteAuthConsent.OpeningIff` | `apps/mcp/src/remote-auth.ts:267-289` | a request is opened exactly for a known client's own allowed address, with `code`, `S256`, the read scope and this resource |
| `RemoteAuthConsent.RequestAnsweredAtMostOnce` | `apps/mcp/src/remote-auth.ts:300-331` | a request is answered at most once, by consent or by refusal |
| `RemoteAuthConsent.ConsentAdds` | `apps/mcp/src/remote-auth.ts:305-322` | consent creates a grant for the user who logged in, and a code good for 300 000 ms |
| `RemoteAuthConsent.RedeemedMeansConsent` | `apps/mcp/src/remote-auth.ts:300-355` | a redeemed code was given, less than five minutes before, to a consent that answered, less than ten minutes after it was opened, a request of the very asker |
| `RemoteAuthConsent.TimelyConsentCompletes` | `apps/mcp/src/remote-auth.ts:300-322` | a consent within ten minutes to an unanswered request gives a code |
| `RemoteAuthConsent.TimelyCodeRedeems` | `apps/mcp/src/remote-auth.ts:334-355` | a code asked for within five minutes by the right asker, the first time, gives tokens unless the grant was revoked meanwhile |
| `RemoteAuthConsent.UserRevocationMeans` | `apps/mcp/src/remote-auth.ts:440-448` | the user's own live grant is revoked and its session handed out; any other request changes nothing |
| `RemoteAuthConsent.TokenRevocationMeans` | `apps/mcp/src/remote-auth.ts:415-427` | a registered client revokes the live grant of its own token, of either kind and used up or not; another's token changes nothing |
| `RemoteAuthConsent.UpdateMeans` | `apps/mcp/src/remote-auth.ts:406-412` | a storable session replaces that of a live grant and nothing else changes, or nothing does |
| `RemoteAuthConsent.MaintenanceMeans` | `apps/mcp/src/remote-auth.ts:391-404` | maintenance sees exactly the live grants without an end |
| `GrantQueue.CallQueue.Arrive` | `apps/mcp/src/remote-http.ts:39-46` | a ninth call is refused and changes nothing; otherwise the call joins the tail |
| `GrantQueue.CallQueue.Begin` | `apps/mcp/src/remote-http.ts:47-48` | a call begins when its predecessor has let go |
| `GrantQueue.CallQueue.Settle` | `apps/mcp/src/remote-http.ts:49-55` | a call that ends, whether or not it threw, lets its successor go and clears the maps with the last one |
| `GrantQueue.RunKeepsInv` | `apps/mcp/src/remote-http.ts:35-56` | in every run the two maps hold a key exactly while calls of it are pending, at most eight of them |
| `GrantQueue.Exclusive` | `apps/mcp/src/remote-http.ts:44-50` | at most one call of a key runs at a time |
| `GrantQueue.FirstComeFirstServed` | `apps/mcp/src/remote-http.ts:44-48` | calls of a key begin in the order they arrived |
| `GrantQueue.OldestIsFree` | `apps/mcp/src/remote-http.ts:47-55` | the oldest pending call of a key is always free to begin, so nobody waits for ever behind a throw |
| `SessionProtocol.NextKeeps` | `apps/mcp/src/remote-http.ts:320-345` | queue, clients and stored session stay in step: a client at work holds the stored cookie or a successor of it |
| `SessionProtocol.RevokedForGood` | `apps/mcp/src/remote-http.ts:339-343` | in no interleaving does a revoked grant get a session again |
| `SessionProtocol.UncleanEndRelapses` | `apps/mcp/src/remote-http.ts:320-345` | after an action that ends in a run so far clean, steps that are clean again can spend a replaced cookie exactly when that end was not clean and the next call in the queue, if any, is not a revocation by the user; if it is one, no steps at all can |
| `SessionProtocol.UncleanEndHappens` | `apps/mcp/src/remote-http.ts:320-345` | from every idle grant with a session a run leads to an unclean end, and clean steps from there to a replaced cookie that is spent |
| `SessionHistory.SessionAfter` | `apps/mcp/src/remote-http.ts:320-345` | a revocation, by the user or by token, leaves no session; an action that ends leaves its client's, if that can be kept; nothing else touches it |
| `SessionHistory.OpeningMeans` | `apps/mcp/src/remote-http.ts:320-338` | a call begins with a client only on a live grant, and then with the very session that is stored |
| `SessionHistory.RevocationEndsIt` | `apps/mcp/src/remote-http.ts:339-343` | from any revocation on the grant has no session, and no call opens a client |
| `SessionProtocol.ReplacedCookieNeverSent` | `apps/mcp/src/api-client.ts:268-343` | as long as no action ends with a refresh in flight, with a first try open under the current token, or with a rotated session that cannot be stored, a cookie whose successor a client has stored never reaches the refresh endpoint again |
| `SessionProtocol.ClientKeeps` | `apps/mcp/src/api-client.ts:295-300` | first tries, second tries, refreshes and failures of a client, in any order, keep the invariant; a refresh is in flight exactly while a fetch waits for it |
| `SessionHistory.FetchesAreConserved` | `apps/mcp/src/api-client.ts:295-343` | fetches are opened by a fetch, closed by an answer, and lost only with the refresh they wait for |
| `SessionHistory.RotationMeans` | `apps/mcp/src/api-client.ts:310-343` | token and cookie change only by a refresh answered with a token, and then together; every fetch that waited is tried again |
| `SessionHistory.RefusalMeans` | `apps/mcp/src/api-client.ts:295-308` | a 401 waits for a refresh exactly if its token is still current; otherwise it is tried again at once |
| `SessionHistory.OneRefreshAtATime` | `apps/mcp/src/api-client.ts:310-334` | however many fetches find the token expired, a client asks again only after its refresh was answered or failed |
| `SessionProtocol.StaysDisarmed` | `apps/mcp/src/api-client.ts:328-334` | a client with no refresh in flight and no first try under its current token becomes able to rotate its cookie only by a new fetch |
| `SessionProtocol.OrphanRelapses` | `apps/mcp/src/api-client.ts:310-343` | a client left over with a refresh in flight, or a first try under its current token, rotates the cookie that the store still holds, and the next call spends the old one: the steps are given |
| `SessionProtocol.StoredReplacedRelapses` | `apps/mcp/src/remote-session-maintenance.ts:60-70` | a stored cookie that was replaced is sent by the very next call, when it opens its client and meets an expired token: the steps are given |
| `BankRunner.StateStore.EnterPhase` | `tools/mac-bank-runner/worker.py:150-154` | the claim is on disk, uncertain, before anything happens under it, and keeps an attempt already recorded for it |
| `BankRunner.StateStore.ClaimLogin` | `tools/mac-bank-runner/worker.py:161-168` | refuses exactly when an attempt is recorded, no credential is offered or the phase is a continued one; otherwise the attempt is on disk first |
| `BankRunner.StateStore.PersistCompletion` | `tools/mac-bank-runner/worker.py:181-182` | the outcome is on disk before it is reported |
| `BankRunner.StateStore.LeavePhase` | `tools/mac-bank-runner/worker.py:184-189` | an authentication wait stays active and certain, any other outcome clears the state |
| `BankRunner.StateStore.RecoverCompletion` | `tools/mac-bank-runner/worker.py:243-253` | of a wait only certainty changes, to what the server shows: the same state, or a higher version than the claim's; any other outcome is sent again and forgotten |
| `BankRunner.NextKeeps` | `tools/mac-bank-runner/worker.py:148-333` | every step, crashes anywhere, keeps the file, the copies of it, the lease and the claims consistent |
| `BankRunner.LoginAtMostOncePerClaim` | `tools/mac-bank-runner/worker.py:161-168` | under any schedule of crashes and restarts credentials are requested at most once per claim |
| `BankRunner.LoginsAreForDistinctClaims` | `tools/mac-bank-runner/worker.py:161-168` | two credential requests of a run are never for one claim |
| `BankRunner.PhasesAdvance` | `tools/mac-bank-runner/worker.py:311-325` | child phases under one claim have strictly increasing versions |
| `BankRunner.NextSteady` | `tools/mac-bank-runner/worker.py:181-189` | as long as no unfinished child outlives its parent, every copy of the state can only repeat a stored outcome |
| `BankRunner.CompletionStands` | `tools/mac-bank-runner/worker.py:181-189` | then every completion call after a final outcome is on disk repeats exactly that outcome |
| `BankRunner.OrphanMayContradict` | `tools/mac-bank-runner/worker.py:311-314` | wherever an unfinished child is orphaned, the run can go on, without orphaning another, to report a failure against the stored success of this child's own claim |
| `BankRunner.OrphanHappens` | `tools/mac-bank-runner/worker.py:311-314` | a run from the start orphans a child and goes on to contradict its stored success |
| `BankRunnerRecovery.RecoveryKeepsClaim` | `tools/mac-bank-runner/worker.py:243-253` | recovery of a wait keeps the claim; it counts as settled exactly if the server showed the wait or a higher version |
| `BankRunnerRecovery.NextTurnAfterRecovery` | `tools/mac-bank-runner/worker.py:302-313` | on the next turn the claim is given up exactly if the server had shown neither, and continued exactly if it had and the job now runs with a higher version |
| `BankRunnerRecovery.SettledWaitStands` | `tools/mac-bank-runner/worker.py:184-189` | in every orderly run, from the recovery or the leave that settles a wait until the claim's next phase, no call is made for the claim except by the waiting child itself, and that reports the wait |
| `BankRunnerRecovery.SettledWaitIsSilent` | `tools/mac-bank-runner/worker.py:184-189` | once that child is gone no call at all is made for the claim until its next phase |
| `BankRunnerRecovery.AnswerClears` | `tools/mac-bank-runner/worker.py:181-189` | in every run, once a completion call is answered the runner forgets the claim, on disk and in its head |
| `BankRunnerRecovery.LeavingMeans` | `tools/mac-bank-runner/worker.py:184-189` | a child that leaves a final outcome clears the file; one that leaves a wait keeps the claim, certain, with its attempt |
| `BankRunnerRecovery.EnteringMeans` | `tools/mac-bank-runner/worker.py:222-227` | entering a phase puts its claim on disk, uncertain, and keeps exactly the attempt on record for it |
| `BankRunnerRecovery.TurnMeans` | `tools/mac-bank-runner/worker.py:302-321` | a heartbeat that shows a job makes the runner do one thing at most with the claim it holds, and which: forget it, settle or repeat the outcome on record, give it up as `operation_unknown`, or go on with a newer version |
| `SmsPurge.PurgeStore.DeleteSourceObjectCopies` | `packages/database/src/sms-raw-purge.ts:459-500` | every live revision key and the source key are deleted, each once |
| `SmsPurge.PurgeStore.ConfirmObjectKeysGone` | `packages/database/src/sms-raw-purge.ts:70-78` | true exactly when none of the keys is present |
| `SmsPurge.PurgeStore.DeleteObjects` | `packages/database/src/sms-raw-purge.ts:300-311` | returns only when no object copy of the event is left |
| `SmsPurge.PurgeStore.ScrubLinked` | `packages/database/src/sms-raw-purge.ts:312-322` | returns only when no candidate suppression of the event holds raw text |
| `SmsPurge.PurgeStore.PurgeEvent` | `packages/database/src/sms-raw-purge.ts:294-343` | wherever it stops, an emptied event has no copy left and other events are untouched |
| `SmsPurge.PurgeStore.PurgeEvents` | `packages/database/src/sms-raw-purge.ts:292-349` | each candidate is counted once as purged or failed; with no failure none holds raw text |
| `SmsPurge.PurgeStore.PurgeSuppressions` | `packages/database/src/sms-raw-purge.ts:352-378` | each candidate not handled before is counted once; with no failure none holds raw text |
| `SmsPurge.PurgeStore.Purge` | `packages/database/src/sms-raw-purge.ts:244-416` | wherever it ends, only what the policy selects in this household is emptied, rows of other households are unchanged, and what is emptied is clean; a completed entry means that all the policy selects is clean; without faults all of it is purged and counted |
| `SmsRetention.CopiesMeaning` | `packages/database/src/sms-raw-purge.ts:459-500` | the copies of a message are the objects of its revisions that are no tombstones, and that of its source |
| `SmsPurge.ResolvePurgeLogDecision` | `packages/database/src/sms-raw-purge.ts:84-120` | completed exactly when something was purged and nothing failed; no entry exactly when nothing was counted |
| `SmsPurge.EmptyIsClean` | `packages/database/src/sms-raw-purge.ts:335-343` | an emptied candidate is clean in all three places |
| `SmsRetention.LeftoversAreSelectedAgain` | `packages/database/src/sms-raw-purge.ts:123-235` | wherever a purge stopped, the next preview selects all it left, and at the same time of day nothing else |
| `SmsRetention.NoCopyIsForgotten` | `packages/database/src/sms-raw-purge.ts:335-343` | a candidate with any copy left is selected again |
| `SmsRetention.RetryFinishes` | `packages/database/src/sms-raw-purge.ts:244-416` | a later purge that leaves its own preview clean also finishes the one that was stopped |
| `SmsRetention.ProgressTransitive` | `packages/database/src/sms-raw-purge.ts:292-349` | what holds over two stretches of a purge holds over both together |
| `SmsRetention.OthersKeepTheirRaw` | `packages/database/src/sms-raw-purge.ts:58-67` | rows outside the preview are not changed at all |
| `SmsRetention.EventStaysDue` | `packages/database/src/sms-raw-retention.ts:47-74` | an event with raw text stays selected as time goes on |
| `SmsRetention.SuppressionStaysDue` | `packages/database/src/sms-raw-retention.ts:84-121` | so does a suppression, even after the event it matches was emptied |
| `SmsRetention.PreviewMeaning` | `packages/database/src/sms-raw-retention.ts:47-121` | a preview selects exactly this household's messages that hold raw text and that the policy calls for: thirty days (2 592 000 000 ms) after receipt, or by how their parsing ended |
| `Lineage.LineageStore.RevokeTrainingRuns` | `packages/database/src/training-run.ts:20-117` | the four updates together revoke every run of the snapshots once, complete the unfinished ones, and take their models out |
| `Lineage.LineageStore.MarkTrainingArtifactsPurged` | `packages/database/src/training-run.ts:120-138` | marks exactly the named revoked runs not marked before |
| `LineageMeaning.OperatorRevokesTraining` | `packages/database/src/training-run.ts:20-117` | an operator's revocation of a snapshot revokes it and makes its runs and the models they trained fall |
| `LineageTheorems.RevocationIsForGood` | `packages/database/src/training-run.ts:45-101` | a run that exists when its snapshot is revoked stays revoked whatever its trainer does, and its model is neither candidate nor approved from then on |
| `LineageTheorems.PurgedIsGone` | `packages/database/src/training-run.ts:102-137` | a purged artifact is gone; one that is not gone is handed out by the next revocation |
| `LineageTheorems.PurgeIsComplete` | `packages/database/src/training-run.ts:102-137` | without a leak, once trainers are gone, purging what is recorded leaves no artifact |
| `Lineage.LineageStore.RevokeMerchantRuleLineage` | `packages/database/src/merchant-rule-revocation.ts:66-139` | every snapshot that holds any one of the rules falls: it is revoked, its runs with their models, its evaluations, and the aliases and canaries on them; every snapshot with none of the rules keeps its row, and nothing else changes |
| `Lineage.LineageStore.RevokeEvidence` | `packages/database/src/merchant-rule-revocation.ts:91-130` | evaluations, aliases and monitored canaries fall together |
| `LineageTheorems.ServingRestsOnEvidence` | `packages/database/src/merchant-rule-revocation.ts:91-130` | in every run an alias that serves rests on a passed evaluation over an approved snapshot |
| `LineageMeaning.RevokedByRules` | `packages/database/src/merchant-rule-revocation.ts:66-139` | in every run a revocation by rules makes exactly the lineages of the snapshots that hold one of the rules fall, and touches no trainer, object or purge |
| `LineageMeaning.OtherSnapshotsStay` | `packages/database/src/merchant-rule-revocation.ts:74-87` | a snapshot that holds none of the rules keeps its row, its runs and its evaluations |
| `LineageMeaning.RulesRevokeForGood` | `packages/database/src/merchant-rule-revocation.ts:74-89` | from then on every snapshot that held one of the rules stays revoked, with its runs and the models they trained, or the run was requested too late and never starts |
| `LineageMeaning.RulesEndService` | `packages/database/src/merchant-rule-revocation.ts:91-130` | and no alias serves on evidence over it again |
| `LineageMeaning.OperatorRevokesEvidence` | `packages/database/src/merchant-rule-revocation.ts:91-130` | revoking evidence again also goes over evaluations revoked before, so that no alias rests on any |
| `LineageTheorems.NextKeeps` | `apps/trainer/src/main.ts:475-712` | trainers, operators, revocations and purges keep the lineage invariant at every step |
| `LineageTheorems.NothingSucceedsAfterwards` | `apps/trainer/src/main.ts:475-673` | on a revoked snapshot every run is revoked or was requested too late and never starts |
| `LineageTheorems.SucceededHasArtifact` | `apps/trainer/src/main.ts:572-692` | if trainers learn of every publication, each succeeded run has its artifact |
| `LineageTheorems.LostAnswerLosesArtifact` | `apps/trainer/src/main.ts:681-692` | a publication whose answer is lost can end in a succeeded run whose own trainer deleted the artifact |
| `LineageTheorems.LostAnswerHappens` | `apps/trainer/src/main.ts:681-692` | a run from the start ends in a succeeded run without its artifact |
| `LineageTheorems.LeakHappensInARun` | `apps/trainer/src/main.ts:681-692` | a run from the start leaves an artifact that no run records |
| `LineageTheorems.LeakIsForever` | `apps/trainer/src/main.ts:681-692` | an artifact left by a dead trainer or a failed removal stays through every later revocation and purge |
| `MerchantTruncation.Find` | `packages/shared/src/merchant-truncation.ts:122-126` | ends on every reachable parent map, at the root |
| `MerchantTruncation.LinkPair` | `packages/shared/src/merchant-truncation.ts:131-140` | one pair of names is linked exactly if one truncates the other |
| `MerchantTruncation.LinkTruncations` | `packages/shared/src/merchant-truncation.ts:129-142` | the trees are sound and complete for truncation |
| `MerchantTruncation.FillBuckets` | `packages/shared/src/merchant-truncation.ts:144-150` | the buckets and their order of first occurrence |
| `MerchantTruncation.TruncationSharesKey` | `packages/shared/src/merchant-truncation.ts:134-137` | a truncation and its name have one shortest listed prefix |
| `MerchantTruncation.SameKeyIffLinked` | `packages/shared/src/merchant-truncation.ts:98-111` | two names have one shortest listed prefix of four characters or more exactly when a chain of truncations links them |
| `MerchantTruncation.JoinedIsKeyPartition` | `packages/shared/src/merchant-truncation.ts:120-142` | the union-find groups are the groups by shortest listed prefix |
| `MerchantTruncation.FindTruncationCandidates` | `packages/shared/src/merchant-truncation.ts:114-171` | the program proposes exactly the groups of that simple form |
| `MerchantTruncationTheorems.ProposedTogether` | `packages/shared/src/merchant-truncation.ts:129-151` | two rows are proposed together exactly when truncations link their names |
| `MerchantTruncationTheorems.GroupsHaveOneStem` | `packages/shared/src/merchant-truncation.ts:152-166` | each group has an alias, a longest name on top, and one name that is a prefix of all others |
| `MerchantTruncationTheorems.GroupsAreDisjoint` | `packages/shared/src/merchant-truncation.ts:144-150` | no name is proposed in two groups |
| `MerchantTruncationTheorems.TotalsAreConserved` | `packages/shared/src/merchant-truncation.ts:161-166` | groups and rows left alone add up to the list, in transactions and in money |
| `MerchantTruncationTheorems.LargestFirst` | `packages/shared/src/merchant-truncation.ts:170` | the largest totals come first |
| `MerchantTruncationMeaning.GroupMeaning` | `packages/shared/src/merchant-truncation.ts:114-166` | a group shows all rows, and only those, whose names cuts of four characters or more link with its longest, aliases left out; the longest name first, then the larger total, then as listed; with the sums of their transactions and money |
| `MerchantTruncationMeaning.ProposedIff` | `packages/shared/src/merchant-truncation.ts:114-151` | two rows are proposed together exactly when neither is an alias and cuts link their names |
| `MerchantTruncationMeaning.NoNameTwice` | `packages/shared/src/merchant-truncation.ts:144-150` | no name stands in two places of the list of groups |
| `MerchantTruncationMeaning.RankMeaning` | `packages/shared/src/merchant-truncation.ts:169-170` | larger totals first; of two groups with one total, the one whose first row is listed earlier |
| `Spans.ResolveQuote` | `packages/card-parsers/src/spans.ts:64-81` | walks from match to match to the counted one |
| `Spans.ResolvesIff` | `packages/card-parsers/src/spans.ts:64-81` | a place is found exactly if the quote stands there as the counted match and has one to 64 characters; overlapping matches count |
| `Spans.FindConflicts` | `packages/card-parsers/src/spans.ts:139-149` | the double loop finds exactly the fields whose spans overlap another's |
| `Spans.BuildResultFromSpans` | `packages/card-parsers/src/spans.ts:107-234` | the loops that add and delete spans compute the result of the simple form |
| `Recipe.CollectMeaning` | `packages/card-parsers/src/spans.ts:116-137` | a field has a span exactly when it was quoted once and its quote was found; otherwise there is a reason |
| `Recipe.ValuesAreGrounded` | `packages/card-parsers/src/spans.ts:155-206` | every value is the parser's reading of a kept span, and no field has a value without one |
| `Recipe.KeptSpansAreDisjoint` | `packages/card-parsers/src/spans.ts:139-153` | kept spans do not overlap and each is where its only quote stands |
| `Recipe.KeptOrRejected` | `packages/card-parsers/src/spans.ts:113-206` | every quoted field is kept or rejected with a reason |
| `RecipeMeaning.KeptExactly` | `packages/card-parsers/src/spans.ts:107-206` | a field is kept exactly if its only quote names a place, no other field's place lies across it, and the text there reads as a value |
| `Spans.SpanToQuote` | `packages/card-parsers/src/recipe.ts:123-133` | counts the matches up to the span |
| `Spans.QuoteRoundTrip` | `packages/card-parsers/src/recipe.ts:122-133` | resolving the quote of a span gives back that span exactly when it has one to 64 characters, whatever repeats or overlaps |
| `MerchantCandidates.FindMerchantCandidates` | `packages/card-parsers/src/recipe.ts:59-81` | the loop over the matches of the token pattern, with the run under construction apart, computes the runs of free tokens |
| `MerchantCandidates.TokensAreRuns` | `packages/card-parsers/src/recipe.ts:45` | the tokens are exactly the longest runs of digits, Latin letters and Hangul syllables |
| `MerchantCandidates.CandidatesAreChains` | `packages/card-parsers/src/recipe.ts:66-76` | two free tokens lie in one candidate exactly when every gap from the one to the other can be joined |
| `MerchantCandidates.CoveredOnce` | `packages/card-parsers/src/recipe.ts:66-80` | a free token lies in exactly one candidate |
| `MerchantCandidates.CandidatesAreSolid` | `packages/card-parsers/src/recipe.ts:69-76` | a candidate begins and ends with a free token and is made of free tokens and joining characters of one line |
| `MerchantCandidates.OnlyFreeTokens` | `packages/card-parsers/src/recipe.ts:65-67` | no keyword and no number is part of a candidate |
| `MerchantCandidatesMeaning.OneCandidateIff` | `packages/card-parsers/src/recipe.ts:59-81` | two free words are in one candidate exactly when every character between them is a joining one or inside a free word |
| `MerchantCandidatesMeaning.CandidateMeaning` | `packages/card-parsers/src/recipe.ts:59-81` | a candidate goes from the start of a free word to the end of one |
| `MerchantCandidatesMeaning.EveryFreeWordOnce` | `packages/card-parsers/src/recipe.ts:59-81` | every free word is in exactly one candidate, and they are listed from left to right |
| `Recipe.DerivedRule` | `packages/card-parsers/src/recipe.ts:149-184` | a learned rule points at a candidate that gives the confirmed value |
| `RecipeMeaning.LearnedExactly` | `packages/card-parsers/src/recipe.ts:149-194` | a field has a rule exactly if it was confirmed and some candidate gives its value, and the rule is the first that does |
| `RecipeMeaning.RulesPlace` | `packages/card-parsers/src/recipe.ts:214-222` | applying a recipe places exactly the quotable candidates that its rules find |
| `RecipeMeaning.AppliedExactly` | `packages/card-parsers/src/recipe.ts:209-229` | on any message a field is extracted exactly if its rule finds a candidate that is undisputed and reads as a value |
| `RecipeMeaning.AppliedValues` | `packages/card-parsers/src/recipe.ts:209-250` | the values are the readings of the extracted texts, and a rule without its candidate is reported as missing |
| `RecipeMeaning.AppliedTime` | `packages/card-parsers/src/recipe.ts:235-246` | the time is the reading of its text, or that of receipt exactly when the recipe has no rule for it and the message no candidate |
| `Recipe.RuleSpansCollected` | `packages/card-parsers/src/recipe.ts:214-229` | applying a recipe collects the rules' own spans |
| `Recipe.ReplayConfirms` | `packages/card-parsers/src/recipe.ts:141-252` | replaying a recipe on its own message gives the confirmed value exactly when no other learned span crosses it (a merchant also has to be quotable and not blank), and otherwise a reason |
| `Recipe.MerchantIsCandidate` | `packages/card-parsers/src/recipe.ts:59-81` | a learned merchant is the very text of its candidate: the confirmed name without the blanks around it, and never blank |
| `Recipe.MerchantReplay` | `packages/card-parsers/src/recipe.ts:84-252` | with the program's own merchant candidates a learned merchant is replayed exactly when it can be quoted and no other learned span crosses it, as the text of its candidate |
| `ManualSavings.DayPasses` | `packages/shared/src/manual-savings.ts:56-68` | a day passes a pay date exactly when the first open month moves on, leap years and short months included |
| `ManualSavings.ClosedFormJumps` | `packages/shared/src/manual-savings.ts:87-108` | the program's branches amount to one jump over the due contributions that fit |
| `ManualSavings.ProjectIsAccrual` | `packages/shared/src/manual-savings.ts:70-109` | the closed form equals living through every day up to the limit, paying on each pay date while twenty digits suffice |
| `ManualSavings.SavingTheProjectionIsHarmless` | `packages/shared/src/manual-savings.ts:4-11` | storing a projection and projecting on gives what projecting at once gives, in amount, date and number of contributions |
| `ManualSavings.StringOrderIsDateOrder` | `packages/shared/src/manual-savings.ts:55-64` | zero-padded dates of a fixed width compare as text exactly as the dates do |
| `ManualSavingsMeaning.DaysAreDays` | `packages/shared/src/manual-savings.ts:33-53` | the dates accepted are the days that the Gregorian calendar has, counted independently in years that begin in March |
| `ManualSavingsMeaning.NextDay` | `packages/shared/src/manual-savings.ts:46-53` | the next date is the next day of that calendar |
| `ManualSavingsMeaning.AcceptedIff` | `packages/shared/src/manual-savings.ts:75-86` | a plan is refused exactly if an amount has more than twenty digits or a date is no day |
| `ManualSavingsMeaning.ProjectionMeaning` | `packages/shared/src/manual-savings.ts:70-109` | the contributions are the due pay days from the first one on without a gap, all of them or as many as twenty digits hold; amount and date are theirs |
| `LoanOverview.CollectManuals` | `packages/shared/src/loan-overview.ts:93-103` | the first row of each id, or a refusal exactly when a row is invalid or two of one id differ |
| `LoanOverview.CollectLoans` | `packages/shared/src/loan-overview.ts:105-114` | likewise for observed loans |
| `LoanOverview.CountClaims` | `packages/shared/src/loan-overview.ts:118-126` | how many eligible loans share each account and claim each record |
| `LoanOverview.Judge` | `packages/shared/src/loan-overview.ts:128-146` | each loan's reason, and the records that the included replacements suppress |
| `LoanOverview.ComposeFinancialOverview` | `packages/shared/src/loan-overview.ts:87-166` | the rows kept, the loans with their reasons, the dates and the totals are those of the simple form over sets, or a refusal exactly when the rows are inconsistent |
| `LoanOverview.SuppressionIsOneToOne` | `packages/shared/src/loan-overview.ts:136-144` | suppressed manual loans and included replacements are in one-to-one correspondence, of one owner, household and visibility |
| `LoanOverview.AccountsCountOnce` | `packages/shared/src/loan-overview.ts:133-135` | no account is included twice |
| `LoanOverview.OverviewIgnoresOrder` | `packages/shared/src/loan-overview.ts:87-166` | totals, refusals and the loans shown with their reasons depend on neither order nor repetition of the rows |
| `LoanOverview.CompleteMeansKnown` | `packages/shared/src/loan-overview.ts:160-164` | a complete overview leaves nothing open and its net is assets less debt |
| `LoanOverviewMeaning.RefusedIff` | `packages/shared/src/loan-overview.ts:62-114` | an overview is refused exactly for a bad row, or for two rows of one id that disagree |
| `LoanOverviewMeaning.ReasonMeaning` | `packages/shared/src/loan-overview.ts:128-146` | each shown loan is one of the rows and carries exactly the first reason against it: expired sharing, reference only, a rival, a changed replacement |
| `LoanOverviewMeaning.LoansShownOnce` | `packages/shared/src/loan-overview.ts:105-146` | every row is shown, and no loan twice |
| `LoanOverviewMeaning.DebtIsWhatIsOwed` | `packages/shared/src/loan-overview.ts:148-155` | the debt is the sum of the known amounts of unsuppressed manual loans and of the principals of included loans, and unknown exactly if there is neither |
| `LoanOverviewMeaning.AssetsAreWhatIsOwned` | `packages/shared/src/loan-overview.ts:148-149` | the gross assets are the sum of the known amounts of the other records, and unknown exactly if there is none |
| `LoanOverviewMeaning.CompletenessMeaning` | `packages/shared/src/loan-overview.ts:155-164` | when either side is complete, partial or empty, and when the net is given |
| `LoanOverviewMeaning.DatesOfOverview` | `packages/shared/src/loan-overview.ts:149-158` | the oldest and newest of the remaining dates, and the common date while no loan counts |
| `LoanOverview.DatesMeaning` | `packages/shared/src/manual-finance.ts:82-88` | oldest and newest are among the dates of the rows and bound them all; a common date is the only one |
| `LoanOverview.Add` | `packages/shared/src/manual-finance.ts:75-79` | known amounts added up, and whether all are known |
| `ProcessTree.LeadsToRoot` | `tools/mac-bank-runner/resource_policy.py:129-137` | from every owned process the recorded parents lead to the leader in as many steps as its depth, with one user and no child older than its parent |
| `ProcessTree.OwnedProcessTree.Recognise` | `tools/mac-bank-runner/resource_policy.py:141-151` | every owned process was asked about: it is current with its own start time and user, or it was gone; given up only for one that cannot be identified, is another now, or is alive without a row |
| `ProcessTree.OwnedProcessTree.Adopt` | `tools/mac-bank-runner/resource_policy.py:156-169` | a process is owned only through an observed link to a parent that was identified again afterwards, one user, no older than its parent, the 4096th at most; given up only if one of these fails |
| `ProcessTree.OwnedProcessTree.Discover` | `tools/mac-bank-runner/resource_policy.py:152-169` | sweeping ends, nothing owned is ever dropped or changed, and in the end every row under a current parent is owned, or was asked and is gone or under another parent |
| `ProcessTree.OwnedProcessTree.GroupIsAttributed` | `tools/mac-bank-runner/resource_policy.py:170-175` | passes only if every row of the leader's group is owned, or was asked and is gone, dead or in another group |
| `ProcessTree.OwnedProcessTree.Observe` | `tools/mac-bank-runner/resource_policy.py:139-182` | the owned processes stay a tree; an owned process that is not reported alive was asked and found gone or dead; every row under a living member is owned or accounted for; a failed observation makes the tree uncertain for good, and has a failed answer behind it |
| `ProcessTree.OwnedProcessTree.SignalOwned` | `tools/mac-bank-runner/resource_policy.py:184-200` | a signal of the given kind goes exactly to an owned living process identified again just before; a member not owned or no longer itself, or a failed signal, makes the tree uncertain, while an unreadable identity only ends the attempt |
| `Lease.ValidationLease.TreeFor` | `tools/mac-bank-runner/resource_policy.py:275-282` | one tree a process, kept for good; a leader that cannot be confirmed ends the confirmation of cleanup |
| `Lease.ValidationLease.SignalAll` | `tools/mac-bank-runner/resource_policy.py:308-309` | signals owned members only, a parent before its children; either every member was signalled or found not alive, or the last one asked was in doubt or unreadable |
| `Lease.ValidationLease.Quell` | `tools/mac-bank-runner/resource_policy.py:306-315` | first every owned process alive is asked to end, and after 26 looks killed; it ends at the first look that finds nothing alive, or after 26 more |
| `Lease.ValidationLease.StopOwned` | `tools/mac-bank-runner/resource_policy.py:301-318` | cleanup is confirmed only if it was before, the tree was never in doubt, and its last observation asked about every owned process and found none alive; and it is, unless something failed or outlasted two signals and 52 looks |
| `Lease.ValidationLease.MonitorProcess` | `tools/mac-bank-runner/resource_policy.py:319-342` | a normal end is the exit code of a turn after which nothing owned was alive; every other way out has a failure, a budget, an exit with children alive or the time limit behind it, and stops what is owned |
| `Lease.ValidationLease.Release` | `tools/mac-bank-runner/resource_policy.py:377-379` | the lock goes only if it is still this lease's and cleanup is confirmed |
| `Lease.ValidationLease.Course` | `tools/mac-bank-runner/resource_policy.py:343-387` | in any course of operations the owned trees stay trees and are never given up, doubt about one never ends, and once an observation has failed the lock is never removed |
| `JsonRepair.EscapeCtrlInJsonStrings` | `apps/api/src/main.ts:37-77` | the loop computes the transducer |
| `JsonRepair.RepairIsIdempotent` | `apps/api/src/main.ts:37-77` | repairing twice is repairing once, and the same string is left open |
| `JsonRepair.RepairCleans` | `apps/api/src/main.ts:58-69` | no control character stands inside a string unless directly after a backslash; a text is unchanged exactly when it was so |
| `JsonRepair.RepairPreservesMeaning` | `apps/api/src/main.ts:30-36` | a strict reader of the repaired text (section 7 of RFC 8259) gets exactly what a reader lenient about raw controls gets from the original, rejections included |
| `JsonRepair.ValidTextIsUntouched` | `apps/api/src/main.ts:30-36` | text with valid strings is not touched |
| `Classifier.ExtractCharacterNgrams` | `packages/shared/src/merchant-classifier.ts:66-86` | all n-grams of every size, or a refusal of empty text |
| `Classifier.TrainMerchantClassifier` | `packages/shared/src/merchant-classifier.ts:104-177` | counts, vocabulary and the labels sorted by the collation are those of the training rows, or a refusal exactly when configuration, rows or the number of categories is not valid |
| `ClassifierTheorems.AssertMerchantClassifierModel` | `packages/shared/src/merchant-classifier.ts:180-246` | accepts exactly the models whose counts add up, whose tokens are in the vocabulary, and which repeat no token and no category |
| `ClassifierMeaning.TrainedIff` | `packages/shared/src/merchant-classifier.ts:104-155` | training succeeds exactly for a good configuration and good training rows of two categories or more, each with one slug |
| `ClassifierMeaning.LabelsMeaning` | `packages/shared/src/merchant-classifier.ts:133-175` | each label counts the training rows of its category and their n-grams, one by one |
| `ClassifierMeaning.LabelOrderMeaning` | `packages/shared/src/merchant-classifier.ts:163-165` | one label for each category of the training rows, in the order of the collation |
| `ClassifierMeaning.VocabularyMeaning` | `packages/shared/src/merchant-classifier.ts:147-162` | the vocabulary lists once, in code order, the n-grams of some training row |
| `ClassifierMeaning.AcceptedIff` | `packages/shared/src/merchant-classifier.ts:180-246` | a model passes its check exactly with two labels or more, all good and of different categories, a vocabulary without repeats, and documents that add up |
| `ClassifierTheorems.TrainedIsAcceptedIff` | `packages/shared/src/merchant-classifier.ts:104-246` | a trained model passes its own check exactly when every category has a pattern long enough for one n-gram |
| `ClassifierTheorems.SmallNgramsAreAccepted` | `packages/shared/src/merchant-classifier.ts:104-246` | with a smallest size of at most three, every trained model passes |
| `ClassifierTheorems.TrainedIsRefused` | `packages/shared/src/merchant-classifier.ts:104-246` | single characters in two categories, with n-grams of five characters, train a model that is refused |
| `ClassifierTheorems.LabelsIgnoreOrder` | `packages/shared/src/merchant-classifier.ts:126-176` | the same rows in another order give the same labels, up to their order, and the same refusals |
| `ClassifierTheorems.TrainingIgnoresOrderIff` | `packages/shared/src/merchant-classifier.ts:163-176` | every order of the rows gives the same model exactly when the collation tells all training categories apart |
| `ClassifierTheorems.TiedCategoriesShow` | `packages/shared/src/merchant-classifier.ts:163-165` | in every locale that ties two given category ids, two rows in them, trained in both orders, give two models |
| `ClassifierTheorems.PredictMerchantCategory` | `packages/shared/src/merchant-classifier.ts:249-300` | answers exactly if the model passes its check and the normalised pattern is not empty |
| `ClassifierTheorems.Evaluate` | `packages/shared/src/merchant-classifier.ts:302-335` | fails exactly if a row cannot be predicted; otherwise per label the hits, wrong answers and misses, and over all labels hits add up to the correct rows and the others each to the rest |

## Left out

Assumptions of the models:

- SHA-256 and the PKCE transform are functions given as parameters. Where a theorem needs a digest to tell texts apart, it asks so of the texts of the rows at hand only. Sealing is a perfect box.
- Each operation reads the clock once; no theorem needs the clock to move forward except the retention ones, which say so.
- Random ids and tokens are parameters that the insert checks for freshness.
- Transactions are atomic and serial; isolation anomalies are not modelled.
- `DatasetSplit` takes the list of sorted keys for its JSON text, which `CanonicalJsonTheorems.GroupHashTellsApart` justifies. Characters are compared by code point instead of UTF-16 unit, and strings have no lone surrogates.
- A finite number is the text ECMAScript writes for it; arrays have no holes; `localeCompare` is any total preorder on strings.
- The three dataset builders are one builder over a type of examples with three cases; a date in a row is any text of its milliseconds.
- Non-integer numbers, wrong JavaScript types and unknown enum strings are excluded by the types of the models.
- Dates that the program keeps as ISO text are milliseconds or records; the round trip through text is not modelled, except in `ManualSavings.StringOrderIsDateOrder`.
- Id folding is ASCII lower case in `LoanOverview`; Unicode normalisation of merchant patterns is a parameter of `Classifier`.
- Lists whose order has no meaning for the result (rejection reasons, map iteration) are sets and maps. So are the token counts of a classifier label, an object whose order of keys canonical JSON does not keep.
- The bank server gives each job one claim, the fresh one it was asked for, and an operator removes a stale lease lock only while the runner is down and its child gone.
- Answers of the operating system, object storage and the bank page are oracles that may say anything.

Modelled on values instead of in place:

- FamilyApiClient and the maintenance loop: their awaits interleave with other calls, so `SessionProtocol` models one grant as a state machine whose steps lie between awaits; the order in which the sweep visits grants is not captured.
- The bank runner's loop and the trainer are state machines too, since a crash may fall between any two of their steps; the rewrites of the runner's dictionary and file are the class `BankRunner.StateStore`.
- The queue models several keys, but `SessionProtocol` follows one grant only.
- In `SessionProtocol` an action that has ended begins no new fetch, since the one tool with parallel fetches starts them all at once; the answer of a refresh and the release of the fetches that wait for it are one step.

Not modelled:

- `SessionProtocol.ReplacedCookieNeverSent`: says nothing of the process dying between a rotation upstream and the write to the store.
- `Recipe.ReplayConfirms`: parsers and the candidates of fields other than the merchant are arbitrary deterministic functions, so their regular expressions and `assertParseInvariants` are not modelled; nor are confidence and the masked card number. `Recipe.MerchantReplay` takes the merchant candidates of the program.
- `LoanOverview.ComposeFinancialOverview`: the choice of fields in the public copy of a loan and the housing plans of `manual-finance.ts` are not modelled.
- `ProcessTree.OwnedProcessTree.SignalOwned`: the race between identifying a process and signalling it remains, as in the program.
- `Lease.ValidationLease.MonitorProcess`: swap and memory thresholds are one oracle; the receipt file is not modelled. Each tree has its own oracle, and a signal that finds its process gone counts as delivered.
- `ClassifierTheorems.Evaluate`: log scores, probabilities and macro F1 are floating point and left out; which label wins is a parameter that yields some label of the model.
- `Lineage.LineageStore.RevokeMerchantRuleLineage`: reasons, authors and dates other than those of training runs are not modelled.
- Reading of an authorization request for the consent page, the lists of grants, and file permissions of the auth store.
- Parsing of a stored split policy, and hashes of embeddings.
- HTTP routes, HTML pages, rate limits, logging, configuration, SQL text, the parsers' word lists and the trainer's manifest checks: plumbing or tables that are true by reading one branch.
