# Models of the lapligence build support, discovery and checking code

This project models the parts of lapligence whose correctness is a matter of whole runs rather than
of single statements, and proves for all inputs what those parts are there to guarantee.

**The vendor patch preparer** (`build_support/vendor_patches.rs`) brings a vendored source tree to the
state in which every shipped patch is applied. `SourceText` covers newlines: the canonical content
that digests are taken of, and parsing into lines and rendering back. `Edits` and `Hunks` are the
hunk applier with its running offset. `PatchTokens` and `PatchText` are the unified-diff parser, with
a printer as its partner. `Padding` and `Sha256` are the digest. `Planning` and `Restoring` give the
run as a function of the tree and of what Git says: planning judges every target, restoration
identifies stale files through the history of the manifest. `Runs`, `Acceptance`, `Interrupted` and
`Repeated` prove what runs do: when they are accepted, what every write replaces, what is left by a
run that stops after any number of writes, and what a repeated run does. `Shipping` draws the
conclusions for patch sets whose manifest was computed from their texts, and `Preparer` shows that the
parser and the digest hand to a run what it assumes of them. `Checkout` is the imperative program: a
class that owns the tree and replaces files one at a time, shown to perform exactly the writes of that
function.

**Source discovery** (`src/config/paths.rs`, `src/config/resolve.rs`): `Glob` has the table-filling
matchers and the relation they decide, `Pruning` the filters, `PathOrder` the ordered listing and
`Discovery` the pruned traversal against filtering the whole tree.

**The pairwise manifest checker** (`scripts/check_syn038_pairwise_manifest.py`): `Support` has the
backtracking search and the minimal explanation for any factor table and any rules; `PairwiseRules`
has the factors and rules of the script, `PairwiseSearch` what the search decides for them without
searching, `PairwiseRows` how to exchange complete vectors, and `PairwisePairs` which pairs of levels
the search misjudges.

**Smaller programs**: `Aliases`, `AliasPaths` and `AliasChoice` are the alias check and the alias
generator of the Annex assignments; `Spans` is the self-time accounting of build profiles; `Watchdog`
is the memory safeguard over whole sample runs; `Rounds` is the order of backends in benchmark rounds.

Inputs instead of effects: the tree is a map from paths to contents, and a `char` stands for one byte.
The digest and the UTF-8 test are parameters of the preparer (`Env`); the answers of Git are an input
(`GitView`); an interruption is a number of atomic replacements after which the run stops. Memory
samples, trace events and directory trees are values. Paths are Unix paths; a run knows a file by one
string for all spellings of its path (`Preparer.KeyOf`).

Where code and expectation part, the code is followed and the boundary is proved:

- `perf/README.md` says that each backend sees each position. That holds exactly for an odd number of
  backends (`Rounds.EachSeesEachIffOdd`).
- Pruning loses files for include patterns such as `src/**`. Exactly when is
  `Discovery.HarmlessExactly` for any filters and `Discovery.OneIncludeIsHarmless` for one include
  pattern.
- A pair of levels can be rejected although a complete vector satisfies every rule. The pairs with
  that fate are a structured target (field, element, row slice, concatenation or positional pattern)
  together with a return statement, a declaration initializer or a kind of initializer, and no others
  (`PairwisePairs.PairsExactly`); so an observation keeps all its pairs exactly when it holds none of
  them (`PairwisePairs.ObservationPairs`).
- An accepted run can be rejected when repeated, because the result still shows the old lines
  (`Repeated.InsertionThatNeverSettles`) or because a header announces the new lines elsewhere
  (`Repeated.MisnumberedHunkNeverSettles`); exactly when is `Repeated.RepeatedRun`.
- A run stopped while it resets applied files is not resumed (`Interrupted.CutResetIsStuck`).
- Line numbers beyond the machine's signed range wrap in the hunk loop (`Edits.WrappedStartApplies`).
  Planning enters that loop only when every hunk matches, and then no number is beyond the range
  (`Edits.MatchingIsAscending`).
- A hunk without context that inserts lines names the line before them in diff notation; the code puts
  them before that line (`Edits.InsertionGoesBefore`). When that makes no difference is
  `Edits.InsertionAsMeant`.
- SHA-256 padding is injective on all lengths, not only below 2^61 bytes (`Padding.PadInjective`).

## Model

| member | source | states |
|---|---|---|
| `SourceText.CanonicalBytes` | build_support/vendor_patches.rs:2510-2523 | The index loop turns every CRLF and every lone CR into one LF and keeps all else. |
| `SourceText.CanonicalIdempotent` | build_support/vendor_patches.rs:2510-2523 | Canonical content holds no CR, and canonicalising it again changes nothing. |
| `SourceText.RejoinCanonical` | build_support/vendor_patches.rs:2594-2627 | For every list of segments, stripping CRs and joining with either newline keeps the canonical content up to one LF for a CR at the very end. |
| `SourceText.RenderKeepsCanonical` | build_support/vendor_patches.rs:2594-2627 | Parsing a text and rendering its lines keeps the canonical content if and only if the text does not end in a lone CR, however newlines are mixed. |
| `SourceText.RenderIsExact` | build_support/vendor_patches.rs:2594-2627 | The text is reproduced byte for byte if and only if its newlines are uniform and it does not end in a lone CR. |
| `SourceText.ParseOfRender` | build_support/vendor_patches.rs:2594-2627 | Rendered clean lines parse back to themselves in either newline style. |
| `SourceText.ParseOfCanonical` | build_support/vendor_patches.rs:2594-2627 | Without a lone CR, the lines and the final newline depend on the canonical content alone. |
| `Edits.ApplyFromIsReplaced` | build_support/vendor_patches.rs:2525-2570 | From any intermediate point the running-offset loop succeeds exactly when all remaining hunks match the original source, and then equals simultaneous replacement. |
| `Edits.ApplyIsReplaced` | build_support/vendor_patches.rs:2525-2570 | Ascending, disjoint hunks apply if and only if each matches the source at its own old start; the result replaces them all at once. |
| `Edits.ReplacedLength` | build_support/vendor_patches.rs:2525-2554 | The length changes by the sum of new minus old counts. |
| `Edits.NewLinesStand` | build_support/vendor_patches.rs:2525-2592 | With starts renumbered by the growth before them, every hunk's new lines stand at its new start in the result. |
| `Edits.WrappedStartApplies` | build_support/vendor_patches.rs:2556-2561 | Called on its own, the loop applies two hunks of which the second does not match at its own line, because its start wraps. |
| `Edits.MatchingIsAscending` | build_support/vendor_patches.rs:2455-2507 | Ordered hunks that match a file have line numbers within the signed range, so planning never reaches the wrap. |
| `Edits.PlannedIsReplaced` | build_support/vendor_patches.rs:2455-2507 | Where planning applies ordered hunks, the result is their simultaneous replacement. |
| `Edits.InsertionGoesBefore` | build_support/vendor_patches.rs:2525-2570 | A hunk without old lines is refused at line 0 and beyond the end, and otherwise puts its lines before the line it names. |
| `Edits.InsertionAsMeant` | build_support/vendor_patches.rs:2525-2570 | That is what a diff tool means by it, namely after the line it names, if and only if all inserted lines equal that line. |
| `Edits.ReversedPatchRestores` | build_support/vendor_patches.rs:2525-2592 | Applying the edits and then their reverse gives the source back, and in between the patch is recognised as applied. |
| `Hunks.PatchLines` | build_support/vendor_patches.rs:2525-2554 | The loop over counted hunks computes the specified application, failing where it fails. |
| `Hunks.ApplyFile` | build_support/vendor_patches.rs:2525-2554 | The rendered patched text, or failure, as specified. |
| `Hunks.ReversedPatchRestores` | build_support/vendor_patches.rs:2563-2592 | A well-numbered patch applies to a matching file and the patch with added and removed lines swapped restores it. |
| `PatchTokens.ParsePrintedHeader` | build_support/vendor_patches.rs:2812-2860 | Every header of 64-bit numbers is read back from its printed form, with or without counts of one, whatever heading follows. |
| `PatchTokens.ParsePrintedPath` | build_support/vendor_patches.rs:2786-2810 | A safe path without whitespace is read back from a file header. |
| `PatchText.ParsePatch` | build_support/vendor_patches.rs:2629-2784 | The line loop computes the specified parse; an accepted patch has files, hunks in each, true counts, safe paths and no body line that reads as a file header. |
| `PatchText.ReadShape` | build_support/vendor_patches.rs:2629-2784 | Whatever the text, what is accepted has that shape. |
| `PatchText.PrintThenParse` | build_support/vendor_patches.rs:2629-2784 | Every patch of that shape, printed in any style, is read back, less one CR at the end of each line that has one. |
| `PatchText.RoundTrip` | build_support/vendor_patches.rs:2629-2784 | Printing and parsing is the identity exactly on patches of that shape without CRs at line ends. |
| `PatchText.Reprint` | build_support/vendor_patches.rs:2629-2784 | Reprinting any accepted text changes nothing of what is read but those CRs. |
| `Padding.PadMessage` | build_support/vendor_patches.rs:2345-2351 | The padding loop terminates with the message, the marker, the fewest zeros and the big-endian bit length. |
| `Padding.Fewest` | build_support/vendor_patches.rs:2348-2350 | No smaller number of zeros leaves exactly the length in the last block. |
| `Padding.PaddedLength` | build_support/vendor_patches.rs:2345-2351 | The padded length is a multiple of 64 and less than 73 bytes more; it starts with the message and ends with the length. |
| `Padding.PadInjective` | build_support/vendor_patches.rs:2345-2351 | No two messages, of whatever length, have the same padding. |
| `Padding.PadSuffixFree` | build_support/vendor_patches.rs:2345-2351 | Below 2^61 bytes no padded message ends in the padding of another. |
| `Sha256.Expand` | build_support/vendor_patches.rs:2354-2374 | The array loops fill the message schedule of section 6.2.2 of FIPS 180-4, whose sum is taken in the other direction. |
| `Sha256.ShiftOnce` | build_support/vendor_patches.rs:2376-2400 | Moving eight array words one by one equals the simultaneous update of the working variables. |
| `Sha256.ShiftRegister` | build_support/vendor_patches.rs:2376-2400 | After any number of rounds the eight words are the last four values of two recurrences. |
| `Sha256.Digest` | build_support/vendor_patches.rs:2353-2411 | The loops over all blocks and the final byte loop compute the hash of the padded message, for any word operations. |
| `Sha256.Sha256` | build_support/vendor_patches.rs:2268-2412 | With the 32-bit operations and constants the result is that hash, 32 bytes long. |
| `Sha256.LoadStore` | build_support/vendor_patches.rs:2407-2411 | A word is read back from the four bytes that store it. |
| `Planning.PlanAllClean` | build_support/vendor_patches.rs:282-365 | The whole plan is clean exactly when every file is and no two files share a path. |
| `Planning.PlanAllApplied` | build_support/vendor_patches.rs:282-388 | The whole plan is applied exactly when every file is. |
| `Planning.ApplyPlanCases` | build_support/vendor_patches.rs:282-388 | Planning succeeds exactly on trees with retired files at base, a passing checkout and files all clean or all applied; it writes every rendering or nothing. |
| `Runs.RestoreCases` | build_support/vendor_patches.rs:468-598 | Restoration succeeds exactly when all targets exist and nothing is stale or everything stale is identified and authentic. |
| `Runs.RestoreFacts` | build_support/vendor_patches.rs:468-598 | A restoration replaces exactly the files off their base, each once, by content at its base digest. |
| `Runs.RestoredTree` | build_support/vendor_patches.rs:468-598 | It hands on the tree unchanged, or with every target at base, and touches nothing else. |
| `Runs.ApplyFacts` | build_support/vendor_patches.rs:259-365 | An accepted plan writes nothing on an applied tree and every target, at its applied digest, on a clean one. |
| `Runs.AcceptedRunPrepares` | build_support/vendor_patches.rs:243-268 | After every accepted run all patch targets are at their applied digest, all retired targets at base, and no other file changed. |
| `Runs.EveryWriteIsJustified` | build_support/vendor_patches.rs:478-577 | Every write of every run replaces the base, the current applied content or content that a searched manifest revision lists as applied for that path. |
| `Runs.UnrestorableTreeIsUntouched` | build_support/vendor_patches.rs:478-577 | If a stale file is unidentified or a base blob is not authentic, the run is rejected and no file changes. |
| `Acceptance.RunIsAcceptedWhen` | build_support/vendor_patches.rs:243-388 | For any patches whose verdict on each file follows its digest: a run is accepted if and only if the checkout passes, all targets exist and the tree is all clean, all applied, or stale and completely restorable. |
| `Acceptance.ShippedClean` | build_support/vendor_patches.rs:2414-2508 | On the base text, in LF or CRLF, a shipped patch is judged clean and rendered in the file's own newlines. |
| `Acceptance.ShippedApplied` | build_support/vendor_patches.rs:2414-2508 | On the patched text it is judged applied. |
| `Acceptance.ShippedBehaves` | build_support/vendor_patches.rs:2414-2508 | So a shipped patch behaves as the acceptance theorem assumes, on every readable file. |
| `Acceptance.ShippedRenderingIsApplied` | build_support/vendor_patches.rs:2455-2507 | What a clean run writes is recognised as applied. |
| `Interrupted.CutApplyIsRejected` | build_support/vendor_patches.rs:259-268 | Strictly between the first and the last applying write every target is wholly old or wholly new, and every later run is rejected without a write. |
| `Interrupted.MixedTreeIsRejected` | build_support/vendor_patches.rs:368-388 | A tree without stale files that has one target at base and one applied is rejected without a write. |
| `Interrupted.CutRestoreResumes` | build_support/vendor_patches.rs:468-598 | A run stopped while stale files remain is completed by the next one: the same remaining writes, outcome and final tree. |
| `Interrupted.CutResetIsStuck` | build_support/vendor_patches.rs:468-598 | After a run stopped while resetting applied files no later run writes, and a later run is accepted exactly when only retired files had been stale, no target had been clean, nothing had been reset yet and every target shows its patch applied. |
| `Interrupted.CutBetweenContinues` | build_support/vendor_patches.rs:243-268 | A run stopped after its last restoring and before its first applying write goes on from there, to the same final tree. |
| `Interrupted.EveryCut` | build_support/vendor_patches.rs:243-268 | For every number of writes after which a run can stop: whether it is completed, continued, stuck or rejected by the next one. |
| `Repeated.RepeatedRun` | build_support/vendor_patches.rs:2455-2507 | Repeating an accepted run never writes. After a run without writes it is accepted exactly when the checkout passes; after one with writes that read back as the same lines, exactly when moreover each hunk's new lines stand at its new start and no patch leaves all its old lines standing; for well-numbered hunks the old lines alone decide. |
| `Repeated.CleanReadsBack` | build_support/vendor_patches.rs:2594-2627 | Patched lines without CR and LF read back when there is one and the last is marked by its text or a final newline. |
| `Repeated.WrittenFile` | build_support/vendor_patches.rs:259-268 | A writing run found each file clean and left it as it rendered it. |
| `Repeated.InsertionThatNeverSettles` | build_support/vendor_patches.rs:2455-2507 | For any digest that tells the two texts apart: a run of a well-numbered patch whose result shows its old lines is accepted, and every later run is rejected. |
| `Repeated.MisnumberedHunkNeverSettles` | build_support/vendor_patches.rs:2455-2507 | The same of a hunk whose header announces its new line elsewhere, although its old line is gone. |
| `Shipping.ShippedRunIsAcceptedWhen` | build_support/vendor_patches.rs:243-388 | For patch sets whose manifest holds the hashes of their base and patched texts, on readable files and blobs: a run is accepted if and only if the checkout passes, all targets exist and the tree is all clean, all applied, or stale and completely restorable. |
| `Shipping.ShippedRunRepeats` | build_support/vendor_patches.rs:2455-2507 | For such sets, repeating an accepted run writes nothing and is accepted exactly when the checkout passes. |
| `Shipping.RestyledBlob` | build_support/vendor_patches.rs:600-628 | A base blob rendered in the newline style of the file it replaces keeps its canonical content and has no lone CR. |
| `Preparer.ParsedIsValid` | build_support/vendor_patches.rs:2629-2784 | Whatever the patch files say, if they parse, their files and hunks satisfy what a run assumes of its patches. |
| `Preparer.KeysAreComponents` | build_support/vendor_patches.rs:2786-2810 | The string by which a run knows a file is the same for two paths exactly when their components are. |
| `Preparer.DigestOf` | build_support/vendor_patches.rs:2510-2523 | The byte loop followed by the hash computes the SHA-256 of the canonical content, 32 bytes long. |
| `Preparer.ShaIsCanonical` | build_support/vendor_patches.rs:2510-2523 | With that digest, a run satisfies what the theorems on shipped patch sets assume of digests. |
| `Checkout.MatchHistory` | build_support/vendor_patches.rs:676-715 | The early-exit loop gives every file the first revision in log order that explains it, as if each file were searched alone. |
| `Checkout.Survey` | build_support/vendor_patches.rs:478-497 | One reading of the files finds the stale and the applied ones, in order. |
| `Checkout.VendorCheckout.Replace` | build_support/vendor_patches.rs:872-1187 | The content is swapped whole, and only if the target is at the digest planned for and not already at the new one. |
| `Checkout.VendorCheckout.RestoreBuildWritten` | build_support/vendor_patches.rs:468-598 | Every execution performs the leading writes of the restoration plan, or nothing if there is no plan. |
| `Checkout.VendorCheckout.ApplyDirectory` | build_support/vendor_patches.rs:243-268 | Every execution, complete or interrupted, performs exactly the leading writes of the specified run, with its outcome. |
| `Glob.MatchToIsMatches` | src/config/paths.rs:335-416 | The recursive form decides the declarative relation on every prefix of the pattern. |
| `Glob.ComponentGlobMatches` | src/config/paths.rs:388-416 | The table decides whether a component can be cut into pieces that the pattern characters take. |
| `Glob.GlobComponentsMatch` | src/config/paths.rs:335-356 | The table decides whole-path matching, `**` taking any number of components. |
| `Glob.PatternPrefixMatches` | src/config/paths.rs:358-386 | True if and only if some prefix of the pattern matches the whole path. |
| `Pruning.IsExcluded` | src/config/paths.rs:221-227 | Excluded if and only if an exclude pattern matches the path or one of its ancestors. |
| `Pruning.AllowsFile` | src/config/paths.rs:207-219 | The file filter decides its declarative meaning. |
| `Pruning.AllowsDirectory` | src/config/paths.rs:173-202 | The directory filter decides its declarative meaning. |
| `Pruning.ReachesExactly` | src/config/paths.rs:173-202 | Exactly which ancestors of a matching file a pattern keeps open: all, unless its only `**` is its last component; then those no deeper than the components before it. |
| `PathOrder.ListingIsUnique` | src/config/paths.rs:245-312 | A sorted listing without repetition is determined by what it lists. |
| `Discovery.PrunedExactly` | src/config/paths.rs:245-312 | Pruned traversal finds exactly the wanted files to which every directory on the way is allowed. |
| `Discovery.PrunedIsFiltered` | src/config/paths.rs:173-312 | Without include patterns that end in their only `**` after another component, that is filtering the whole tree. |
| `Discovery.TrailingLoses` | src/config/paths.rs:173-312 | With one pattern of that form exactly the wanted files deeper than the pattern is long are lost. |
| `Discovery.HarmlessExactly` | src/config/paths.rs:173-312 | For any includes and excludes, pruning is harmless on every tree if and only if the includes keep open every directory on the way to every wanted file. |
| `Discovery.OthersKeepOpen` | src/config/paths.rs:173-312 | For a wanted file, only the directories below the literal part of a trailing `**` include need another include; for other includes none does. |
| `Discovery.OneIncludeIsHarmless` | src/config/paths.rs:173-312 | For one include and any excludes, pruning is harmless if and only if the include does not end in its only `**` or no wanted file is deeper than it is long. |
| `Discovery.TrailingIsHarmful` | src/config/paths.rs:173-312 | Without excludes, if and only if the include does not end in its only `**`. |
| `Discovery.DiscoverFiles` | src/config/paths.rs:245-312 | The worklist loop lists exactly the files of pruned traversal, once each and sorted. |
| `Discovery.DiscoverSources` | src/config/resolve.rs:66-77 | The nested loops list exactly the units below all source directories, once each and sorted. |
| `Support.Searcher.Search` | scripts/check_syn038_pairwise_manifest.py:506-532 | The search that sets and clears one dictionary equals the functional search and leaves the dictionary as it was. |
| `Support.FindSupportIsFirst` | scripts/check_syn038_pairwise_manifest.py:506-532 | A vector is returned if and only if a support exists, and it is the first in search order and level order. |
| `Support.FewerRules` | scripts/check_syn038_pairwise_manifest.py:506-543 | Enabling fewer rules loses no support. |
| `Support.ImpossibleRules` | scripts/check_syn038_pairwise_manifest.py:535-543 | The deletion loop keeps rules that still admit no support and each of which is needed; on levels inside the profile it never ends with none. |
| `Support.OnlyOthersSeeTheTrail` | scripts/check_syn038_pairwise_manifest.py:506-532 | Of rules that stay false only the complete vector matters; the others are also asked on every partial vector of the search. |
| `Support.PersistentSupport` | scripts/check_syn038_pairwise_manifest.py:506-532 | If all rules stay false once false, no support means that no complete vector satisfies them. |
| `Support.PartsAreSupported` | scripts/check_syn038_pairwise_manifest.py:589-608 | Then the vector check on an observation implies the check of every part of it. |
| `PairwiseRules.ScriptSupport` | scripts/check_syn038_pairwise_manifest.py:216-532 | What a support is for the rules of the script: only five of them are asked on the way. |
| `PairwiseRules.ExplainImpossible` | scripts/check_syn038_pairwise_manifest.py:535-543 | For levels without a support, `impossible_rules` with the table and rules of the script never raises and returns an irreducible explanation. |
| `PairwiseSearch.SupportsExactly` | scripts/check_syn038_pairwise_manifest.py:506-532 | The same without the search: a complete vector that satisfies all rules, with a written-out condition on which axes are fixed. |
| `PairwiseRules.HastyAreNotPersistent` | scripts/check_syn038_pairwise_manifest.py:297-412 | Each of the five is false on some partial vector and true on a completion. |
| `PairwiseSearch.NoSupportWhenPinned` | scripts/check_syn038_pairwise_manifest.py:506-532 | With storage fixed, a write kind beside any fixed target, and a scope beside any fixed write kind and process, nothing is found exactly when no complete vector satisfies the rules; pairs are covered by `PairwisePairs.PairsExactly`. |
| `PairwisePairs.PairsExactly` | scripts/check_syn038_pairwise_manifest.py:604-637 | For every pair of levels, in either profile: nothing is found exactly when no complete vector satisfies the rules or the pair is a structured target with a return statement, an initializer or a kind of initializer; pairs of the latter form always have such a vector. |
| `PairwisePairs.ObservationPairs` | scripts/check_syn038_pairwise_manifest.py:589-608 | An observation that passes the vector check has all its pairs accepted if and only if it holds no such pair. |
| `PairwisePairs.ProfilesAgree` | scripts/check_syn038_pairwise_manifest.py:619-633 | A pair inside the Core profile is found there if and only if it is found in the wider profile. |
| `PairwisePairs.OutsideHasReason` | scripts/check_syn038_pairwise_manifest.py:627-633 | So a pair that only the wider profile supports holds one of its two levels, and its list of reasons is not empty. |
| `PairwiseRows.Repair` | scripts/check_syn038_pairwise_manifest.py:506-532 | Any other pair of a vector that satisfies the rules is part of one that the search reaches. |
| `PairwiseRows.IntoCore` | scripts/check_syn038_pairwise_manifest.py:216-462 | A pair inside the Core profile that is part of any vector that satisfies the rules is part of one inside the profile. |
| `PairwisePairs.ReturnedFieldIsRejected` | scripts/check_syn038_pairwise_manifest.py:297-348 | The pair of a return statement and a field is rejected although it has a satisfying vector. |
| `PairwisePairs.DeclaredFieldIsRejected` | scripts/check_syn038_pairwise_manifest.py:401-412 | The pair of a field and an automatic initializer is rejected although it has a satisfying vector. |
| `PairwisePairs.ReturnedFieldFails` | scripts/check_syn038_pairwise_manifest.py:297-348 | The first of these is refused at once by one of the five rules. |
| `PairwisePairs.DeclaredFieldHolds` | scripts/check_syn038_pairwise_manifest.py:297-412 | The second passes all five, so its completions are refused only on the way. |
| `PairwisePairs.RejectedObservation` | scripts/check_syn038_pairwise_manifest.py:589-608 | An observation satisfies every rule and passes the vector check, yet one of its pairs is rejected. |
| `Aliases.Visitor.Visit` | scripts/check_syn038_annex_assignments.py:297-310 | A successful visit keeps the visited names ranked below their aliases; a failing one proves the manifest unsound. |
| `Aliases.CheckAliases` | scripts/check_syn038_annex_assignments.py:295-313 | Accepts if and only if every parent is assigned, nothing is OPEN and the alias graph has no cycle. |
| `AliasPaths.PathToCore` | scripts/generate_syn038_annex_assignments.py:463-476 | The breadth-first search returns a shortest route to Core, or none exists. |
| `AliasChoice.AssignAliases` | scripts/generate_syn038_annex_assignments.py:479-494 | Every pending name becomes an alias by hand, of the first step of a shortest route, of its root name, or stays open, in that order of preference. |
| `AliasChoice.AliasIsCloser` | scripts/generate_syn038_annex_assignments.py:463-488 | The rest of a shortest route is a shortest route of the alias parent, one step closer to Core. |
| `AliasChoice.EdgeDescends` | scripts/generate_syn038_annex_assignments.py:479-494 | Of two names that the loop itself made aliases, the one pointing to the other is further from Core, or reaches none and has the longer name. |
| `AliasChoice.CyclesAreForced` | scripts/generate_syn038_annex_assignments.py:479-494 | Every cycle of generated aliases passes through one chosen by hand. |
| `AliasChoice.AcyclicExactly` | scripts/generate_syn038_annex_assignments.py:479-494 | The generated aliases have no cycle if and only if no alias by hand leads back to itself. |
| `AliasChoice.GeneratedIsAccepted` | scripts/generate_syn038_annex_assignments.py:479-494 | The check script accepts the result if and only if every pending name reaches Core, has a root name or is settled by hand, every alias by hand names an assigned production, and none leads back to itself. |
| `Spans.ProfileSpans` | scripts/ci_build_timings.py:166-183 | On every trace the loop reports the spans of the forest that the trace describes, inner ones first. |
| `Spans.ForestIsFaithful` | scripts/ci_build_timings.py:166-183 | Writing that forest out again gives the trace without other events and unmatched ends. |
| `Spans.RunIsForest` | scripts/ci_build_timings.py:166-183 | At every event the stack holds the durations of the direct children closed so far. |
| `Spans.SelfTimeConservation` | scripts/ci_build_timings.py:166-183 | With times that never go back no clamp fires, each self time is the duration less the direct children's, and self times add up to the outermost durations. |
| `Watchdog.ThresholdIsExact` | src/memory_limit.rs:270-287 | The rounded threshold is reached exactly when 100 times the usage is at least the limit times the percentage (capped at 100), and a 64-bit limit is never cut. |
| `Watchdog.WatchdogLoop` | src/memory_limit.rs:487-542 | The run ends at the first successful sample above the limit with nothing logged in that step, and logs just the entrances into the region and the starts of failing. |
| `Watchdog.RunCountsEntrances` | src/memory_limit.rs:487-542 | In every run the usage warnings are as many as the entrances of its successful samples into the region. |
| `Watchdog.FailuresAreReportedOnce` | src/memory_limit.rs:487-542 | In every run, stopped or ended, each maximal row of failed samples it took is reported once, at its first. |
| `Rounds.Orders` | perf/scripts/value_backends.py:570-572 | The measured rounds follow the warm-up rounds in one numbering. |
| `Rounds.RoundIsPermutation` | perf/scripts/value_backends.py:232-235 | Every round runs every backend once. |
| `Rounds.RoundOrderAt` | perf/scripts/value_backends.py:232-235 | Which backend stands at a position of a round. |
| `Rounds.RoundsBalance` | perf/scripts/value_backends.py:232-235 | In any multiple of 2n consecutive rounds a backend takes each position twice per 2n for odd n; for even n four times at positions of its own parity and never at others. |
| `Rounds.MeasuredBalance` | perf/scripts/value_backends.py:570-572 | Of the measured rounds of distinct backends, when they are a multiple of 2n after any number of warm-ups: exactly how often each backend stands at each position. |
| `Rounds.EachSeesEachIffOdd` | perf/README.md:121-123 | Each backend sees each position if and only if their number is odd. |

## Left out

- Edits.ApplyIsReplaced: stated for sources and growth within the signed machine range; beyond it line numbers wrap, as `Edits.WrappedStartApplies` shows.
- Acceptance.RunIsAcceptedWhen: assumes that the verdict on each file follows its digest; `Shipping.ShippedRunIsAcceptedWhen` needs no such premise.
- Repeated.RepeatedRun: says when a repetition after writes is accepted only for results that read back as the lines they were; others are judged by lines that are not those of the patch.
- Preparer.DigestOf: takes a char for one byte, and a char above 255, which no file holds, for its last eight bits.
- Shipping.ShippedRunIsAcceptedWhen: assumes that files and blobs at the hash of a text are that text; the hash has no collisions among them.
- Real filesystem work: capability opens, metadata preservation, temporary names, permissions, and what other processes do meanwhile.
- Git: subprocess calls, checkout validation and path decoding are inputs of the run.
- The text formats of the manifest and of its history: expectations and revisions are values here.
- Error texts and the command-line drivers of all programs.
- The string level of glob patterns: normalisation of separators and the splitting of a pattern into components.
- The order in which a directory is read: the traversal takes entries in any given order.
- The 2,247 concrete cells of the pairwise manifest and the other checks of the two Annex scripts.
- Short locations in `profile_spans`: a span carries its category, name and location as one tag.
- Timing, the stop flag and the logger of the watchdog: a run is the sequence of its samples.
- The rest of `src/config`, of `src/` and of `perf/`: mostly single-branch validation and measurement.
