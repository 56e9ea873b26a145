# Verification model of the CarSalePro backend

The project models the parts of the backend whose correctness is not visible in any single
function, and proves what they promise.

- **KYC object migration** (`KycMigration`): the copy, verify, repoint, delete protocol over two
  buckets and a table. `Step` is an action system; the class `Migration` is the script, which
  records every world it passes through in a ghost history. A crash stops a run at any element of
  that history, and the next run starts there (`Runs`).
- **Public photos** (`PhotoOrder`, `Manifest`, `PhotoMirror`, `MirrorScripts`, `AngleBackfill`): the
  mirror script and the manifest backfill write the same tables and share one invariant, that a
  stamped listing has its photos in the public bucket. Requests may fail, take effect and report an
  error, or store other bytes.
- **Search text** (`Strings`, `SearchText`, `Transliteration`, `CanonicalForm`, `CityKeys`,
  `CityAliases`, `SearchBackfill`): the sequential string transformation refines a one-pass reader, which yields
  completeness of the filters, stability, and the laws of the city keys.
- **Money** (`Csv`, `Decimal`, `Dac7`, `Revenue`): a report printer undone by an independent
  RFC 4180 reader, and conservation of money over windows and years.
- **Tables over whole runs** (`AdminUsers`, `LegalVersions`, `CatalogI18n`, `Cors`).
- `Wrappers`, `Sorting`, `Paging` and `Runs` are shared.

Classes model what the source updates in place; each method is tied to a specification function or
predicate, and the properties are lemmas about those; the main methods also state their answers row by row,
without those functions. Faults, clocks, paths and query orders are
parameters. `hide` statements only keep proofs short. `dafny verify dfyconfig.toml` checks everything.

Where the code and its comments disagree, the model follows the code:

- `src/common/search-text.ts:39-41` says that the order of the transliteration table matters. Its
  keys are single characters and no replacement contains one, so it does not
  (`Transliteration.OrderDoesNotMatter`).
- `scripts/migrate-kyc-objects.ts:20-21` says that a rerun takes a key for finished when its destination
  object verifies. The fast path (lines 184-197), which also deletes the source, takes any object. When a row names the KYC bucket
  before its copy exists, a first run may leave a wrong copy behind and die at the size check, and
  a second run then deletes the only original (`KycMigration.ADocumentIsLost`). It is safe exactly on
  covered documents (`KycMigration.DeletesSafelyExactlyWhenCovered`).
- `scripts/backfill-report-photo-angles.ts:29-32` promises that a rerun is a no-op and that an interrupted
  run simply resumes. With a column that keeps the order of keys the first holds and the second does not:
  a run cut between its two writes leaves stamps that no later run clears. `photos_manifest` is
  JSONB (`prisma/migrations/20260613170000_website_models/migration.sql:24`), which puts `kind` before
  `s3Key`; with it every manifest that has a kind compares unequal again, so a rerun is not free, and
  for the same reason the cut is repaired. The exact conditions are
  `AngleBackfill.RerunIsFreeExactlyWithoutRelapses` and `AngleBackfill.CutRunResumesExactly`. In both cases
  the rewrite never moves the subset of today's readers (`Manifest.RewriteKeepsSubset`).
- `src/config/cors.ts:68-71` promises that a trailing slash cannot lock the real site out. The list is
  normalized twice, so one gap before that slash does no harm; two gaps (`https://a.de / /`) do
  (`Cors.TwoGapsLockTheSiteOut`, `Cors.SiteIsAdmittedExactlyWhenHarmless`).
- `src/users/users.service.ts:79` has no guard for the last super admin, and a sign-up under the address that
  an erased row stores makes the account live again with its role (`src/auth/auth.service.ts:100-113`, `314-326`).
  So the panel's promises, that a super admin remains and that an erasure stays, hold of the panel only. When a
  usable super admin is there over all calls is `AdminUsers.WhenASuperAdminIsThere`.

`src/admin/admin-users.service.ts:239-243` is right that the counts of the last guards cannot fall to zero; the
two guard lemmas of `AdminUsers` say on which requests the guards fire all the same.

`src/admin/admin-finance.service.ts:111` promises a deterministic order, which holds exactly when the
collation tells all inspector ids apart (`Dac7.DeterministicExactlyWithoutTies`). The ids are generated by
`cuid()` (`prisma/schema.prisma:158`); no tying ids are known that the table could hold.

## Model

| member | source | states |
|---|---|---|
| Runs.CampaignKeeps | scripts/migrate-kyc-objects.ts:176-254 | what every single effect keeps holds between the first world and every world of any campaign of runs, each run started in whatever world the one before it died in |
| Runs.BehaviourKeeps | scripts/migrate-kyc-objects.ts:176-254 | the same within one run |
| KycMigration.StepIsSafe | scripts/migrate-kyc-objects.ts:203-253 | each single copy, repoint or delete keeps every readable document readable, its bytes if copies are faithful, its size if listings carry sizes; an object without a row is never lost; a covered document stays covered, and its source goes only with a matching copy in place |
| KycMigration.CampaignIsSafe | scripts/migrate-kyc-objects.ts:176-254 | crash safety: the same over any number of runs, each cut off after any effect or failing at any request |
| KycMigration.WhatTheSizeCheckBuys | scripts/migrate-kyc-objects.ts:218-229 | contents are kept in every campaign if and only if copies are faithful; sizes if and only if copies are faithful or the listing carries sizes |
| KycMigration.BadCopyCampaign | scripts/migrate-kyc-objects.ts:224-228 | a campaign that loses a document when neither may be relied on |
| KycMigration.BadCopyRun | scripts/migrate-kyc-objects.ts:203-244 | that campaign is a process of the script: one run after which the row names other bytes |
| KycMigration.DeletesSafelyExactlyWhenCovered | scripts/migrate-kyc-objects.ts:184-197 | the fast path trusts any object it finds: every campaign deletes the source only with a matching copy in place if and only if the document is covered, that is, a row that already names the KYC bucket has a matching copy there (or none, where copies are faithful) |
| KycMigration.ADocumentIsLost | scripts/migrate-kyc-objects.ts:196-228 | a failing input: row ahead of its copy, the size check throws in the first run, the second deletes the only original |
| KycMigration.LoseUncovered | scripts/migrate-kyc-objects.ts:184-228 | for every document that is not covered, two processes of the script that lose it |
| KycMigration.MigratedOneIsRight | scripts/migrate-kyc-objects.ts:176-254 | one object under any faults, as a function: what changes, what success means, how it is counted |
| KycMigration.Migration.HeadKyc | scripts/migrate-kyc-objects.ts:257-268 | the size of the object, exactly when it exists |
| KycMigration.Migration.CopyToKyc | scripts/migrate-kyc-objects.ts:207-214 | a copy that may be refused, be lost in the reply, or write other bytes; recorded in the history |
| KycMigration.Migration.CopyAndVerify | scripts/migrate-kyc-objects.ts:203-229 | success means a copy that was verified: of the right size when the listing gave one; `copied` counts the copy even when the check fails |
| KycMigration.Migration.PointRowAtKyc | scripts/migrate-kyc-objects.ts:241-242 | the row moves only onto a verified copy |
| KycMigration.Migration.DeleteSource | scripts/migrate-kyc-objects.ts:192-193 | the source goes only once the row and the copy are in the KYC bucket |
| KycMigration.Migration.RepointAndDelete | scripts/migrate-kyc-objects.ts:231-253 | row first, source second, counters exact |
| KycMigration.Migration.MigrateOne | scripts/migrate-kyc-objects.ts:176-254 | one object under any faults: only entries of its key change, success finishes it (moved with its row, or copied and kept without one), a dry run changes nothing, counters as booked; world, counters and outcome are exactly those of the specification function |
| KycMigration.Migration.TakeUp | scripts/migrate-kyc-objects.ts:122-144 | a throw is counted and the loop goes on |
| KycMigration.Migration.TakePage | scripts/migrate-kyc-objects.ts:122-144 | a page in listing order, only empty keys and keys that end in a slash passed over; it stops early only in front of a further file with the limit reached |
| KycMigration.Migration.Run | scripts/migrate-kyc-objects.ts:111-150 | convergence: an unlimited wet run without failures finishes every listed key that is not empty and does not end in a slash and leaves every other as it is; a file to whose requests nothing happened is finished whatever happens to the others; `listed` counts the files taken up; it ends at a limit only with the limit reached and a file left, and with an error only when a page cannot be fetched; counter equations; a dry run changes nothing |
| KycMigration.CountedOnce | scripts/migrate-kyc-objects.ts:184-253 | each counter of one object that went well, in terms of its row and its copies |
| KycMigration.RunAfterCampaign | scripts/migrate-kyc-objects.ts:15-25 | crash safety and convergence together: after any campaign of cut runs one unlimited run without failures ends with every listed document moved with its row, and everything that could be read at the very start readable, with its bytes or its size |
| KycMigration.AfterTheCampaign | scripts/migrate-kyc-objects.ts:15-25 | the same as a law of histories |
| PhotoOrder.AngleForKind | src/catalog/catalog-photo-order.ts:72-94 | an answer is always the id of a catalog angle |
| PhotoOrder.AngleForKindExactly | src/catalog/catalog-photo-order.ts:72-94 | a kind names an angle if and only if it is the id, or a prefix and the id, or a prefix and a text that only the joined word makes an id |
| PhotoOrder.SlotKeyResolves | src/catalog/catalog-photo-order.ts:72-94 | every one of the 40 catalog angles is recovered from the slot key the mobile app writes for it |
| PhotoOrder.CompareIsPreorder | src/catalog/catalog-photo-order.ts:122-128 | the comparator is a total preorder on all strings, absent kinds included, and its signs agree both ways |
| PhotoOrder.AnglesComeFirst | src/catalog/catalog-photo-order.ts:103-128 | every angle kind is strictly before every non-angle kind |
| PhotoOrder.AnglesByGroupThenOrder | src/catalog/catalog-photo-order.ts:103-128 | two angle kinds compare by group, then by catalog order; only kinds of one angle are left to the collation |
| PhotoOrder.PhotosGoByPlace | src/catalog/catalog-photo-order.ts:30-58 | photos compare by their place in the walk-around written out: exterior, wheels, interior, misc in catalog order, then the eight prefixes in their order, then the rest; at one place the collation decides |
| PhotoOrder.RankRange | src/catalog/catalog-photo-order.ts:30-58 | ranks of angles and of other kinds never overlap |
| Sorting.SortLaws | scripts/backfill-report-photo-angles.ts:74 | sorting yields a sorted permutation |
| Sorting.StableSortIsUnique | src/catalog/catalog-photo-order.ts:116-121 | a stable sorted rearrangement is unique, so any stable library sort agrees with the model |
| Sorting.FilterSort | src/listings/listing-photo-urls.ts:203-206 | dropping entries before or after a stable sort is the same |
| Manifest.Rewrite | scripts/backfill-report-photo-angles.ts:62-80 | the push loop and sort compute the canonical manifest; nothing to write exactly when it is no array or equal already, stored key order included |
| Manifest.ParsedInOrder | scripts/backfill-report-photo-angles.ts:65-73 | the entries are the objects with a text `s3Key` that is not empty, each once and in stored order, with the kind that is not empty and the angle it names |
| Manifest.RewriteIsIdempotent | scripts/backfill-report-photo-angles.ts:76-80 | the rewrite of its own output keeps entries and order, and is `null` if and only if the column keeps the order of keys or no entry has a kind |
| Manifest.LeftAloneExactlyWhenRight | scripts/backfill-report-photo-angles.ts:62-80 | a manifest is left alone if and only if it holds clean entries only, their keys in the written order, and the entries in walk-around order |
| Manifest.RewriteKeepsCaptureOrder | scripts/backfill-report-photo-angles.ts:62-74 | the valid entries are permuted, and those of one place in the walk-around keep their capture order |
| Manifest.RewriteKeepsSubset | src/listings/listing-photo-urls.ts:183-207 | for every cap, readers see the same keys under the same kinds before and after a rewrite |
| Manifest.SubsetIsTheFront | src/listings/listing-photo-urls.ts:183-207 | the showroom subset: as many of the showable entries as fit, sorted, those of one place in stored order, and nothing left out comes before anything shown |
| Manifest.RefsInOrder | src/listings/listing-photo-urls.ts:183-202 | what readers choose from: every such object whose kind in lower case is not `passport` and begins with neither `passport-` nor `passport_` (or all on demand), each once and in stored order, a stored angle before the derived one |
| Manifest.PassportsStayPrivate | src/listings/listing-photo-urls.ts:138-195 | no entry of a never-public kind is among those shown |
| PhotoMirror.RefKeys | scripts/migrate-listing-photos-public.ts:267-273 | at most MAX_LISTING_PHOTOS objects per listing |
| PhotoMirror.MirroredKeysMayBePublic | scripts/migrate-listing-photos-public.ts:270 | every key to be mirrored stands in an object that may be public, never in passport objects alone; with at most 40 such objects every one of their keys is mirrored |
| PhotoMirror.StepKeeps | scripts/migrate-listing-photos-public.ts:208-310 | each put, row mark, stamp, manifest rewrite and stamp removal keeps sound stamps sound, public rows served and the source bucket as it is |
| PhotoMirror.CampaignKeepsPhotos | scripts/migrate-listing-photos-public.ts:186-310 | stamped implies mirrored: the same over any interleaving of mirror and backfill runs, each cut off anywhere |
| PhotoMirror.RewriteKeepsKeys | scripts/backfill-report-photo-angles.ts:120-123 | a manifest rewrite does not move the set of mirrored objects |
| PhotoMirror.CutBetweenTheWrites | scripts/backfill-report-photo-angles.ts:112-142 | after a cut between the two writes the stamp is exactly as sound as before, and the report is not taken up again if and only if the column keeps the order of keys or no entry has a kind |
| AngleBackfill.CutRunResumesExactly | scripts/backfill-report-photo-angles.ts:29-32 | after such a cut a later run over the report ends where an uncut run would have if and only if no stamp hung on the report or the manifest relapses |
| AngleBackfill.ACutRunDoesNotResume | scripts/backfill-report-photo-angles.ts:29-32 | a failing input: a stale manifest without kinds and a stamped listing on it; the uncut run takes the stamp away, a run after the cut does not |
| AngleBackfill.StampsOutliveTheCut | scripts/backfill-report-photo-angles.ts:112-142 | where it does not relapse, no number of later runs takes those stamps away |
| AngleBackfill.RerunIsFreeExactlyWithoutRelapses | scripts/backfill-report-photo-angles.ts:29-32 | a second run over the same reports rewrites nothing if and only if the column gave none of the rewritten manifests back with its keys in another order |
| AngleBackfill.ARerunIsNotFree | scripts/backfill-report-photo-angles.ts:29-32 | a failing input: one photo with a kind, in a column that puts `kind` first |
| MirrorScripts.Showroom.PutCopy | scripts/migrate-listing-photos-public.ts:344-352 | an upload that may be refused, lost in the reply, or garbled |
| MirrorScripts.Showroom.CopyObject | scripts/migrate-listing-photos-public.ts:324-360 | copied, exists, missing or a throw, each with what it says about source and copy; copies are only ever improved; a dry run transfers nothing |
| MirrorScripts.Showroom.TransferPhoto | scripts/migrate-listing-photos-public.ts:214-222 | only a present and, in a wet run, verified copy lets the row be marked; a transfer is counted only where there was no copy |
| MirrorScripts.Showroom.MarkPublic | scripts/migrate-listing-photos-public.ts:227-230 | a row is marked public only on a verified copy; its failure is counted |
| MirrorScripts.Showroom.MigratePhoto | scripts/migrate-listing-photos-public.ts:213-237 | one row: marked unless something failed or its object is gone, counters exact |
| MirrorScripts.Showroom.MigrateChunk | scripts/migrate-listing-photos-public.ts:209-238 | each row of a batch at most once and in order, up to the limit |
| MirrorScripts.Showroom.MigrateUploadedPhotos | scripts/migrate-listing-photos-public.ts:186-240 | pass A takes up a prefix of the pending rows in order, all of them unless the limit stops it, with at most `limit` transfers; without failures scanned rows are copied, skipped or missing |
| MirrorScripts.Showroom.MirrorPhoto | scripts/migrate-listing-photos-public.ts:274-292 | one photo: exactly one counter moves, according to what was there |
| MirrorScripts.Showroom.MirrorPhotos | scripts/migrate-listing-photos-public.ts:271-292 | no throw means that every photo of the listing is served; every photo is booked exactly once |
| MirrorScripts.Showroom.MirrorListing | scripts/migrate-listing-photos-public.ts:270-309 | the stamp is set exactly when no photo failed; at most MAX_LISTING_PHOTOS transfers |
| MirrorScripts.Showroom.MirrorChunk | scripts/migrate-listing-photos-public.ts:264-310 | listings of a batch in order, manifests as the query returned them |
| MirrorScripts.Showroom.MirrorReportListings | scripts/migrate-listing-photos-public.ts:245-312 | pass B likewise; a stamp update that throws ends the run |
| MirrorScripts.Showroom.RunMirror | scripts/migrate-listing-photos-public.ts:160-312 | the whole run: it changes only flags of rows that the two queries ask for (written out) and objects of such rows; a set flag has its objects in the public bucket in full size; every new object there comes from such a row and, for a report, may be public; no right copy is touched; without failures and below the limit every such row is done, and unlimited every row to whose requests nothing happened, whatever happened to the others; at most `limit - 1 + MAX_LISTING_PHOTOS` transfers; a dry run changes nothing |
| MirrorScripts.PendingAreTaken | scripts/migrate-listing-photos-public.ts:195-206 | the two queries return exactly the rows written out: private photos, and unstamped listings with a report, of listings that are active, or not deleted, and the one asked for |
| MirrorScripts.Showroom.MirrorAgain | scripts/migrate-listing-photos-public.ts:35-37 | idempotent: after an unlimited run without failures a further run transfers nothing, whatever happens to its requests, and everything stays mirrored |
| MirrorScripts.BothPasses | scripts/migrate-listing-photos-public.ts:160-163 | what the two passes achieve together |
| AngleBackfill.Reports.UpdateManifest | scripts/backfill-report-photo-angles.ts:120-123 | the manifest is replaced by its canonical form, unless the update was refused |
| AngleBackfill.Reports.ClearStampsOf | scripts/backfill-report-photo-angles.ts:137-141 | exactly the stamped listings of the report are counted and cleared |
| AngleBackfill.Reports.RewriteOne | scripts/backfill-report-photo-angles.ts:109-143 | one report: both writes or, when fresh, none; a dry run counts the same and writes nothing |
| AngleBackfill.Reports.RewritePage | scripts/backfill-report-photo-angles.ts:109-143 | the reports of a page in order, the limit tested before each |
| AngleBackfill.Reports.Selected | scripts/backfill-report-photo-angles.ts:96-105 | all the reports in id order, or the one asked for |
| AngleBackfill.Reports.Run | scripts/backfill-report-photo-angles.ts:82-146 | the cursor visits each selected report once and stops early only at the limit; each visited report then lists its canonical entries; the three counters are those of the table at the start, for a dry run and for a real one alike |
| AngleBackfill.CanonLists | scripts/backfill-report-photo-angles.ts:62-80 | a written manifest, and one left alone, lists its canonical entries: key, kind and angle under their names and nothing else |
| AngleBackfill.RewrittenByRow | scripts/backfill-report-photo-angles.ts:109-142 | row by row: each visited report canonical, each listing of a stale one unstamped, everything else as before |
| AngleBackfill.StampCountIsLosses | scripts/backfill-report-photo-angles.ts:131-142 | `unmirrored` is the number of listings that lost their stamp |
| AngleBackfill.NothingLeft | scripts/backfill-report-photo-angles.ts:29-33 | a run over reports that are done and do not relapse rewrites and clears nothing |
| Paging.NextPage | scripts/backfill-listing-search-columns.ts:30-39 | the next cursor page starts right behind the rows seen, and is empty only at the end, for every batch size |
| SearchText.SubstituteAll | src/common/search-text.ts:79-83 | the loop of split and join makes the replacements one after the other |
| Strings.SplitJoinReplaces | src/common/search-text.ts:81 | `split(from).join(to)` replaces every occurrence |
| Transliteration.SequentialIsOnePass | src/common/search-text.ts:42-54 | sequential replacement refines one pass over the characters, for every table that writes no letter it replaces |
| Transliteration.OrderDoesNotMatter | src/common/search-text.ts:39-54 | the order of such a table is irrelevant |
| Transliteration.CyrillicEntries | src/common/search-text.ts:42-54 | every entry of the table agrees with the letter map used below |
| Transliteration.CyrillicHasEntry | src/common/search-text.ts:42-54 | every letter of that map has its entry |
| CanonicalForm.TransliterateIsRoman | src/common/search-text.ts:79-83 | the loop computes the one-pass Cyrillic map |
| CanonicalForm.FoldIsPlain | src/common/search-text.ts:69-77 | decomposing, dropping marks, lower-casing, collapsing and trimming is one left-to-right pass |
| CanonicalForm.NormIsMap | src/common/search-text.ts:92-95 | the whole canonical form is one character map followed by white-space tidying |
| CanonicalForm.CaseDoesNotMatter | src/common/search-text.ts:69-83 | a text normalizes as it does in any other case |
| CanonicalForm.AccentsFold | src/common/search-text.ts:69-74 | each small Latin letter contributes what is left of it without its marks |
| CanonicalForm.OthersAreKept | src/common/search-text.ts:69-95 | ASCII but for capitals is kept, and everything behind the Cyrillic block |
| CityAliases.Letters2 | src/common/search-text.ts:42-54 | what each letter of the Cyrillic table contributes, first part |
| CityAliases.Letters3 | src/common/search-text.ts:42-54 | second part |
| CityAliases.Letters4 | src/common/search-text.ts:42-54 | third part |
| CanonicalForm.NothingGivesNothing | src/common/search-text.ts:92-95 | no text, an empty one and a blank one give the empty string, in both forms |
| CanonicalForm.NormWithin | src/common/search-text.ts:92-95 | typed text that occurs in a raw text occurs, normalized, in the normalized text |
| CanonicalForm.FiltersKeepEveryMatch | src/admin/admin-listings.service.ts:35-48 | search completeness: the city, make and model filters never drop a row whose raw text contains what was typed |
| CanonicalForm.TroubledLetters | src/common/search-text.ts:42-54 | the composed Cyrillic letters outside the table whose base is in it: twenty small letters and their capitals |
| CanonicalForm.StableExactlyWithoutTroubledLetters | src/common/search-text.ts:69-95 | normalizing is idempotent, and blind to composed or decomposed input, if and only if none of those forty letters occurs |
| CanonicalForm.ATroubledLetter | src/common/search-text.ts:69-95 | a failing input: the Tajik ӯ normalizes to у, that to u, and the decomposed letter to u at once |
| CanonicalForm.NormOfNorm | src/common/search-text.ts:92-95 | what a second normalization makes of the first |
| CanonicalForm.NormOfNfd | src/common/search-text.ts:69-95 | what normalization makes of decomposed input |
| CanonicalForm.CompactIsMap | src/common/search-text.ts:263-265 | the compact form is one character map |
| CanonicalForm.CompactKeepsLettersAndDigits | src/common/search-text.ts:263-265 | it keeps the letters a to z and the digits of the normal form, in order, and nothing else |
| CanonicalForm.CompactIdempotent | src/common/search-text.ts:263-265 | the compact form is idempotent on every input |
| CanonicalForm.CompactIgnoresSeparators | src/common/search-text.ts:249-265 | inserting separators anywhere does not change it |
| Strings.SqueezeTrimIsTidy | src/common/search-text.ts:75-76 | collapsing and trimming white space is one pass of a three-state reader |
| Strings.WhiteSpace | src/common/search-text.ts:75-76 | the characters of the class of white space, one by one |
| SearchText.BuildIndex | src/common/search-text.ts:196-203 | the nested loop builds the index with later groups overwriting earlier ones |
| SearchText.DirectKeys | src/common/search-text.ts:217-241 | base, umlaut spelling and collapsed spelling, without duplicates, base first |
| SearchText.AddAliases | src/common/search-text.ts:243-245 | one pass over a snapshot adds the aliases of each key, in order and without duplicates |
| SearchText.CitySearchKeys | src/common/search-text.ts:217-248 | no key for a blank query; otherwise the normal form first, no duplicates, and exactly the direct keys and their aliases |
| CityKeys.KeysWrittenOut | src/common/search-text.ts:217-248 | the keys are the normal form, that of the ae/oe/ue/ss spelling, the collapsed form if it differs and has three letters, and what the table knows of these; nothing else |
| CityKeys.CollapseDropsE | src/common/search-text.ts:241 | collapsing leaves out every e right behind an a, then behind an o, then behind a u |
| CityKeys.GermanKeyIsSpelling | src/common/search-text.ts:223-227 | the umlaut key is the normal form of the ae/oe/ue/ss spelling |
| CityKeys.WordReachesItsSpelling | src/common/search-text.ts:223-227 | for every word that is not blank the normal form of its ae/oe/ue/ss spelling is among its keys |
| CityKeys.CollapseUndoesSpelling | src/common/search-text.ts:229-241 | for a word without ß, collapsing the expanded spelling gives back the plain fold if and only if the plain fold has no digraph of its own |
| CityKeys.SpellingReachesWord | src/common/search-text.ts:229-241 | so the expanded spelling reaches the plain fold of such a word of at least three letters |
| CityKeys.PlainDigraphShows | src/common/search-text.ts:229-241 | a word on which that fails shows ae, oe or ue in its plain fold, so a fold without them is enough |
| CityKeys.SpellingFindsWord | src/admin/admin-listings.service.ts:35-38 | end to end: the ae/oe/ue spelling of a part of a city finds the row stored with umlauts, under the conditions of SpellingReachesWord |
| CityKeys.WordFindsSpelling | src/admin/admin-listings.service.ts:35-38 | and a part of a city typed with umlauts finds the row stored in the spelling, always |
| CityKeys.IndexHasGroup | src/common/search-text.ts:196-203 | with disjoint groups every spelling points at its whole group |
| CityKeys.SpellingsReachEachOther | src/common/search-text.ts:115-203 | for any table of disjoint groups any two spellings of a group reach each other |
| CityKeys.AnyNameFindsEveryName | src/admin/admin-listings.service.ts:35-38 | for any such table a search with a name of a group among its direct keys finds every row that holds the city under any of its names |
| CityKeys.KeysAreClosed | src/common/search-text.ts:243-247 | for any such table one expansion pass is enough: the keys are closed under alias lookup |
| CityKeys.NoKeyIsEmpty | src/common/search-text.ts:205-221 | for any table without a blank name no key is ever empty |
| CityAliases.GroupsAreApart | src/common/search-text.ts:115-193 | the 77 groups of the source are disjoint after normalization and hold no blank name |
| CityAliases.CityNamesReachEachOther | src/common/search-text.ts:115-203 | so any two names of a city in the table are keys of each other |
| CityAliases.AnyCityNameFindsEveryCityName | src/admin/admin-listings.service.ts:35-38 | end to end, with the table of the source: a city searched under any of its names, or under a spelling that leads to one, finds every row that holds it under any other |
| CityAliases.CityKeysAreClosed | src/common/search-text.ts:243-247 | with the table of the source one expansion pass is enough |
| CityAliases.NoCityKeyIsEmpty | src/common/search-text.ts:205-221 | with the table of the source a search that is not blank has no blank key |
| SearchBackfill.Listings.Update | scripts/backfill-listing-search-columns.ts:52-55 | one row gets its three columns, nothing else moves |
| SearchBackfill.Listings.FillPage | scripts/backfill-listing-search-columns.ts:41-57 | a row is written exactly when it differs |
| SearchBackfill.Listings.Backfill | scripts/backfill-listing-search-columns.ts:30-59 | the cursor loop ends and visits every row exactly once in id order for every batch size; afterwards the city column holds the normal form of the city and the make and model columns the compact forms of make and model, rows that did already are as they were, and `written` is the number of the others |
| SearchBackfill.SecondRunIsFree | scripts/backfill-listing-search-columns.ts:45-51 | a second run writes nothing |
| Csv.FileReadsBack | src/admin/admin-finance.service.ts:109-141 | for all field strings a reader for RFC 4180, section 2, gets back the header and the table from the printed file |
| Csv.EscapedReadsBack | src/admin/admin-finance.service.ts:139-142 | an escaped field reads back as its value, quotes, commas and line breaks included |
| Csv.EscapedIsQuoted | src/admin/admin-finance.service.ts:139-142 | every field is put in quotes |
| Csv.RecordReadsBack | src/admin/admin-finance.service.ts:132 | a printed row reads back as one record with the same fields |
| Csv.LinesReadBack | src/admin/admin-finance.service.ts:135 | lines that read as records make a file that reads as those records |
| Decimal.IntBack | src/admin/admin-finance.service.ts:128-129 | a printed integer is a sign if need be and a numeral without leading zeros, and reads back as itself |
| Decimal.EurBack | src/admin/admin-finance.service.ts:130 | a printed euro amount reads back as its cents, sign included, by a reader that refuses any text but a numeral, a point and exactly two digits |
| Dac7.Dac7Csv | src/admin/admin-finance.service.ts:109-135 | the report is the printed table, a reader finds exactly the ten headings written out and the table in it, and every cell is what the heading of its column says |
| Dac7.PaidExactly | src/admin/admin-finance.service.ts:102-105 | the query takes the payouts with status paid created from the start to before the end, each as often as it is there |
| Dac7.YearsFromTheEpoch | src/admin/admin-finance.service.ts:99-100 | the window starts: 1970 at zero, and each year as long as the calendar says |
| Dac7.GroupsAddUp | src/admin/admin-finance.service.ts:102-107 | a grouping by inspector loses no payout and counts none twice |
| Dac7.ReportAddsUp | src/admin/admin-finance.service.ts:98-136 | one row for each inspector with a paid payout in the window and for nobody else, in the order of the ids, each with the count, cents and euros of its own payouts; the three columns, read back from their text, add up to the payouts of the window |
| Dac7.DeterministicExactlyWithoutTies | src/admin/admin-finance.service.ts:111-112 | the report is independent of the order the database returns if and only if the collation tells the inspector ids apart |
| Dac7.TieShows | src/admin/admin-finance.service.ts:111-112 | two ids that tie give two orders of one grouping that sort differently |
| Dac7.YearLength | src/admin/admin-finance.service.ts:99-100 | the start of a year lies 366 days before that of the next exactly in leap years, else 365 |
| Dac7.WindowIsASpan | src/admin/admin-finance.service.ts:99-100 | the window of a year is a real span of time for every year but 99, where `Date.UTC` jumps back |
| Dac7.YearsTile | src/admin/admin-finance.service.ts:98-107 | away from the year 99, consecutive reports hold every payout of the span exactly once |
| Dac7.YearsTileExactly | src/admin/admin-finance.service.ts:98-107 | for a span of years the reports hold every payout exactly once, whatever was paid, if and only if the span does not run over the year 99 (or is that year alone) |
| Dac7.OnceTooOften | src/admin/admin-finance.service.ts:98-107 | for every other span a payout that the reports hold more often than the span does |
| Dac7.YearsAreApartExactly | src/admin/admin-finance.service.ts:98-107 | no two reports of a span overlap if and only if it does not run over 99 into the years that 0 to 98 are read as |
| Dac7.ReportsAddUp | src/admin/admin-finance.service.ts:98-136 | away from the year 99, the totals printed in consecutive reports add up to what was paid in the span |
| Revenue.Summarize | src/admin/admin-finance.service.ts:39-95 | the summary row by row: window with the default of thirty days, count and cents of the payments that succeeded and were captured (or else created) in it, the same for each of the four purposes, refunds that succeeded, payouts that were paid, and the net as gross less refunds less payouts |
| Revenue.BucketsAddUp | src/admin/admin-finance.service.ts:50-64 | gross, and the number of payments, are the four buckets plus the payments of any other purpose |
| Revenue.GrossMeets | src/admin/revenue-window.ts:20-25 | windows that meet at one moment count the payments effective then twice, and nothing else |
| Revenue.NetMeets | src/admin/admin-finance.service.ts:41-93 | the same for the platform net, refunds and payouts included |
| Revenue.NetOfAPartition | src/admin/admin-finance.service.ts:41-93 | the nets of adjacent windows a millisecond apart add up to the net of the whole |
| AdminUsers.AdminUsersService.BanUser | src/admin/admin-users.service.ts:209-220 | the answer and the table written out: refusals in order, else the account with the earlier ban or a new one |
| AdminUsers.AdminUsersService.UnbanUser | src/admin/admin-users.service.ts:222-227 | likewise for lifting a ban |
| AdminUsers.AdminUsersService.ChangeRoleOf | src/admin/admin-users.service.ts:233-264 | likewise for a role change, both counts included |
| AdminUsers.AdminUsersService.EraseUser | src/admin/admin-users.service.ts:277-311 | likewise for an erasure |
| AdminUsers.AdminUsersService.Handle | src/auth/jwt-auth.guard.ts:109-121 | a request passes the token guard and the role guard with the actor as stored now |
| AdminUsers.AdminUsersService.HandleAll | src/admin/admin-users.service.ts:209-311 | any sequence of requests is the sequence of their effects |
| AdminUsers.GrantedExactly | src/admin/role-policy.ts:26-49 | which requests are granted, role by role and operation by operation |
| AdminUsers.GrantedIsDone | src/admin/admin-users.service.ts:209-311 | what a granted request does: banned and not usable, without a ban, of the requested role, or erased at that time, and nothing else of the account |
| AdminUsers.BannedIsLockedOut | src/auth/jwt-auth.guard.ts:109-121 | over any requests a ban holds and its holder is answered unauthorized until somebody lifts it |
| AdminUsers.NobodyChangesThemselves | src/admin/role-policy.ts:26-42 | nobody changes their own account through the panel |
| AdminUsers.AdminsAreOutOfReach | src/admin/role-policy.ts:26-49 | a plain admin leaves everyone of admin rank exactly as they are |
| AdminUsers.PlainAdminsReach | src/admin/role-policy.ts:26-49 | a plain admin erases nobody and changes no role but from user to admin |
| AdminUsers.SuperAdminsMakeSuperAdmins | src/admin/role-policy.ts:26-42 | a new super admin arises only from a super admin's request |
| AdminUsers.ASuperAdminRemains | src/admin/admin-users.service.ts:209-311 | over any sequence of requests there is a usable super admin afterwards if and only if there was one before |
| AdminUsers.AdminUsersService.EraseMe | src/users/users.service.ts:79-132 | self-erasure by any usable account, without a further guard |
| AdminUsers.AdminUsersService.Register | src/auth/auth.service.ts:90-113 | refused for a live account; else the account under the stored address is live again with its role, or a new one is made |
| AdminUsers.AdminUsersService.OauthUpsert | src/auth/auth.service.ts:314-326 | the same without the refusal |
| AdminUsers.SuperAdminAfterCall | src/auth/auth.service.ts:100-113 | with self-erasure and sign-ups: after one call a usable super admin is there if and only if one was there and the last did not leave, or the call signs up an erased super admin without a ban |
| AdminUsers.WhenASuperAdminIsThere | src/users/users.controller.ts:30-34 | over any sequence of calls: if and only if one was there at the start or returned by a sign-up, and from then on the last one never left |
| AdminUsers.ASuperAdminReturns | src/auth/auth.service.ts:100-113 | an input on which one returns |
| AdminUsers.FrozenWithoutASuperAdmin | src/admin/admin-users.service.ts:209-311 | without one, no sequence of requests changes anybody of admin rank |
| AdminUsers.ErasedStaysErased | src/admin/admin-users.service.ts:277-311 | no request to the panel takes an erasure back or changes its time |
| AdminUsers.ErasedUntilSignUp | src/auth/auth.service.ts:100-113 | over any calls an erasure stays as it is unless the account signs up, and a sign-up ends it |
| AdminUsers.WhenTheLastSuperAdminIsGuarded | src/admin/admin-users.service.ts:244-253 | the `last_super_admin` refusal fires if and only if the only live super admin changes the role of an erased super admin: never on a live target, never in `erase` |
| AdminUsers.WhenTheLastAdminIsGuarded | src/admin/admin-users.service.ts:254-263 | the `last_admin` refusal fires if and only if the only live admin of either rank demotes an erased admin |
| AdminUsers.UnbanUndoesBan | src/admin/admin-users.service.ts:209-227 | whoever may ban may unban, and the account is then without a ban |
| LegalVersions.NewestIsNewest | src/admin/admin-legal.service.ts:78-83 | `findFirst` by descending version: none, or a matching row that no other exceeds |
| LegalVersions.NextIsNew | src/admin/admin-legal.service.ts:78-83 | the next version exceeds every earlier one of the key |
| LegalVersions.LegalTemplates.CreateVersion | src/admin/admin-legal.service.ts:74-104 | unknown keys are refused; else one row more with this key and text, its version one above the highest, active unless that was declined; declined, no other row changes, else all others of the key are switched off |
| LegalVersions.LegalTemplates.ActivateVersion | src/admin/admin-legal.service.ts:107-127 | unknown key, unknown version, or that version and no other of the key active, everything else as it was |
| LegalVersions.LegalTemplates.PublishTemplate | scripts/publish-contract-template.ts:49-90 | a new version with the built-in text comes in force when none is or the one in force differs in body or title, and not otherwise and not on a dry run |
| LegalVersions.LegalTemplates.SeedOne | prisma/seed.ts:31-76 | without an active version the built-in text comes in force; an active one that carries the draft marker anywhere is replaced by it and switched off; any other is left alone |
| LegalVersions.StubsCarryTheMarker | prisma/seed.ts:53 | a draft is a text with the marker at any place |
| LegalVersions.LegalTemplates.SeedContractTemplates | prisma/seed.ts:31-81 | the loop over the three keys, each of which has an active version afterwards |
| LegalVersions.LegalTemplates.GetByKey | src/admin/admin-legal.service.ts:44-71 | all versions of the key, newest first, and the active row that the writers look up |
| LegalVersions.FirstActiveIsNewest | src/admin/admin-legal.service.ts:50 | the first active row of the listing is the newest active row |
| LegalVersions.PublishedKeeps | scripts/publish-contract-template.ts:69-86 | after publishing exactly the new version is active, other keys untouched |
| LegalVersions.ActivatedKeeps | src/admin/admin-legal.service.ts:117-126 | after activating exactly that version is active, other keys untouched |
| LegalVersions.SeededKeeps | prisma/seed.ts:33-81 | after a seed step the key has exactly one active version |
| LegalVersions.StepKeeps | src/admin/admin-legal.service.ts:74-127 | every create, activate, publish and seed step keeps: at most one active version per key, growing versions, no row removed or rewritten, no key losing its active version |
| LegalVersions.RunKeeps | src/admin/admin-legal.service.ts:74-127 | the same over any sequence of steps |
| LegalVersions.RunFromNothing | src/admin/admin-legal.service.ts:74-127 | so every table the programs can produce from the empty one is sound |
| LegalVersions.VersionsAreForEver | scripts/publish-contract-template.ts:20-23 | a key and a version mean one text for ever |
| LegalVersions.SettledAfterwards | prisma/seed.ts:58-81 | what the first seed leaves for the second |
| LegalVersions.SecondSeedWritesNothing | prisma/seed.ts:22-30 | a second seed writes nothing if and only if no built-in text that the first one put in force carries the draft marker |
| LegalVersions.SeedCutInTwo | prisma/seed.ts:61-77 | a seed that dies between its two writes leaves two active versions; neither the next seed nor a publish mends it, the next version created active and any activation do |
| CatalogI18n.Add | src/catalog/catalog.i18n.ts:48-50 | a present label overwrites, an absent one does not |
| CatalogI18n.AddLabels | src/catalog/catalog.i18n.ts:59-66 | the labels of one collection |
| CatalogI18n.AddAngles | src/catalog/catalog.i18n.ts:52-55 | labels and hints of the angles |
| CatalogI18n.IndexLabels | src/catalog/catalog.i18n.ts:45-69 | the index maps each key to the last label added under it; the keys are `<collection>.<id>` of the nine collections and `.hint` of the angles, each to a label that stands there, and no other |
| CatalogI18n.MergeFile | src/catalog/catalog.i18n.ts:91-114 | every indexed label gets, in the slot of the tag and nowhere else, the last text that is not empty under any of its keys; the texts under known keys are counted, those under unknown ones are the orphans |
| CatalogI18n.MergeFiles | src/catalog/catalog.i18n.ts:91-117 | all files, with the report of tags, applied counts and sorted orphans |
| CatalogI18n.MergeCatalog | src/catalog/catalog.i18n.ts:77-117 | the whole merge in place over the labels of the catalog, one report entry per file in the order of the names; no directory, no change |
| CatalogI18n.CodeUnitsExactly | src/catalog/catalog.i18n.ts:87-89 | that order is by code units |
| CatalogI18n.EveryEntryIsCounted | src/catalog/catalog.i18n.ts:100-110 | applied, orphans and ignored entries add up to the entries of the file |
| CatalogI18n.MergedBySlot | src/catalog/catalog.i18n.ts:91-114 | the merge by slot: the text of the tag's file, or what was there |
| CatalogI18n.TextArrives | src/catalog/catalog.i18n.ts:100-109 | a text ends up in its label unless a later key of the file writes the same label |
| CatalogI18n.MergeIsIdempotent | src/catalog/catalog.i18n.ts:71-76 | merging again changes nothing |
| CatalogI18n.MergeInAnyOrder | src/catalog/catalog.i18n.ts:87-89 | the order of the files does not matter |
| Cors.SpacesAndSlashesDoNotMatter | src/config/cors.ts:19-21 | spaces around an origin and slashes behind it do not change its normal form |
| Cors.StrippedOf | src/config/cors.ts:19-21 | what stripping takes away: white space around, and slashes right before that behind |
| Cors.SplitsExactly | src/config/cors.ts:22 | a text splits exactly when it has the parts of the pattern, written out |
| Cors.IdempotentExactlyWhenTidy | src/config/cors.ts:19-25 | normalizing is idempotent if and only if no white space stands right before the dropped slashes |
| Cors.SplitLowered | src/config/cors.ts:22-24 | a normal form splits at the same places as the text it came from |
| Cors.SameOriginExactlyUpToCase | src/config/cors.ts:13-25 | two origins have one normal form if and only if scheme and authority agree up to case and the rest agrees (RFC 3986, section 6.2.2.1) |
| Cors.ParseOriginList | src/config/cors.ts:32-39 | normal forms of the entries, blanks dropped, first occurrences only |
| Cors.ResolveCorsOrigins | src/config/cors.ts:47-53 | the two-stage merge is one deduplication of all entries of both variables |
| Cors.DedupeKeepsOrder | src/config/cors.ts:27-31 | no duplicates, the same members, order of first occurrence |
| Cors.CanonicalFirst | src/config/cors.ts:41-46 | the list starts with the first entry of WEB_ORIGIN that is not blank |
| Cors.AdmitsExactly | src/config/cors.ts:73-83 | for every configuration an origin is admitted if and only if it is absent, its normal form is what two normalizations make of a configured entry, or it is a preview deployment |
| Cors.TidyEntriesAdmitTheirNormalForms | src/config/cors.ts:73-83 | with tidy entries one normalization is enough |
| Cors.SiteIsAdmittedExactlyWhenHarmless | src/config/cors.ts:66-83 | a site configured as its origin followed by spaces and slashes is admitted if and only if trimming twice takes all of them away (and no line break among them changed the case of a path), or it is a preview |
| Cors.TwoGapsLockTheSiteOut | src/config/cors.ts:66-83 | a failing input: one gap before a slash is mended, two gaps are not |
| Cors.TwiceBehind | src/config/cors.ts:19-25 | what two normalizations make of an origin with spaces and slashes behind |
| Cors.ConfiguredOriginIsAdmittedExactlyWhenTidy | src/config/cors.ts:73-83 | an Origin header that repeats the raw text of the only entry is admitted if and only if that text is tidy |
| Cors.PreviewsAreVercelHosts | src/config/cors.ts:55-56 | an admitted preview is https, one label without a dot before .vercel.app, and nothing behind |
| Cors.PreviewsExactly | src/config/cors.ts:55-56 | a preview is exactly a normal form with a label of letters, digits and hyphens there |
| Cors.PreviewsAreAdmitted | src/config/cors.ts:73-83 | every such site, in any case, is admitted by every list |

## Left out

- S3/R2, Prisma, Stripe and the other clients: buckets and tables are maps, requests are parameters that may fail. HEAD is truthful and always gives a size; a `$transaction` is one step; concurrent writers and isolation levels are not modelled.
- The KYC migration assumes one row per key and a listing that names each key once.
- `mirroredPhotoKey` is free of collisions and disjoint from the upload keys; its digest is not modelled.
- PhotoMirror.CampaignKeepsPhotos: speaks of the size of the public copy, which is what the script checks; equal content is stated only for a transfer that stored what it read (`CopyObject`).
- Manifest.Rewrite: of the stored key order only whether it is the written one; spelling variants of the same JSON value are not modelled.
- SearchText covers ASCII, Latin-1, Latin Extended-A and the Cyrillic block U+0400 to U+04FF; context-dependent and length-changing case mappings, and the rest of Unicode are not part of this model, neither there nor in `Cors`. In these blocks only U+0130 is left out.
- `localeCompare` is any total preorder with consistent signs.
- Decimal.EurBack: `toFixed(2)` is taken in exact arithmetic; floating point is not modelled.
- Csv.FileReadsBack: TEXTDATA is widened to all characters but comma, quote, CR and LF; encoding is not modelled.
- `eraseMe` sets `deletedAt`; the scrubbing of personal data and its storage objects are not part of this model.
- Of a sign-up only the account row is modelled, named by its address; passwords, verification tokens and identity providers are not part of this model.
- An interrupted seed is one lemma (`SeedCutInTwo`); the operation sequences of `RunKeeps` take a seeded key as one step.
- `listAll`, audit rows, platform settings and the rendering of contracts would add easy members only.
- The file names of sidecars are well formed and distinct; reading and parsing JSON is not modelled.
- The prototype keys of JavaScript objects (`byPurpose['constructor']`, `label['__proto__']`) are not modelled.
- CORS beyond the origin callback, JWT, password hashing, PostGIS queries, price depreciation, controllers, DTOs, logging and health probes are not part of this model.
