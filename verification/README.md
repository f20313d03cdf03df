# librarium-api, verified

Models of the parts of librarium-api that hold real algorithms, with proofs of what
they are for. A table is a finite map or set, an SQL statement a step on it, a Go loop
a loop. An object whose methods change rows is a class; its methods are proved against
functions of the old state, and the properties are lemmas about those functions.

| file | models |
|---|---|
| `migrations.dfy` | the boot-time migration state machine: Up, rewind, the refusals, and a process that can die after any write |
| `migration_runs.dfy` | what one start and any sequence of starts keeps |
| `repair.dfy` | inferring from surviving objects which migrations never ran, and writing the version back |
| `sqlscan.dfy` | the SQL lexer that blanks comments and literals |
| `contributors.dfy` | merging contributors: tombstones, credits, the bounded resolver, dismissed pairs |
| `containment.dfy` | which work contains which: bounded reachability, cycle refusal |
| `ownership.dfy` | the scope of visible books: a closure and a ranked union |
| `locations.dfy` | the forest of places: moving, deleting, listing by path |
| `copies.dfy` | setting the number of copies: retire, adopt, top up |
| `search.dfy`, `search_terms.dfy` | the search language from text to condition groups, and what each condition says of a book |
| `book_filter.dfy` | the filter of the book list: conditions, placeholders, bound arguments |
| `sort_plan.dfy`, `book_list.dfy` | reading a sort, what it binds, and the whole queries of the list, the grouped list and the page's headings |
| `book_sort.dfy`, `sort_picks.dfy` | the ORDER BY of a sort and the order it gives, and the series, place and date a sort takes for a book |
| `facets.dfy`, `list_meaning.dfy`, `rail_query.dfy` | the counts beside the list against the list, what the list shows for any options at once, and what the counts' query binds |
| `grouping.dfy` | the list with each series collapsed |
| `field_merge.dfy` | the vote over providers' answers and its tie-breaks |
| `fanout.dfy` | asking all providers at once under deadlines, over every interleaving |
| `jobs.dfy` | history retention |
| `barcodes.dfy` | add-on barcodes, check digits, the form a code is remembered under |
| `authors.dfy` | joining and splitting lists of names |
| `ranking.dfy`, `strings.dfy`, `wrappers.dfy` | ORDER BY .. LIMIT over a set, string handling, and Option |

## What the code does that its comments or its use do not say

Each of these is a lemma with the input that shows it, and a lemma with the exact
condition under which the code does what is promised.

- `SetEditionCopyCount` says it retires the copies carrying the least
  (internal/repository/library_books.go:167-169). `ORDER BY .. ASC .. OFFSET n`
  (199-207) keeps the first n, which are the least described, and retires the signed
  copy. `Copies.RetiresThePlainIff`, `Copies.SignedCopyIsRetired`.
- Repair takes a missing object as proof that a file never ran
  (internal/db/repair.go:274-309). File 7 creates two functions and drops them again
  (internal/db/migrations/000007_dedupe_books_by_isbn.up.sql:32, 101, 286-287), so it
  always looks as if it never ran. When file 8 fails at a first start, repair writes 6
  and file 7 runs twice. Repair is safe for every history that ends in a file exactly
  when that file leaves what it is probed for; a dirty file that had committed is always
  lost.
  `Repair.NeverRerunsIffHonest`, `Repair.FileSevenRunsTwice`, `Repair.CommittedDirtyFileIsLost`.
- `DuplicateCandidates` says that when one pair out of three is rejected the rest comes
  back as its own group (internal/repository/contributor_merge.go:56-59). The whole
  name stays hidden until a merge takes a member of the pair off it.
  `Contributors.RejectedPairHidesItsName`, `Contributors.OneRejectedPairOfThree`,
  `Contributors.MergeBringsItBackIff`.
- `Merge` accepts a survivor that is itself a tombstone, after which the resolver's
  bound of 8 can be outrun. `Contributors.FlatAfterMergeIff`, `Contributors.ResolverBound`,
  `Contributors.TombstonedSurvivorsOutrunTheResolver`.
- The rewind rule "dirty means the file rolled back" (internal/db/db.go:143-145) fails
  for a process that dies after a file commits and before the flag is cleared; the next
  start runs the file again. `MigrationRuns.RunsStayFaithful`, `MigrationRuns.CommitWindowRunsAFileTwice`.
- The two cycle checks look 32 links far. Past that a loop is accepted.
  `Containment.AddKeepsAcyclicIff`, `Containment.LongChainCloses`, `Locations.RenameKeepsForestIff`,
  `Locations.LongNestCloses`.
- The rail and the list beside it differ in five ways. With a library ticked, the rail
  counts books with a copy there, the list shows all that the library makes visible; and
  averages are over the ticked libraries' readers in the list, over all readable ones in
  the rail. The list drops a word of more than 200 bytes, the rail searches for it;
  and to a query of more than 500 it answers 400 (internal/api/handlers/books.go:239-241),
  where the rail counts. The tag parameter is also read whole by the list (internal/api/handlers/books.go:250,
  internal/repository/books.go:620-628), so with two tags ticked it asks for one whose name
  has the comma in it.
  `Facets.AgreesIff`, `Facets.TickedAgreesIffAllHeld`, `Facets.TickedLibraryHidesAWish`,
  `Facets.TickedLibraryMovesAnAverage`, `Facets.OverlongWordDisagrees`, `Facets.TwoTagsDisagree`.
- The counts ask for a copy in a ticked library without asking whether the visitor can read
  that library (internal/repository/book_facets.go:221-224); the list only ever narrows to
  what he can read. `Facets.CountsKeepToReadableIff`, `Facets.ListKeepsToReadable`.
- In the search box one OR makes everything up to the next AND alternatives
  (internal/search/parser.go:202-205), so `a b OR c` finds any of the three; and between
  two parentheses it does nothing, both are asked for. NOT before a parenthesis negates its
  terms and leaves OR as it is (172-190), so `NOT (a OR b)` asks that one be false, and
  `NOT (a AND b)` negates `a` alone.
  `Search.RowsAreReadIff`, `Search.OrBetweenParenthesesIsAnd`, `Search.NotIsOppositeIff`,
  `Search.NotStopsAtAnd`.
- NOT is the opposite of every condition but those on titles: a word is looked for in the
  title, in its letters alone and in the names of the people
  (internal/repository/book_search_sql.go:18-36), and kept out of the title only
  (internal/repository/books.go:656-659); a pattern is kept out as if it were a word.
  `SearchTerms.NotIsOpposite`, `SearchTerms.NotOfAWord`, `SearchTerms.NotOfAPattern`.
- A barcode is trimmed before its hyphens go, so a tab behind a leading hyphen survives
  one round. `Barcodes.KeyIsSettledIff`, `Barcodes.ATabBehindAHyphen`.

## Assumptions

- Migrations: files are numbered 1 to head; losing the connection is dying at that
  write; a file that does not finish leaves nothing behind unless it breaks out of its
  transaction, and such files are the ones `atomicityBlockers` names. Repair reads each
  file's probes, what it leaves and what it drops from a catalogue.
- Over a run of dismissals and merges a contributor's normalised name does not change.
- White space, capitals and lower case are those of ASCII.
- Collation and lower-casing of names are rank functions; `natural_sort_key`, the
  normalised contributor name, the trimming and normalising of provider values, and the
  weights of the tie-breaks are uninterpreted functions.
- The lexer works on code points; a dollar tag is ASCII (sections 4.1.2.4 and 4.1.5 of
  the PostgreSQL manual).
- Where the server may break ties of `created_at` as it likes, copies break them by id
  and job history in any one fixed way.
- Search values are byte strings, which is what their limit of 200 counts. ILIKE, ~* and
  the normalising of titles are uninterpreted.
- Facets: one row of marks per user and book, one media type per book, genre names
  unique, as the schema has it. "That value alone selected" is said of the selection the
  repository is handed: the handler cuts `genre` and `type` at commas
  (internal/api/handlers/books_across.go:241-255), so a value with a comma in it has a
  count and cannot be ticked. A query is as long as its words with one blank between them.
- Sorting: what a sort reads of a book is the same for every page. A title's
  language and a book's year come from a primary edition picked by `LIMIT 1` without an
  ORDER BY (internal/repository/book_sort.go:225-229, 317-321), so this takes a book to have
  at most one primary edition, which nothing in the schema enforces.
- A check digit is that of section 7.9 of the GS1 General Specifications.

## Model

| member | source | states |
|---|---|---|
| Migrations.Migrator.RunFile | internal/db/db.go:140-169 | one file's writes, one by one and with death after any of them, amount to one step of the specification |
| Migrations.Migrator.DoUp | internal/db/db.go:140-169 | the library's Up, looping over the files above the version, ends where the specification does |
| Migrations.Migrator.DoRewind | internal/db/db.go:258-287 | a rewind changes the version and flag only when the file can be retried, else it leaves the state as it was |
| Migrations.Migrator.DoRunUp | internal/db/db.go:140-169 | the whole retry logic ends where the specification does, with the same exit |
| Migrations.Migrator.DoMigrate | internal/db/db.go:74-136 | the same for a start, including the refusal when a newer build was there first |
| MigrationRuns.ApplyFromFaithful | internal/db/db.go:140-169 | applying files keeps "files 1..n once each, and the version says so" exactly when the process does not die between a commit and its flag; and names where each outcome leaves the version |
| MigrationRuns.SettleFaithful | internal/db/db.go:140-169 | the same through runUp's handling of a failure, with version and flag for every exit |
| MigrationRuns.MigrateFaithful | internal/db/db.go:74-169 | a start keeps a faithful database faithful if and only if it does not die in the commit window |
| MigrationRuns.RunsStayFaithful | internal/db/db.go:74-169 | over every sequence of starts by any builds: nothing skipped, nothing run twice, the version right throughout, if and only if no start dies in a commit window |
| MigrationRuns.CommitWindowRunsAFileTwice | internal/db/db.go:143-145 | a death in the window, then a start: the file has run twice |
| MigrationRuns.ReturnsCleanUnlessRefused | internal/db/db.go:120-169 | runUp returns with the flag clear unless rewind refused; what each exit says about the files that ran; a refused state is never changed by later starts of the build; ahead exactly when a newer version is recorded |
| MigrationRuns.QuietStartFinishes | internal/db/db.go:74-169 | one undisturbed start takes any faithful, retryable database to the head with every file run once |
| MigrationRuns.ApplyFromRunsTheRest | internal/db/db.go:140-169 | undisturbed, exactly the files above the recorded version run, once each, in order |
| Repair.EvaluateVersion | internal/db/repair.go:274-309 | one version's verdict and missing objects, from its probes and what is present |
| Repair.FloorIsHighest | internal/db/repair.go:170-249 | where the walk stops is the highest version that cannot be ruled out |
| Repair.Walk | internal/db/repair.go:170-249 | the downward loop stops there, knows whether it stands on evidence, and has filed a report for every version it passed |
| Repair.AnalyseRepair | internal/db/repair.go:170-249 | the plan for every recorded version and flag, including none, none needed and unconfident |
| Repair.PlanAccounts | internal/db/repair.go:170-249 | a plan's evidence, on its own terms: one report for each version from the recorded one to the target, or to 1; the versions reported not applied are exactly those above the target; each report looked for every object of its file and lists exactly the missing ones; and a plan is confident exactly when nothing changes, nothing is left or the target was found applied |
| Repair.ApplyRepair | internal/db/repair.go:363-371 | a plan is written exactly when it needs no guess; otherwise nothing changes |
| Repair.KeepsIff | internal/db/repair.go:170-249 | a plan is at or above everything that ran if and only if the walk cannot rule out some claimed version from the last file that ran up |
| Repair.HonestKeeps | internal/db/repair.go:170-249 | whatever ran, in any subset, with later files dropping earlier ones' objects: the target is at or above every file that ran, as long as the last one leaves what it is probed for |
| Repair.NeverRerunsIffHonest | internal/db/repair.go:170-249 | file by file: repair keeps every history ending in the file, for every base and recorded version, if and only if the file leaves what it is probed for |
| Repair.CommittedDirtyFileIsLost | internal/db/repair.go:206-209 | a dirty version whose file had committed is always repaired to below that file |
| Repair.RepairThenStart | internal/db/repair.go:363-371 | in any build, repair and then a start run exactly the files above the target, once each, and end clean at the head; no file has run twice if and only if the plan kept what had run |
| Repair.PlanForPrefix | internal/db/repair.go:170-249 | exactly when the walk ends at h when files 1..h ran, and when it is confident there |
| Repair.RepairHealsIff | internal/db/repair.go:170-249 | in any build, repair and a start leave every file run exactly once if and only if the last file cannot be ruled out, each wrongly claimed file can be, and the walk can end on evidence |
| Repair.FirstStartStopsBelow | internal/db/db.go:140-169 | a first start in which one file fails leaves every file below it run and the version clean just below |
| Repair.DishonestFileRunsTwice | internal/db/repair.go:170-249 | a sound database at a file one of whose probes is gone is confidently repaired to the file below, and the file runs again |
| Repair.FileSevenRunsTwice | internal/db/migrations/000007_dedupe_books_by_isbn.up.sql:32-287 | this repository's file 7: a first start in which file 8 fails, a repair to 6, a start, and file 7 has run twice |
| SqlScan.Scan | internal/db/sqlscan.go:31-125 | one turn of the loop, with its nested loops and their termination, reads the token the specification reads |
| SqlScan.StripNoise | internal/db/sqlscan.go:31-125 | the index-and-builder loop computes the specification on every text |
| SqlScan.StripSamePlaces | internal/db/sqlscan.go:31-125 | each output position is the input character or a space |
| SqlScan.NewlinesStay | internal/db/sqlscan.go:31-125 | newlines sit at exactly the same positions |
| SqlScan.StripIdempotent | internal/db/sqlscan.go:31-125 | stripping twice is stripping once, for every text, terminated or not |
| SqlScan.CommentReads | internal/db/sqlscan.go:31-125 | a well-nested comment body is read past at the depth it started, however deep it nests |
| SqlScan.LiteralReads | internal/db/sqlscan.go:31-125 | a literal with doubled quotes ends at its own closing quote |
| SqlScan.FenceReads | internal/db/sqlscan.go:127-133 | a dollar tag is recognised at its full length |
| SqlScan.TagIffPattern | internal/db/sqlscan.go:131-158 | a dollar quote opens exactly where an optional identifier of ASCII letters, figures and underscores stands between two dollars |
| SqlScan.FenceCloses | internal/db/sqlscan.go:31-125 | a dollar-quoted body ends at the first repetition of its own tag |
| SqlScan.TokenReads | internal/db/sqlscan.go:31-125 | each kind of token is read whole and kept or blanked as its kind is |
| SqlScan.StripsExactlyTheNoise | internal/db/sqlscan.go:31-125 | on any text written from tokens, exactly comments, literals and dollar bodies are blanked; code and quoted names stay |
| Contributors.ContributorRepo.DoMerge | internal/repository/contributor_merge.go:126-208 | the inserts, deletes and updates in order end in the specified catalogue with the reported counts, or change nothing |
| Contributors.ContributorRepo.Dismiss | internal/repository/contributor_merge.go:214-239 | the nested loops record exactly the specified pairs, also when the table refuses one half-way |
| Contributors.ContributorRepo.ResolveContributor | internal/repository/contributor_merge.go:247-267 | the loop follows at most 8 tombstones |
| Contributors.FlatAfterMergeIff | internal/repository/contributor_merge.go:126-208 | an accepted merge keeps the forest flat if and only if the survivor is live or there is nobody live to fold |
| Contributors.MergeRejectedIff | internal/repository/contributor_merge.go:133-208 | exactly when a merge is refused, including what the foreign key and the self-pointing check refuse |
| Contributors.MergeJoinsPeople | internal/repository/contributor_merge.go:126-208 | everybody who was a loser is now the survivor, everybody else is who they were, and the forest is sound again |
| Contributors.MergeKeepsAttributions | internal/repository/contributor_merge.go:126-208 | the attributions (book, role, person resolved) are those of before; the credits fall by the reported Collapsed, the survivor gains the reported Credits, losers hold none |
| Contributors.HarmlessStep | internal/repository/contributor_merge.go:126-208 | one step of a run: sound afterwards if and only if the request is harmless |
| Contributors.RunsStaySoundIff | internal/repository/contributor_merge.go:126-267 | over every run of merges: sound throughout if and only if each merge is harmless when made; then everybody resolves to somebody live within the bound |
| Contributors.ResolveWalks | internal/repository/contributor_merge.go:247-267 | what a resolver with any bound finds at any depth |
| Contributors.ResolverBound | internal/repository/contributor_merge.go:247-267 | it finds the real person if and only if at most 8 tombstones are in the way |
| Contributors.TombstonedSurvivorsOutrunTheResolver | internal/repository/contributor_merge.go:133-137 | merges the code accepts that build chains of any length, past which it answers with a tombstone |
| Contributors.DismissedGroupIsSettled | internal/repository/contributor_merge.go:60-104 | after dismissing a group no name shared by two of its members is offered |
| Contributors.DismissingIsPairs | internal/repository/contributor_merge.go:214-239 | only pairs of the group are recorded, smaller id first, and all of them exactly when the table takes every one |
| Contributors.RunSplits | internal/repository/contributor_merge.go:126-239 | a run of dismissals and merges leaves the catalogue its merges leave and the pairs its dismissals record |
| Contributors.RejectedPairHidesItsName | internal/repository/contributor_merge.go:50-104 | after any run of dismissals and merges a name with an open pair is offered if and only if no recorded pair has both members still live under it, against the comment |
| Contributors.MergeBringsItBackIff | internal/repository/contributor_merge.go:60-208 | a merge takes its losers off a name, and the name is offered afterwards exactly when two people are left and every rejected pair under it has lost a member |
| Contributors.OneRejectedPairOfThree | internal/repository/contributor_merge.go:56-59 | three namesakes, one pair rejected: the name is hidden with two pairs open, and comes back when one of the pair is folded |
| Containment.WalkDown | internal/repository/book_contents.go:134-152 | the recursive query's rounds, to a fixpoint or depth 32, find exactly what lies 1 to 32 links below |
| Containment.BookContentsRepo.Add | internal/repository/book_contents.go:82-120 | the answer and the links afterwards, moving a link that is there; nothing else changes |
| Containment.BookContentsRepo.Remove | internal/repository/book_contents.go:123-129 | the one link goes, the others keep their positions |
| Containment.ReachesIffPath | internal/repository/book_contents.go:134-152 | reaches is true if and only if a path of 1 to 32 links exists |
| Containment.WalkIsWholeClosure | internal/repository/book_contents.go:134-152 | with no chain longer than 32 the bounded walk is the whole closure |
| Containment.LinkKeepsAcyclicIff | internal/repository/book_contents.go:82-120 | a new link keeps the table loop-free if and only if its container is not already below the contained work |
| Containment.AddKeepsAcyclicIff | internal/repository/book_contents.go:82-152 | Add keeps any loop-free table loop-free if and only if the bounded check can see the loop; in particular when nothing below is deeper than 32 |
| Containment.RunsStayAcyclicIff | internal/repository/book_contents.go:82-152 | the same over every run of adds and removes |
| Containment.LongChainCloses | internal/repository/book_contents.go:134-152 | a chain of more than 32 links closed on itself is accepted |
| Ownership.OneStateAndTheBest | internal/repository/book_ownership.go:44-107 | a book is visible if and only if some source justifies it; its one state is the best ranked of those that do |
| Ownership.ShelfIffHeldOrInside | internal/repository/book_ownership.go:72-107 | shelf if and only if held, or within 32 containment links of a held container |
| Ownership.ShallowShelfIsComplete | internal/repository/book_ownership.go:72-107 | with no deeper chain, every book inside a held one is on the shelf |
| Ownership.StatesMean | internal/repository/book_ownership.go:44-107 | each state row by row: on the shelf by a readable copy or a path of at most 32 links from one, else wished for by the caller himself, else newly suggested to him, else in a series of a readable library |
| Ownership.NothingElseShows | internal/repository/book_ownership.go:44-107 | rows of other people and of other libraries, read or old suggestions included, make no difference to the scope |
| Ownership.MoreRowsNeverHurt | internal/repository/book_ownership.go:44-107 | more copies, links, wishes, suggestions, series rows or libraries never remove a book or worsen its state |
| Locations.CopyLocationRepo.CheckDescendant | internal/repository/copy_locations.go:306-321 | the bounded upward query finds the place if and only if the climb meets it |
| Locations.CopyLocationRepo.CreatePlace | internal/repository/copy_locations.go:113-144 | the new table, or the error and the table as it was |
| Locations.CopyLocationRepo.RenamePlace | internal/repository/copy_locations.go:150-193 | the same for renaming and moving, with its refusals |
| Locations.CopyLocationRepo.DeletePlace | internal/repository/copy_locations.go:283-301 | the same for deleting; children become top-level |
| Locations.CreateMeans | internal/repository/copy_locations.go:113-144 | what is created is what was asked for, beside all there was; and what each refusal is for |
| Locations.RenameMeans | internal/repository/copy_locations.go:150-193 | the new name, or the old for a blank one, the new parent if it was to be moved, everything else as it was; and what each refusal is for, a loop within 32 places included |
| Locations.DeleteMeans | internal/repository/copy_locations.go:283-304 | the place is gone alone, and what was in it stands at the top |
| Locations.MoveKeepsForestIff | internal/repository/copy_locations.go:150-193 | moving a place keeps the forest if and only if the new parent is not inside it |
| Locations.CreateKeepsForest | internal/repository/copy_locations.go:113-144 | creating keeps a same-library forest |
| Locations.DeleteKeepsForest | internal/repository/copy_locations.go:283-301 | deleting keeps a same-library forest |
| Locations.RenameKeepsForestIff | internal/repository/copy_locations.go:150-193 | an accepted rename or move keeps it if and only if the 32-step check can see the loop; always for parents within that depth |
| Locations.LongNestCloses | internal/repository/copy_locations.go:150-193 | in a nest of more than 32 places the outermost can be moved inside the innermost, and the forest is lost |
| Locations.RunsStayForestIff | internal/repository/copy_locations.go:113-321 | the same over every run of creates, renames, moves and deletes |
| Locations.HasPathIffShallow | internal/repository/copy_locations.go:40-94 | the places the listing gives a path are those within its depth bound |
| Locations.InsideExtendsPath | internal/repository/copy_locations.go:40-94 | a place's path begins with the path of every place it is inside |
| Locations.PathPrefixIsInside | internal/repository/copy_locations.go:40-94 | and only of those |
| Locations.PathNamesTheClimb | internal/repository/copy_locations.go:40-94 | a path is the names and ids one climbs through, read from the top |
| Locations.ElsewherePathsStay | internal/repository/copy_locations.go:40-94 | a change to a place moves nothing in the list but the place and what is inside it |
| Locations.ListPlacesSeventeen | internal/repository/copy_locations.go:40-94 | the list can place exactly what is at most 17 deep |
| Locations.ParentsComeFirst | internal/repository/copy_locations.go:40-94 | the listing puts every place before what is inside it |
| Locations.SubtreesStayTogether | internal/repository/copy_locations.go:40-94 | and keeps each subtree contiguous |
| Locations.SiblingsByName | internal/repository/copy_locations.go:40-94 | places with one parent are listed by name, and of one name by id |
| Copies.CopyRepo.SetEditionCopyCount | internal/repository/library_books.go:170-245 | the three statements end in the specified table |
| Copies.CopyRepo.SetThenGet | internal/repository/library_books.go:170-259 | the count read back is the count set, none for a negative one; for an unknown edition the smaller of it and what was there |
| Copies.CopyRepo.IncrementCopyCount | internal/repository/editions.go:318-341 | adopt the oldest copy without an edition, or insert |
| Copies.CopyRepo.AddBookToLibrary | internal/repository/library_books.go:46-63 | a first holding, unless one is there |
| Copies.CopyRepo.RemoveBookFromLibrary | internal/repository/library_books.go:72-85 | every live copy there is retired, and not found exactly when there was none |
| Copies.LiveCopiesAfterwards | internal/repository/library_books.go:170-245 | the live copies are the first n of those there were, adopted ones, then new ones; new rows only when nothing is left to adopt |
| Copies.CountIsExact | internal/repository/library_books.go:170-245 | exactly max(count, 0) live copies of a known edition; an unknown edition only loses its surplus |
| Copies.SettingTwiceIsSettingOnce | internal/repository/library_books.go:170-245 | idempotent |
| Copies.TouchesNothingElse | internal/repository/library_books.go:170-245 | no row disappears; only this edition's copies may be retired and its book's loose copies given the edition; every other row is as it was |
| Copies.CountsElsewhereStay | internal/repository/library_books.go:170-245 | with the new rows counted in: the live copies of every other edition and library are the same, and another library holds what it held |
| Copies.NewRowsAreItsOwn | internal/repository/library_books.go:228-243 | a row added is a copy of the edition's book in the library with no detail filled in |
| Copies.FullerGoesFirst | internal/repository/library_books.go:195-210 | of two copies the one with a detail more, whichever it is, is retired before the other; of two alike the older, and then the lower id |
| Copies.OldestAreAdopted | internal/repository/library_books.go:212-232 | no copy without an edition is given it while an older one waits |
| Copies.KeptAreFirst | internal/repository/library_books.go:199-207 | the copies kept are the first n of the sort order |
| Copies.KeptComeBeforeRetired | internal/repository/library_books.go:199-207 | kept and retired rows are never interleaved, and the kept are described no better |
| Copies.RetiresThePlainIff | internal/repository/library_books.go:167-207 | the comment's promise holds if and only if there is nothing to choose |
| Copies.SignedCopyIsRetired | internal/repository/library_books.go:167-207 | of a plain and a signed copy, the signed one goes |
| Copies.IncrementAddsOne | internal/repository/editions.go:318-341 | the edition always gains one; the book gains one only when there was nothing to adopt |
| Copies.IncrementMeans | internal/repository/editions.go:318-341 | row by row: the oldest waiting copy gets the edition and nothing else changes, or one bare row is added, or for an unknown edition nothing happens |
| Copies.AddBookMeans | internal/repository/library_books.go:46-63 | nothing changes where a live copy is held; else one bare row of no edition is added |
| Copies.AddThenOneIsOneCopy | internal/repository/library_books.go:46-63 | adding a book and then giving it one copy of an edition is one copy, either way |
| Jobs.JobRepo.PruneHistory | internal/repository/jobs.go:314-370 | the statements in order end in the specified tables, and the counts reported are the rows gone |
| Jobs.PruneIsOneRule | internal/repository/jobs.go:314-370 | two deletes in a row are one rule on the original table: a finished job stays if and only if it passes both limits there; unfinished jobs always stay |
| Jobs.SweepingTwiceIsSweepingOnce | internal/repository/jobs.go:314-370 | idempotent at a fixed cutoff |
| Jobs.KindsStayWithinLimit | internal/repository/jobs.go:314-370 | no kind keeps more finished jobs than its limit |
| Jobs.JobStaysIff | internal/repository/jobs.go:314-370 | a job is left if and only if it has not finished, or it is not older than the days allowed and fewer finished jobs of its kind are newer than the number allowed |
| Jobs.RunStaysIff | internal/repository/jobs.go:314-370 | an AI run is left, as it was, if and only if it is going, waits for review or is not older than the days allowed |
| Jobs.MissedSweepsAreMadeGood | internal/repository/jobs.go:314-370 | sweeping now and later leaves what sweeping only later leaves, jobs and runs |
| FieldMerge.GroupAnswers | internal/providers/merge.go:206-240 | the loop with its index map builds the specified groups |
| FieldMerge.MergeField | internal/providers/merge.go:206-278 | no result exactly when nobody answered; else a winner, a reason and alternatives as the rules say |
| FieldMerge.Heaviest | internal/providers/merge.go:280-327 | the tie-break picks the first of the tied groups that weighs most |
| FieldMerge.GroupsPartition | internal/providers/merge.go:206-240 | one group per value in first-arrival order, each with exactly that value's answers in arrival order |
| FieldMerge.AgreedMeansMajority | internal/providers/merge.go:206-278 | agreed if and only if one value has at least two votes and more than any other, and it is the choice; no alternative ever has more than the choice |
| FieldMerge.GroupSizes | internal/providers/merge.go:206-240 | a group has as many sources as its value has votes, and no value has two groups |
| FieldMerge.NothingIsDropped | internal/providers/merge.go:206-278 | the choice and the alternatives are every distinct value once |
| FieldMerge.SourcesSay | internal/providers/merge.go:206-240 | a group's sources are the answers whose trimmed, normalised text is its key, one for one and in the order they arrived |
| FieldMerge.VotesAreSayings | internal/providers/merge.go:206-240 | a value has as many votes as there are such answers |
| FieldMerge.GroupsArrive | internal/providers/merge.go:206-240 | of two values the one first said has the earlier group |
| FieldMerge.ChosenIsFirstSaid | internal/providers/merge.go:206-278 | the value chosen is what the first provider to say it wrote |
| FieldMerge.NobodyAnswered | internal/providers/merge.go:206-240 | there is no result exactly when every answer is blank |
| FieldMerge.OnlyMeansAlone | internal/providers/merge.go:241-278 | "only" if and only if exactly one provider answered |
| FieldMerge.TiebreakMeans | internal/providers/merge.go:280-327 | in a tie no value with as many votes weighs more in the words it was first said in, and one that weighs the same was first said later |
| FieldMerge.EveryAnswerIsASource | internal/providers/merge.go:206-278 | each answer is a source of the choice or of an alternative |
| FieldMerge.KeysOfPermutation | internal/providers/merge.go:206-240 | the values answered, with their number, do not depend on arrival order |
| FieldMerge.AgreementIgnoresArrivalOrder | internal/providers/merge.go:206-278 | whether providers agree, and on what, is the same for every reordering |
| Fanout.Collect | internal/providers/registry.go:173-254 | the select loop, for whatever its selects pick, ends in the specified collector |
| Fanout.StepKeepsInv | internal/providers/registry.go:173-254 | every event keeps: one place per provider, statuses of the messages taken, remaining equal to the number missed |
| Fanout.EveryRunKeepsInv | internal/providers/registry.go:173-254 | the same over every interleaving of replies, deadlines, cancellation and selects |
| Fanout.NoSenderBlocks | internal/providers/registry.go:173-254 | a provider that has not sent can send at once, also after the return |
| Fanout.ReportIsRight | internal/providers/registry.go:173-254 | what the caller gets at any point: statuses and books match the messages taken, in arrival order; no early return without a deadline or cancellation |
| Fanout.StatusesSay | internal/providers/registry.go:173-254 | at any point of any run: of the messages taken, "answered" exactly for a book, "no record" exactly for nothing, an error exactly for a failure; "missed" exactly for everybody else |
| Fanout.BooksSay | internal/providers/registry.go:173-254 | the books are the finds among the messages taken, one for one in arrival order, as many as there are "answered" |
| Fanout.MessagesAreReplies | internal/providers/registry.go:173-254 | every message is a reply of the run, and every provider that replied has sent one |
| Fanout.DeadlineNeedsAResult | internal/providers/registry.go:173-254 | the short deadline passes only after a result, so it never ends a lookup with nothing taken |
| Fanout.WrittenOnce | internal/providers/registry.go:173-254 | a status once written never changes, and nothing changes after the return |
| Fanout.DrainingFinishes | internal/providers/registry.go:173-254 | when all have replied, taking what is queued ends the lookup with everybody's own status |
| Fanout.RunsAreCollections | internal/providers/registry.go:173-254 | the collector in any run of the system is the loop on some sequence of picks |
| BookFilter.AddCondition | internal/repository/books.go:642-808 | each kind of search condition mentions, binds and counts in step, and read back is the test asked for |
| BookFilter.AddGroups | internal/repository/books.go:637-822 | the same for arbitrary groups; an empty one adds nothing |
| BookFilter.BuildBookFilter | internal/repository/books.go:547-1007 | for every combination of options: the next number is one past the arguments, every placeholder is bound, every argument mentioned, and the conditions read back are what was asked |
| Search.Parse | internal/search/parser.go:40-55 | from text to groups, through the loops of tokenize and parseTokens |
| Search.ParseTokens | internal/search/parser.go:141-223 | the recursive loop with its flushes reads the tokens as specified, and says how many it read |
| Search.Tokenize | internal/search/parser.go:65-135 | the loop cuts quotes, patterns, parentheses, field values and words as specified |
| Search.WrittenIsRead | internal/search/parser.go:226-298 | every term with a value that does not close it early, typed, is cut off whole and read as what it was |
| Search.OtherPrefixes | internal/search/parser.go:264-298 | the other names of fields, and that an unknown prefix is searched for as it stands |
| Search.KeywordsInAnyCase | internal/search/parser.go:192-202 | NOT, AND and OR in any case |
| Search.UnclosedRunsOn | internal/search/parser.go:85-104 | a quote or a slash that is not closed runs to the end |
| Search.QueriesMeanWhatTheySay | internal/search/parser.go:40-317 | text to meaning: any query of terms, negated terms and alternatives in parentheses is parsed into groups that hold exactly when the query does, whatever its terms are true of |
| Search.WordsMakeOneGroup | internal/search/parser.go:141-223 | words alone make one group of which all are asked |
| Search.RowIsOneGroup | internal/search/parser.go:196-218 | a row of terms is one group, of alternatives if an OR stands in it anywhere |
| Search.AndSeparates | internal/search/parser.go:196-200 | an AND ends the row: what stands before it and after it are groups of their own |
| Search.AndCuts | internal/search/parser.go:196-205 | outside parentheses an AND cuts whatever stands before it, stray ORs included, from what follows, as long as no NOT waits for its term |
| Search.RowsAreReadIff | internal/search/parser.go:196-218 | for different terms that is how one reads it, AND closer than OR, for every truth of the terms, if and only if OR stands between all of them or none |
| Search.OrBetweenParenthesesIsAnd | internal/search/parser.go:172-205 | two parentheses with OR between them are both asked for |
| Search.NotIsOppositeIff | internal/search/parser.go:172-190 | NOT before alternatives is their opposite, whenever it is for each term, if and only if all have one negation |
| Search.NotStopsAtAnd | internal/search/parser.go:172-190 | NOT before a parenthesis with AND in it negates the first part only |
| SearchTerms.AskedIsMeant | internal/repository/books.go:643-810 | each field and operator: asked if and only if known and not over-long, and its SQL text, values in place, says what the condition means |
| SearchTerms.GroupsAreMeant | internal/repository/books.go:640-823 | the filter's groups hold exactly when each group does, all or any of the conditions that ask something |
| SearchTerms.SearchShowsWhatItSays | internal/repository/books.go:640-823 | from the box to the books: text, tokens, groups, SQL texts with their values hold of exactly the books the query describes |
| SearchTerms.NotIsOpposite | internal/search/parser.go:300-317 | outside titles a condition and its negation are opposites |
| SearchTerms.NotOfAWord | internal/search/parser.go:300-317 | of a word of the title: never neither, and both exactly when it is found but not in the title as it stands |
| SearchTerms.NotOfAPattern | internal/search/parser.go:300-317 | a title can match a pattern and its negation |
| SearchTerms.TypedNotIsOpposite | internal/search/parser.go:192-194 | NOT typed before one term outside titles shows exactly the other books |
| SearchTerms.LetterIsMeant | internal/repository/books.go:568-578 | the letter parameter asks for titles that begin with it, or with a figure |
| SearchTerms.TagAndTypeAreMeant | internal/repository/books.go:620-635 | the tag and type parameters, in any case |
| SearchTerms.QueryIsMeant | internal/repository/books.go:555-566 | the plain query: words in the title however spaced, or a pattern |
| SearchTerms.ListsAreMeant | internal/repository/books.go:605-618 | a list is shown if it is the caller's own or that of a library he belongs to |
| ListMeaning.TheListIsWhatWasAsked | internal/repository/books.go:540-1006 | all options at once, on the tables: the conditions the builder strings together hold of exactly the books the options describe, one after another, for every caller |
| SortPlans.ParseSortKeys | internal/repository/book_sort.go:82-115 | from the raw parameter and direction, the loop with its seen map reads the levels of the specification |
| SortPlans.LevelsAreDistinct | internal/repository/book_sort.go:82-115 | no field twice, at most four levels |
| SortPlans.FirstsMean | internal/repository/book_sort.go:82-115 | a level is there exactly when its token is known, its field comes up first there, and there is room among four, in the order of the tokens |
| SortPlans.BareLevel | internal/repository/book_sort.go:82-115 | a token without flags takes the direction parameter; the names that are known |
| SortPlans.WrittenReadsBack | internal/repository/book_sort.go:82-115 | up to four different levels written out, flags and all, are read back as they were, whatever the default direction |
| SortPlans.BuildSortPlan | internal/repository/book_sort.go:208-337 | for any keys, the joins read the libraries, series and places asked for, and mention everything they bind |
| BookList.BuildListQuery | internal/repository/books.go:1015-1056 | through filter, caller, sort (given or read from the parameter) and paging: every placeholder bound, every argument mentioned, filter and sort still mean what was asked, the page numbers bound to the page |
| BookList.PagesTile | internal/repository/books.go:1015-1056 | the first k pages, one after another, are the first k pages' worth of the sorted list |
| BookList.PageIsFull | internal/repository/books.go:1015-1024 | a page is as long as asked within 1 and 200, or 25, short only at the end; a page before the first is the first |
| BookList.BuildGroupedQuery | internal/repository/book_grouping.go:91-176 | the same for the grouped list: the count binds exactly what its text mentions, with the sort's joins or sorted by label without them, and the page binds two more, at the numbers its LIMIT and OFFSET name |
| BookList.BuildHeadingQuery | internal/repository/books.go:1088-1101 | the same for a page's headings: the sort's joins read what was asked, the last number is the page's books, and every number between is mentioned by a join |
| BookSort.OrderTerms | internal/repository/book_sort.go:208-337 | the loop over the levels emits the specified ORDER BY terms, with the default sort and the closing title and id |
| BookSort.EverySortIsTotal | internal/repository/book_sort.go:203-337 | whatever the levels read, every sort orders every set of books without ties |
| BookSort.SameOrderForEveryPage | internal/repository/book_sort.go:203-337 | so a list sorted again for another page, by the same values, is the same list |
| BookSort.MissingComesLast | internal/repository/book_sort.go:241-325 | a book without an author, series, shelf or date comes after all that have one, in both directions, except where standalones are mixed in |
| BookSort.LevelDecides | internal/repository/book_sort.go:241-337 | among books that have it, the first level's value decides, up or down |
| BookSort.EveryLevelDecides | internal/repository/book_sort.go:233-327 | at any level, two books alike in all that the earlier levels read stand by that level's own value, up or down |
| BookSort.MissingComesLastOfItsEqual | internal/repository/book_sort.go:233-327 | and one without it comes after one that has it, up or down |
| BookSort.PositionsDecide | internal/repository/book_sort.go:255-279 | within one series the position decides, none last; mixed in, none counts as nought |
| BookSort.TitleThenId | internal/repository/book_sort.go:208-211 | where no level tells two books apart the title does, ascending, and then the id; without levels the sort is by title |
| SortPicks.SeriesAskedIsPicked | internal/repository/book_sort.go:255-268 | a sort by series takes one series of the book in readable libraries, one being looked at before any other, then by name and id |
| SortPicks.PlaceAskedIsPicked | internal/repository/book_sort.go:281-301 | a sort by shelf takes a place of a copy there, at or right below one being looked at first, then by path |
| SortPicks.DateAskedIsPicked | internal/repository/book_sort.go:307-315 | a sort by date takes the earliest copy the libraries still have |
| BookSort.OneBeforeTheOther | internal/repository/book_sort.go:203-337 | of two books exactly one comes first if some term tells them apart, and none otherwise |
| Facets.ListAsksTheFlags | internal/repository/books.go:620-1006 | the list's conditions read as a whole are the rail's flags for that book, with words over 200 bytes dropped and the tag parameter asked for a second time |
| Facets.ListedMeans | internal/repository/books.go:620-1006 | what is listed, on the tables themselves: visible, fitting every selection made, in one of the series, ever given the tag, holding every word that is not over-long |
| Facets.TagFilterAgrees | internal/repository/books.go:620-628 | that second reading: one tag, spelled like the whole parameter in any case, ever put on the book |
| Facets.DimensionAgrees | internal/repository/book_facets.go:204-263 | dimension by dimension, with and without a caller, the list's condition is the rail's flag |
| Facets.WordGroupsHold | internal/repository/books.go:640-652 | what the list asks of the words typed |
| Facets.CountIsListTotal | internal/repository/book_facets.go:115-395 | the count of a value is the total of the list with that value alone selected in its dimension and everything else kept, tags and libraries included, where list and rail can agree |
| Facets.NothingTicked | internal/api/handlers/books_across.go:145-229 | with no library ticked list and rail cover the same books in the same states, and average over the same readers |
| Facets.NarrowedIff | internal/api/handlers/books_across.go:67-89 | a library is in the list's scope if and only if it can be read and, with some ticked, is ticked |
| Facets.ListedIsVisible | internal/api/handlers/books_across.go:145-175 | whatever is listed is visible through the readable libraries, in no worse a state |
| Facets.ListKeepsToReadable | internal/api/handlers/books_across.go:145-175 | the rows of other libraries and of other people make no difference to the list |
| Facets.CountsKeepToReadableIff | internal/repository/book_facets.go:221-224 | nor to the counts, for all data, selections and values, if and only if every ticked library can be read, or none can |
| Facets.AgreesIff | internal/repository/book_facets.go:115-395 | count and total agree for all data, selections and values, averages included, if and only if the list accepts the query, the ticked libraries make visible just what they hold and, unless nothing is visible, no word is over-long, the tag parameter names at most one tag, and all readable libraries are ticked once one is |
| Facets.OverlongWordDisagrees | internal/repository/books.go:643-645 | a book on the shelf and a word of 201 bytes: the rail says none, the list shows it |
| Facets.TwoTagsDisagree | internal/api/handlers/books.go:250 | a book with two tags and both ticked: the rail counts it, the list is empty |
| Facets.TickedLibraryHidesAWish | internal/repository/book_facets.go:221-224 | a wished-for book and a ticked library: the list shows it, the rail says none |
| Facets.TickedLibraryMovesAnAverage | internal/repository/rating_average.go:24-47 | one of two libraries ticked, the same book in both queries: the rail offers an average the list does not have |
| Facets.TagsAreShorter | internal/api/handlers/books_across.go:241-255 | a tag cut out of the parameter is shorter than it, or is all of it |
| Facets.TickedAgreesIffAllHeld | internal/repository/book_facets.go:221-224 | for readable ticked libraries that is: nothing visible through them but their own copies |
| Facets.CountsAdd | internal/repository/book_facets.go:266-395 | no book is counted twice in a dimension it has one value of |
| Facets.SelectedCountsSum | internal/repository/book_facets.go:266-395 | the counts of the selected values sum to the list's total |
| Facets.CoveringCountsSum | internal/repository/book_facets.go:266-395 | and so do the counts of any values that between them are what the dimension lets through |
| Facets.OwnershipCountsSum | internal/repository/book_facets.go:266-395 | with no state selected the four states' counts sum to the total |
| RailQuery.BuildRailQuery | internal/repository/book_facets.go:127-313 | every placeholder of the counts' query is bound, nothing is bound that the text does not mention, the caller included, and read back it asks the words, people, series and dimensions selected, in any combination |
| RailQuery.TextNames | internal/repository/book_facets.go:127-313 | whom the text names: the caller for the scope and for the marks, or nobody, and the caller with the readable libraries for the lists |
| RailQuery.CountedAsBound | internal/repository/book_facets.go:204-395 | a book is counted beside a value if and only if the text of the query, read back without the request, counts it: the book is in the scope of the caller it names there, everything the text asks but for the value's own flag holds of it with the marks of the caller it names for those, and the value is its own |
| RailQuery.WordsAreTyped | internal/search/parser.go:40-55 | the words the counts search for, typed with blanks between them, are the list's one group |
| Facets.FillClosed | internal/repository/book_facets.go:515-536 | the vocabulary in its order with missing values at nought, then the unheard-of values in theirs |
| Facets.UnlistedRows | internal/repository/book_facets.go:515-536 | what follows the vocabulary is exactly the rows it has not heard of |
| Grouping.OneEntryEach | internal/repository/book_grouping.go:73-83 | a book falls in exactly one entry: its series whose name sorts first, or its own |
| Grouping.MatchedSumsToTotal | internal/repository/book_grouping.go:129-166 | the entries' matched counts sum to the book total, however entries are ordered |
| Grouping.EntriesFollowTheList | internal/repository/book_grouping.go:129-166 | under a sort that is not by label, entries come in the order of their first book in the ungrouped list |
| Grouping.RebuildPage | internal/repository/book_grouping.go:216-239 | the loop keeps the page query's order and drops only rows that were not found |
| Grouping.NothingDropped | internal/repository/book_grouping.go:216-239 | with all found, the page is the query's page |
| Grouping.PageIsWhatWasFound | internal/repository/book_grouping.go:216-239 | the page has exactly the rows whose series or book was found, in the query's order with its counts |
| Barcodes.Isbn13From10Body | internal/providers/upc_isbn.go:72-83 | the loop computes the specified code |
| Barcodes.GeneratedIsValid | internal/providers/upc_isbn.go:72-83 | every generated code has a weighted sum of 0 modulo 10 and carries its nine digits |
| Barcodes.OneWrongDigitIsCaught | internal/providers/upc_isbn.go:72-83 | any single-digit substitution breaks that sum |
| Barcodes.IsbnsFromUpcAddon | internal/providers/upc_isbn.go:37-53 | each usable prefix once, checked ones first, in order |
| Barcodes.SplitIff | internal/providers/upc_isbn.go:23-32 | a code is split if and only if it is 6, 6 and 5 digits, a nought before them or not, and then into the first and the last |
| Barcodes.PrefixesMean | internal/providers/upc_isbn.go:37-53 | the prefixes tried are those that make nine digits with the add-on, each once where it comes first, in order |
| Barcodes.GeneratedMeans | internal/providers/upc_isbn.go:37-53 | each gives the valid ISBN of 978, the prefix and the add-on |
| Barcodes.LearnedIffRegenerated | internal/providers/upc_isbn.go:37-69 | a prefix is learned from a scan and an ISBN if and only if that prefix turns the scan back into the ISBN |
| Barcodes.LearnedAmongOthers | internal/providers/upc_isbn.go:37-69 | beside any other prefixes the learned one still finds its book |
| Barcodes.BarcodeKey | internal/providers/isbn_key.go:11-29 | the loop computes the specified key |
| Barcodes.FormsMeet | internal/providers/isbn_key.go:11-29 | an ISBN-10 in any spelling and its ISBN-13 share one key |
| Barcodes.BreaksAreIgnored | internal/providers/isbn_key.go:11-29 | a hyphen or a space inside a code makes no difference to its key |
| Barcodes.CapitalsDoNotMatter | internal/providers/isbn_key.go:11-29 | nor does a capital |
| Barcodes.KeyIsSettledIff | internal/providers/isbn_key.go:11-29 | keying a key changes nothing if and only if the code is an ISBN-10 or, once hyphens and spaces are off its trimmed ends, no white space is left there |
| Barcodes.ATabBehindAHyphen | internal/providers/isbn_key.go:11-29 | codes on which it does: the first round takes the hyphen, the next the tab |
| Authors.JoinNameSuffixes | internal/providers/authors.go:29-43 | the loop computes the specified list |
| Authors.SplitAuthorNames | internal/providers/authors.go:23-25 | the same for text cut at commas |
| Authors.JoiningTwiceIsJoiningOnce | internal/providers/authors.go:29-43 | idempotent on every list |
| Authors.FoldMeans | internal/providers/authors.go:29-43 | every part that is no suffix begins a name, and every suffix stands in the name before it, in order |
| Authors.DotsDoNotMatter | internal/providers/authors.go:16-21 | a dot inside makes no difference to whether a part is a suffix |
| Authors.LastDotDoesNotMatter | internal/providers/authors.go:16-21 | nor one at the end |
| Authors.CapitalsDoNotMatter | internal/providers/authors.go:16-21 | nor a capital |
| Authors.SmallLettersAreLookedUp | internal/providers/authors.go:16-21 | in small letters without dots it is one if and only if the table has it |
| Authors.SplittingUndoesJoining | internal/providers/authors.go:23-43 | for comma-free parts, splitting the joined line gives the list back |
| Authors.TableHasNoCommas | internal/providers/authors.go:11-14 | the suffix table meets the one condition the two laws need |

## Left out

- HTTP routing, handlers beyond the two book endpoints' scopes, auth, configuration, the text interface, provider clients and cover probing: input and output without a hard invariant.
- golang-migrate, pgx, River, cron and PostgreSQL themselves: abstract steps with the assumptions above. Message and log texts, timings, row scanning and hydration.
- Reading migration files and their names (internal/db/repair.go:45-104), and the regular expressions behind `probes`, `atomicityBlockers` and `identifier`: repair takes each file's probes and blockers as given, and looks objects up by exact name.
- Escape strings (E'..') and identifiers containing `$`: the lexer does not claim to handle them.
- Contributor details and display order are not rows of the merge model; the normalised name is given.
- `SearchBooks` and `SearchSeries`: the same loop as `lookupBarcode` without statuses and the overall timer. `SetBookcase`, `PlaceNewestCopy`, `DeleteFinished` and `SortCoversBySize` change one field, one row, one kind's rows and one list's order, and nothing modelled here depends on them; `MergeBookResults` calls the modelled vote once a field.
- The facet dimensions library, shelf, tag and location, and every series facet: list and counts use different predicates there, so no count is claimed for them. A list filter by shelf is outside `Facets.Plain` for the same reason. Ordering of facet values (`insertionSort`, `sortByValueDesc`) is left out.
- The counts beside a search with operators, quotes, patterns or fields: the counts read every token as a word, as the code says, so `Facets` speaks of plain words only. Taking `letter:` out of the groups in the handler.
- SortPlans.BuildSortPlan: states what the sort's joins bind and mention; the ORDER BY terms it also emits are `BookSort.OrderTerms`, and the heading text is left out. An empty sort is the title sort, whose join binds nothing.
- Barcodes.BarcodeKey: white space and capitals are those of ASCII.
- Authors.JoinNameSuffixes: white space and case are those of ASCII; the suffix table is a parameter.
- Authors.SplitAuthorNames: the same.
- Lengths of time are whole days of 86400 seconds in job retention.
- Grouping by label orders entries by the collation of their labels; only the order by first book is stated.
