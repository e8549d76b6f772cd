# Trello to Planka migration: a Dafny model of the migration decisions

The repository copies a Trello account into a Planka server. Each Trello
workspace becomes a Planka project. Boards, lists and cards are copied,
and so are each card's attachments, labels, checklist items and comments.

This project models the decisions the migration makes while it copies.
The REST calls themselves are not modelled.

- **Label colours** (`label_colors.dfy`). `get_planka_label_color` is the
  table of ten Trello colours with the default `"desert-sand"`.
- **Label deduplication** (`label_migration.dfy`). `migrate_card_labels`
  keeps a run-wide `label_cache` from the string key
  `board_id + "_" + stripped name + "_" + Planka colour` to a Planka label
  id. The cache is a class whose `map` field the methods update. Planka's
  answers to `create_label` and `add_label_to_card` are oracles that take
  the step number.
- **Attachment migration** (`attachment_migration.dfy`, `filenames.dfy`).
  `migrate_attachments` works per attachment:
  - it picks a display name, truncates it at 200 characters, transliterates
    it and adds the creation date;
  - it skips the attachment when the temporary path is longer than 255
    characters or the download or upload fails;
  - it records the id mapping, then sets the cover once.
  The download, the upload, percent-decoding, `unidecode` and the
  timezone formatter are parameters. File-system effects are recorded in
  an effect trace.
- **Planka request rules** (`planka_api.dfy`):
  - the parent-id guards that raise `ValueError`;
  - the conditional keys of the `create_card` and `create_label` bodies;
  - the cover payload;
  - the comment footer;
  - the status-code rule of `create_label` and `add_label_to_card`.
- **The workspace walk** (`workspace_migration.dfy`). `migrate_workspaces`
  covers:
  - the nested walk, each level in reverse;
  - the six counters;
  - skipping a board whose lists answer 404, and re-raising any other
    HTTP error;
  - the closing warning.
  The counters are fields of a class that the loop methods update.
- **Python helpers** (`text.dfy`, `sequences.dfy`, `wrappers.dfy`):
  - `str.strip` with Python's whitespace set;
  - `str.replace` of one character;
  - `str.rfind`;
  - `reversed`.

Every loop the model covers is a method with a loop. Each such method is
proved equal to a specification function: `LabelRun`, `AttachmentRun`
with `AttachmentEffects`, and the `...Run` functions of the walk. The
properties are proved as lemmas about those functions.

## Model

| member | source | states |
|---|---|---|
| LabelColors.PlankaLabelColor | labels_planka.py:16-17 | `get_planka_label_color`: total, and every result is one of the eleven Planka colours (MatchesTableLookup gives its value) |
| LabelColors.MatchesTableLookup | labels_planka.py:2-17 | the mapper equals `TRELLO_TO_PLANKA_COLORS.get(colour, "desert-sand")`, and a null colour gets the default |
| LabelColors.KnownColors | labels_planka.py:2-13 | each of the ten Trello colours maps to exactly its paired Planka colour |
| LabelColors.UnknownColorsGetDefault | labels_planka.py:16-17 | any colour outside the ten keys, a null colour, "gray" and "" all map to "desert-sand" |
| LabelColors.ResultInPalette | labels_planka.py:2-17 | the result is always one of the eleven Planka colours, and it is the default exactly when the colour is not a table key |
| LabelColors.MapperInjectiveOnTable | labels_planka.py:2-13 | two colours with the same non-default result are the same colour |
| LabelColors.PaletteHasNoUnderscore | labels_planka.py:2-13 | no Planka colour contains "_", the separator of the label cache key |
| LabelColors.PaletteIsTableValuesAndDefault | labels_planka.py:2-17 | the palette is exactly the ten table values plus the default, which is not a table value |
| Sequences.Reversed | migrators.py:107 | the result visits the elements last to first: same length, `r[i] == s[|s|-1-i]` |
| Text.StripLeft | planka_api.py:151 | the result is a suffix of the input; everything cut is whitespace; it starts with non-whitespace or is empty |
| Text.StripRight | planka_api.py:151 | the result is a prefix of the input; everything cut is whitespace; it ends with non-whitespace or is empty |
| Text.Strip | migrators.py:109 | the stripped name is no longer than the input and is empty or starts and ends with non-whitespace |
| Text.StripIsInfix | migrators.py:109 | the stripped name is a contiguous slice of the input, and everything before it is whitespace |
| Text.StripCutsTrailingSpace | migrators.py:109 | everything after the stripped slice is whitespace |
| Text.StripIdempotent | migrators.py:109 | stripping twice gives the same name as stripping once |
| Text.StripEmptyIffAllSpace | planka_api.py:151 | a name strips to "" exactly when all of its characters are whitespace |
| Text.ReplaceChar | planka_api.py:130 | same length; each target character becomes the replacement and every other character is kept |
| Text.LastIndexOf | planka_api.py:128 | the index of the last occurrence, or -1 when there is none: nothing after it matches |
| Text.LastIndexOfAppend | planka_api.py:128 | the last occurrence in `x + y` is in `y` when `y` has one, else in `x` |
| Filenames.SplitExt | planka_api.py:128 | `os.path.splitext`: the parts concatenate to the input; the extension is empty or a single final dot-suffix without "/"; the split is at the last dot of the final component unless that component is all dots before it |
| Filenames.SplitExtAtLastDot | planka_api.py:128 | "report.pdf" splits as ("report", ".pdf") and "archive.tar.gz" as ("archive.tar", ".gz") |
| Filenames.SplitExtLeadingDot | planka_api.py:128 | ".bashrc" has no extension |
| Filenames.SplitExtNoDotInName | planka_api.py:128 | "notes" and "dir.d/file" have no extension |
| Filenames.TransliterateFilename | planka_api.py:127-131 | the result is the transliterated base with each space turned into "_", followed by the original extension verbatim |
| Filenames.AsciiNameKeptExceptSpaces | planka_api.py:127-131 | if the transliterator is the identity on ASCII, an ASCII name comes back unchanged except that spaces in its base become "_" |
| Filenames.TransliteratedBaseIsAscii | planka_api.py:127-131 | if the transliterator always yields ASCII, the base of the result is ASCII |
| PlankaApi.CreateProject | planka_api.py:10-16 | posts to /projects a body of exactly name, description and isPublic: the given name, "Imported from Trello" and false |
| PlankaApi.CreateBoard | planka_api.py:19-27 | fails exactly when the project id is falsy; otherwise it posts to the project's boards a body of exactly the given name, position 0 and isPublic false |
| PlankaApi.CreateList | planka_api.py:30-38 | fails exactly when the board id is falsy; otherwise it posts to the board's lists a body of exactly the given name, position 0 and the board id |
| PlankaApi.CreateCard | planka_api.py:41-68 | fails exactly when the list id is falsy; the body always has name, position 0, listId and isDueDateCompleted, has dueDate exactly when the due date is truthy and description exactly when the description is truthy, and nothing else |
| PlankaApi.CreateTask | planka_api.py:71-85 | fails exactly when the card id is falsy; otherwise it posts to the card's tasks a body of exactly the card id, the given name, the completed flag and position 0 |
| PlankaApi.CreateLabelRequest | planka_api.py:141-152 | posts to the board's labels; the body always has the board id, position 0 and the colour, and has the name exactly when it is not blank |
| PlankaApi.ItemOnSuccess | planka_api.py:156-160 | the item on status 200 or 201, and nothing on any other status |
| PlankaApi.AddLabelToCardRequest | planka_api.py:163-168 | posts to the card's labels a body of exactly the label id |
| PlankaApi.CoverPayload | planka_api.py:175-178 | the body has only coverAttachmentId: null exactly when the id is falsy, the id otherwise |
| PlankaApi.CommentText | planka_api.py:88-99 | the comment is the original text, then the footer, then the author's name and username, then the formatted date, or the raw date when formatting fails |
| PlankaApi.CommentTextKeepsOriginal | planka_api.py:88-99 | two comments with the same author and date are equal only if their texts are: the text is kept verbatim |
| LabelMigration.ResolveAll | migrators.py:108-110 | each label is resolved to its stripped name and mapped colour, in place |
| LabelMigration.CacheKey | migrators.py:112 | the key is the plain concatenation with two separators (its length is the sum plus 2) |
| LabelMigration.LabelStep | migrators.py:108-129 | specification of one loop iteration: the cache afterwards and the requests made; its cases are stated by LabelStepCases |
| LabelMigration.LabelRun | migrators.py:107-129 | specification of the loop over labels in visiting order, each label the next step on the cache left by the previous ones; RunKeepsEntries, CreatedLabelsAreCached and CreatesAtMostOncePerKey are proved about it |
| LabelMigration.LabelStepCases | migrators.py:112-129 | a hit binds the cached id without creating; a miss creates under the stripped name and mapped colour; a failed creation leaves the cache unchanged and binds nothing; a successful one adds exactly that key and binds the new id |
| LabelMigration.StepFacts | migrators.py:114-124 | one step keeps old entries, requests at most one creation, first and only for an uncached key, and caches a successful one |
| LabelMigration.RunCallsSplit | migrators.py:107 | the requests of a run are those of the shorter run followed by those of the last label |
| LabelMigration.RunKeepsEntries | migrators.py:96-129 | the cache only grows: no entry is removed or overwritten |
| LabelMigration.CreatedLabelsAreCached | migrators.py:117-124 | every successful creation is in the cache afterwards under its key with the returned id |
| LabelMigration.CreatesAtMostOncePerKey | migrators.py:114-124 | no creation is requested for a key already cached, and of two creations for one key the earlier failed |
| LabelMigration.BindAnswersChangeNothingElse | migrators.py:126-129 | whatever the binding answers are, the cache, the creations and the sequence of bound ids are the same: a failed binding does not stop the loop |
| LabelMigration.SameLabelTwice | migrators.py:107-129 | the same label twice on an empty cache creates one Planka label and binds its id twice |
| LabelMigration.TwoUnnamedGreenLabels | migrators.py:107-129 | two unnamed green labels produce one "tank-green" label bound twice |
| LabelMigration.GreenResolves | migrators.py:108-110 | an unnamed green label resolves to an unnamed "tank-green" label |
| LabelMigration.GreenPairResolves | migrators.py:107-110 | two unnamed green labels both resolve to ("", "tank-green") |
| LabelMigration.RunUnfolds | migrators.py:107-129 | a run one label longer is the shorter run followed by that label's step |
| LabelMigration.SingleLabelRun | migrators.py:107-129 | a run over one label is that label's step |
| LabelMigration.LastUnderscoreIsSeparator | migrators.py:112 | with no "_" in the suffix, the last "_" of the key is the separator |
| LabelMigration.KeyDeterminesLabelOnBoard | migrators.py:112 | on one board, equal keys with palette colours mean equal names and colours |
| LabelMigration.KeyCollidesAcrossBoards | migrators.py:112 | the string key does not separate board "a_b" with name "c" from board "a" with name "b_c" |
| LabelMigration.TransferHeadingColors | migrators.py:105 | the heading of the log line, as written, fails exactly when some label has no colour |
| LabelMigration.ColourlessLabelAbortsHeading | migrators.py:105-110 | a label without colour makes the heading fail, although the loop would give it the default colour |
| LabelMigration.ColourlessLabelCreatedWithDefault | migrators.py:107-118 | a label without colour is created with its stripped name and "desert-sand" |
| LabelMigration.LabelCache.constructor | migrators.py:96 | the cache starts empty |
| LabelMigration.LabelCache.MigrateLabel | migrators.py:108-129 | the loop body: the new cache and the requests are those of `LabelStep` on the old cache |
| LabelMigration.LabelCache.MigrateLabels | migrators.py:107-129 | the loop: the new cache and the requests are those of `LabelRun` over the labels in the order visited |
| LabelMigration.LabelCache.MigrateCardLabels | migrators.py:97-129 | the new cache and the requests are those of `LabelRun` over the labels last to first; a card without labels changes nothing and makes no request |
| AttachmentMigration.DisplayName | migrators.py:46 | the name when it is truthy; otherwise the decoded file name, and the decoded "attachment" when there is none |
| AttachmentMigration.Truncate | migrators.py:47-49 | a name of at most 200 characters is unchanged; a longer one becomes its first 200 characters followed by "..." |
| AttachmentMigration.TruncateBound | migrators.py:47-49 | a truncated name is at most 203 characters long |
| AttachmentMigration.TruncateIdempotent | migrators.py:47-49 | truncating twice gives the same name as truncating once |
| AttachmentMigration.LastIndexOfInsert | migrators.py:57 | inserted text without the character does not move its last occurrence in the base or the extension |
| AttachmentMigration.SplitExtInsertNoExt | migrators.py:57-58 | a name without extension stays without one after the date tag is appended |
| AttachmentMigration.SplitExtInsertExt | migrators.py:57-58 | the date tag inserted before an extension keeps that extension |
| AttachmentMigration.SplitExtInsert | migrators.py:57-58 | `splitext` of the dated name splits between the tagged base and the original extension |
| AttachmentMigration.DatedName | migrators.py:56-58 | the dated name is 14 characters plus the date longer than the name, starts with the name's base and ends with its extension |
| AttachmentMigration.StoredName | migrators.py:50-60 | the stored name: the transliterated name, dated when the date is truthy and formats; StoredNameCases states both cases |
| AttachmentMigration.StoredNameCases | migrators.py:50-60 | without a truthy date or when formatting raises `ValueError`, the stored name is the transliterated name; otherwise it is dated, and with a date free of "." and "/" it keeps the transliterated extension and its base gains `_(created_at_<date>)` |
| AttachmentMigration.DatedNameKeepsExtension | migrators.py:54-58 | with a date free of "." and "/", the dated name keeps the original extension and its base is the old base plus `_(created_at_<date>)` |
| AttachmentMigration.TempPath | migrators.py:62 | the temporary path is 5 characters longer than the name |
| AttachmentMigration.TempPathTooLong | migrators.py:64-66 | the temp path is over 255 characters exactly when the name is over 250 |
| AttachmentMigration.SkippedIffStoredNameTooLong | migrators.py:44-66 | an attachment is skipped, with no effect and the mapping unchanged, exactly when its truncated, transliterated and dated name is longer than 250 characters |
| AttachmentMigration.Prepare | migrators.py:44-62 | keeps the Trello id and date; the raw name is the truncated display name, and the path is the temp path of the stored name |
| AttachmentMigration.PrepareAll | migrators.py:43-62 | every attachment is prepared in place, keeping its id |
| AttachmentMigration.CoverChoice | migrators.py:92 | a cover id is chosen exactly when the Trello cover was uploaded, as `planka_attachments.get(cover_attachment_id)` |
| AttachmentMigration.AttachmentStep | migrators.py:62-89 | specification of one loop iteration: the mapping afterwards and the effects; StepCases states its cases |
| AttachmentMigration.AttachmentRun | migrators.py:43-89 | specification of the loop over attachments in order; MappingKeysAreUploads, MappingIsLastUpload and RunEffectsOrdered are proved about it |
| AttachmentMigration.AttachmentEffects | migrators.py:37-93 | specification of `migrate_attachments`' effects: nothing without attachments, otherwise the run and one cover update; CoverUpdatedOnceAtEnd and CoverPayloadChoice are proved about it |
| AttachmentMigration.StepCases | migrators.py:62-89 | a too-long path does nothing; otherwise it downloads first, uploads only after a successful download, records the mapping only on a successful upload and then removes the temporary file |
| AttachmentMigration.RunEffectsSplit | migrators.py:43 | the effects of a run are those of the shorter run followed by those of the last attachment |
| AttachmentMigration.MappingKeysAreUploads | migrators.py:81-83 | the mapping holds exactly the ids of attachments whose upload succeeded |
| AttachmentMigration.MappingIsLastUpload | migrators.py:81-83 | each uploaded id maps to the Planka id of its last successful upload |
| AttachmentMigration.RunEffectsOrdered | migrators.py:62-89 | every path is within 255; an upload directly follows the successful download of its path; a file is removed directly after its successful upload; a failed upload leaves its file; no cover update happens inside the loop |
| AttachmentMigration.CoverUpdatedOnceAtEnd | migrators.py:37-39 | a card without attachments gets no effect at all; otherwise the cover is updated exactly once, as the last effect |
| AttachmentMigration.CoverPayloadChoice | migrators.py:92-93 | the cover payload is the Planka id of the migrated cover, or null when there is no cover or it was not migrated |
| AttachmentMigration.CoverOfUnknownAttachmentCleared | migrators.py:92-93 | when no attachment has the cover's id, the cover is set to null whatever the network does |
| AttachmentMigration.CoverOfMissingAttachmentCleared | migrators.py:33-93 | a cover id naming none of the card's attachments clears the cover |
| AttachmentMigration.MigrateAttachment | migrators.py:62-89 | the loop body: the new mapping and the effects are those of `AttachmentStep` |
| AttachmentMigration.TransferAttachments | migrators.py:37-93 | the effects are those of `AttachmentEffects`: the run over all attachments then one cover update, or nothing for no attachments |
| AttachmentMigration.MigrateAttachments | migrators.py:33-93 | `migrate_attachments`: the effects are `AttachmentEffects` over the prepared attachments |
| WorkspaceMigration.UnderCounted | migrators.py:223-226 | the warning condition: found cards, attachments or comments exceed the migrated ones; WarningIgnoresBoardsAndLists and UnderCountExamples are proved about it |
| WorkspaceMigration.CardStep | migrators.py:176-200 | specification of one card: migrated, its attachments and comments counted |
| WorkspaceMigration.CardsRun | migrators.py:176 | specification of the card loop: last to first |
| WorkspaceMigration.ListStep | migrators.py:169-176 | specification of one list: created, its cards counted, then walked last to first |
| WorkspaceMigration.ListsRun | migrators.py:169 | specification of the list loop: last to first |
| WorkspaceMigration.BoardStep | migrators.py:156-169 | specification of one board: created, then skipped on 404, raised on another error, or its lists counted and walked last to first |
| WorkspaceMigration.BoardsRun | migrators.py:156 | specification of the board loop: last to first, stopping at the first raised error |
| WorkspaceMigration.WorkspaceStep | migrators.py:149-156 | specification of one workspace: project created, boards counted, then walked |
| WorkspaceMigration.WorkspacesRun | migrators.py:149 | specification of the workspace loop: last to first, stopping at the first raised error |
| WorkspaceMigration.Migrate | migrators.py:132-226 | specification of `migrate_workspaces`: aborted with the raised status, or completed with the counters and the warning; CompletedCountsAreTotals, AbortedIffFatalBoard and ProjectsInReverseOrder are proved about it |
| WorkspaceMigration.Names | migrators.py:150-151 | the names of a sequence (workspaces, boards, lists or cards), in order |
| WorkspaceMigration.SumOfSplitLast | migrators.py:146-200 | a total is the total of all but the last element plus the last |
| WorkspaceMigration.CardsRunCounts | migrators.py:176-200 | the card loop adds each card's attachments and comments and raises nothing |
| WorkspaceMigration.ListStepCounts | migrators.py:169-200 | one list adds its total |
| WorkspaceMigration.ListsRunCounts | migrators.py:169-200 | the list loop adds the totals of all lists and raises nothing |
| WorkspaceMigration.BoardStepCounts | migrators.py:156-200 | a board whose lists were fetched or answered 404 adds its total and raises nothing |
| WorkspaceMigration.BoardsRunCounts | migrators.py:156-200 | with no fatal board, the board loop adds the totals of all boards and raises nothing |
| WorkspaceMigration.WorkspaceStepCounts | migrators.py:149-200 | with no fatal board, one workspace adds its total |
| WorkspaceMigration.WorkspacesRunCounts | migrators.py:149-200 | with no fatal board, the walk adds the totals of all workspaces and raises nothing |
| WorkspaceMigration.CompletedCountsAreTotals | migrators.py:146-226 | with no fatal board, the run completes, each counter is the total of what Trello returned, and the warning is the reconciliation test on those totals |
| WorkspaceMigration.NoWarningWhenNothingIsMissing | migrators.py:223-226 | when the found tallies equal what was walked, the run completes without the warning |
| WorkspaceMigration.DeletedBoardCountedButSkipped | migrators.py:155-165 | a board whose lists answer 404 is counted and created in Planka, then skipped without raising |
| WorkspaceMigration.WarningIgnoresBoardsAndLists | migrators.py:223-226 | the warning depends only on cards, attachments and comments |
| WorkspaceMigration.UnderCountExamples | migrators.py:223-226 | one attachment short warns; equal counts do not; fewer workspaces, boards and lists or more cards do not |
| WorkspaceMigration.BoardStepRaises | migrators.py:160-167 | one board raises exactly when its lists answer an HTTP error other than 404 |
| WorkspaceMigration.BoardsRunRaises | migrators.py:156-167 | the board loop raises exactly when some board is fatal |
| WorkspaceMigration.WorkspacesRunRaises | migrators.py:149-167 | the walk raises exactly when some board of some workspace is fatal |
| WorkspaceMigration.AbortedIffFatalBoard | migrators.py:160-167 | the migration aborts exactly when some board's lists answer an HTTP error other than 404 |
| WorkspaceMigration.NamesAtAppend | migrators.py:151-179 | one more event adds its name to the creations of its own kind and changes no other kind |
| WorkspaceMigration.CardsRunNames | migrators.py:176-179 | the card loop migrates the cards last to first and creates no project, board or list |
| WorkspaceMigration.ListStepNames | migrators.py:169-179 | one list is created, then its cards are migrated last to first; no project or board is created |
| WorkspaceMigration.ListsRunNames | migrators.py:169-171 | the list loop creates the lists last to first and no project or board |
| WorkspaceMigration.BoardStepNames | migrators.py:156-171 | one board is created and no project; when its lists were fetched they are created last to first |
| WorkspaceMigration.BoardsRunNames | migrators.py:156-158 | with no fatal board, the board loop creates the boards last to first and no project |
| WorkspaceMigration.WorkspaceStepNames | migrators.py:149-158 | with no fatal board, a workspace creates its own project, then its boards last to first |
| WorkspaceMigration.WorkspacesRunProjects | migrators.py:149-151 | the projects are created under the workspaces' names, last to first |
| WorkspaceMigration.ProjectsInReverseOrder | migrators.py:149-151 | with no fatal board, the projects are the workspaces' display names in reverse order |
| WorkspaceMigration.Walk.constructor | migrators.py:146-147 | the counters start at zero, with the workspace count set |
| WorkspaceMigration.Walk.MigrateCard | migrators.py:176-200 | one card is created and its attachments and comments are counted, as `CardStep` says |
| WorkspaceMigration.Walk.MigrateList | migrators.py:169-176 | one list is created, its cards counted, then walked last to first, as `ListStep` says |
| WorkspaceMigration.Walk.MigrateBoard | migrators.py:156-169 | one board is created, then a 404 skips it, another error is raised, or its lists are counted and walked, as `BoardStep` says |
| WorkspaceMigration.Walk.MigrateWorkspace | migrators.py:149-156 | one project is created, all boards counted, then walked last to first until one raises, as `WorkspaceStep` says |
| WorkspaceMigration.MigrateWorkspaces | migrators.py:132-226 | `migrate_workspaces`: the outcome is `Migrate`, so the lemmas about counts, the warning, aborts and order hold for it |

## Left out

- HTTP traffic is not modelled: `requests`, `raise_for_status`, the bearer token, and all of `trello_api.py`. What Trello returns is data, and Planka's answers are oracles.
- `utils.py` is not part of this model:
  - `get_token` is network access;
  - `log_message` is console and file output, and log contents are not modelled;
  - `count_trello_items` is a network tally; its result is the `found` parameter of `Migrate`.
- File-system effects (`open`, the streamed write, `os.remove`) are effect values in a trace.
- `time.sleep` pacing and the `config` module are left out.
- Three foreign functions are parameters, and a fourth is absorbed by an oracle:
  - `convert_to_trello_timezone` (planka_api.py:134-138), which relies on `pytz` timezone rules, and the date parsing of `add_comment`;
  - `unidecode`;
  - `urllib.parse.unquote`;
  - `urllib.parse.quote` is not a parameter: it only forms the download URL, and the download oracle receives the raw name instead.
- Network oracles are keyed by step number, so identical requests may get different answers. Exceptions other than a failed download, a failed upload and the `get_lists` HTTP error are not modelled.
- A null `fileName` on an attachment is not modelled; an absent one is.
- A missing label colour and a null one are both `None`. `get`'s "gray" default for a missing colour maps to the default either way, as `UnknownColorsGetDefault` shows.
- MigrateAttachments: it computes every attachment's names before the loop, while the source computes them inside it. Naming has no effects, so the order of effects is the same.
- LabelCache.MigrateCardLabels: it resolves every label before the loop, while the source resolves each inside the loop. Resolving has no effects, and the heading of the log line is not evaluated (see Findings).
- Walk.MigrateCard: the walk records a card's whole migration as one event and counts its attachments and comments. The rest of a card's migration is not walked:
  - the `create_card` call (modelled by `PlankaApi.CreateCard`);
  - `migrate_attachments` (modelled by `AttachmentMigration.MigrateAttachments`);
  - `migrate_card_labels` (modelled by `LabelMigration.LabelCache.MigrateCardLabels`);
  - the checklist loop of `create_task` calls (each request is modelled by `PlankaApi.CreateTask`);
  - the comment loop of `add_comment` calls (the text is modelled by `PlankaApi.CommentText`).
- MigrateWorkspaces: Planka creation failures inside the walk are not modelled. A falsy parent id raising `ValueError` and an exception from `migrate_attachments` are also left out: every creation is assumed to return an id.
- Three behaviours of the code a reader may not expect; the model follows the code:
  - `create_label` leaves a blank name out of the body rather than sending "";
  - the temporary file stays in `/tmp` when the upload fails;
  - the "transferred" counters count what Trello returned for the walked items, not what reached Planka.

## Findings

| source | as written | input that shows it | evidently intended | confidence | as-written member | corrected member |
|---|---|---|---|---|---|---|
| migrators.py:105 | The log line joins `l['color']` of every label before the loop. A label whose colour is null makes `join` raise `TypeError`; a missing colour raises `KeyError`. The exception is not caught, so the whole migration stops. | a card with the single label `{"name": "x", "color": null}` | A colourless label gets the default colour "desert-sand", as lines 108-110 and labels_planka.py:17 provide | not executed | LabelMigration.ColourlessLabelAbortsHeading | LabelMigration.ColourlessLabelCreatedWithDefault |
