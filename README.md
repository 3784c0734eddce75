# bkmk, modelled in Dafny

bkmk is a terminal bookmark manager for shell commands. It keeps named
commands in named groups, with a global ID counter. It reads the user's shell
history, so that frequent commands can be suggested and history lines can be
saved as bookmarks. A full-screen interface browses, searches, adds, edits and
deletes bookmarks and runs or copies them.

This project models the three sequential parts of that program:

* `history.dfy` (module `History`) covers reading shell history:
  * parsing one history line, including the zsh extended prefix `: <epoch>:<n>;`;
  * the newest-first, de-duplicating read with its limit;
  * the quote-aware argument counter;
  * the multi-line-fragment heuristic;
  * frequency analysis: filter, count, rank and cut;
  * the precedence rule that picks the history file.
* `config.dfy` (module `ConfigStore`) is the in-memory bookmark store.
  * It is a class `Config` with the fields `groups` and `nextID`, whose methods
    splice the groups and commands in place and advance the counter.
  * It includes ID migration, the flattening used by the interface, and the
    rule that picks which backup files to prune.
* `tui.dfy` (module `Tui`) is the interface's state machine.
  * It is a class `Model` whose fields are those of the Go model.
  * It has one method per key handler and helper, proved against `Snapshot()`,
    a value holding all of those fields.
  * Text inputs are plain strings.
  * Everything the outside world answers during one key press arrives in an
    `Env` value. That covers:
    * the typed value;
    * the fuzzy matcher;
    * the history read;
    * the page size;
    * the outcome of `Save`;
    * the outcome of `RenameGroup`;
    * the clipboard.
* `views.dfy` (module `Views`) holds the integer arithmetic of the list views:
  * rows that fit;
  * the scroll window;
  * the scroll indicator;
  * the truncation of long commands;
  * the order of the action menu.
* `text.dfy` (module `Text`) gives the Go library behaviour the core depends on:
  * `unicode.IsSpace`, `strings.TrimSpace` and `strings.Index`;
  * UTF-8 byte length;
  * `strconv.Itoa` and `strconv.ParseInt`;
  * Go's `<` on strings.
* `wrappers.dfy` has `Option` and `Result`.

Across the model:

* A Go string is the sequence of Unicode code points its UTF-8 bytes decode
  to. `Text.Utf8Len` recovers Go's byte length where the source compares
  `len`.
* A timestamp is an optional epoch in seconds. In Go only the zero `time.Time`
  counts as absent, so `time.Unix(0, 0)` is present.

## Model

| member | source | states |
|---|---|---|
| Text.TrimLeft | internal/history/history.go:148 | the result is the longest suffix not starting with white space; everything dropped is white space |
| Text.TrimRight | internal/history/history.go:148 | the result is the longest prefix not ending with white space; everything dropped is white space |
| Text.TrimSpace | internal/history/history.go:148 | reference definition of `strings.TrimSpace`: the left trim followed by the right trim; what it means is stated by TrimSpaceSlice, TrimSpaceEnds and TrimSpaceIdempotent |
| Text.TrimSpaceSlice | internal/history/history.go:148 | `TrimSpace(s)` is a contiguous slice of `s`, and only white space lies on either side of it |
| Text.TrimSpaceEnds | internal/history/history.go:148 | a trimmed string is empty or starts and ends with a non-space |
| Text.TrimSpaceIdempotent | internal/history/history.go:148 | trimming a string with no surrounding space gives it back |
| Text.Utf8Width | internal/history/history.go:151 | a code point takes 1 to 4 bytes, and exactly 1 iff it is ASCII |
| Text.Utf8Len | internal/history/history.go:151 | the byte length is at least the code-point count, and equal to it for ASCII text |
| Text.Utf8LenAppend | internal/history/history.go:220 | byte length is additive over concatenation |
| Text.IndexOf | internal/history/history.go:134-138 | `strings.Index` of one character: -1 iff absent, else the position of its first occurrence |
| Text.NatDigits | internal/history/history.go:140 | the decimal text of a natural number is non-empty and all digits |
| Text.Itoa | internal/config/config.go:293 | decimal text is non-empty and contains neither `:` nor `;` |
| Text.ParseInt64 | internal/history/history.go:140 | succeeds only on non-empty text, with a value inside the signed 64-bit range |
| Text.DigitsValueOfNatDigits | internal/history/history.go:140 | the digits of `n` read back as `n` |
| Text.ParseItoa | internal/history/history.go:140 | `ParseInt(Itoa(n)) == n` for every 64-bit `n` (round trip) |
| Text.ItoaInjective | internal/config/config.go:289-302 | distinct IDs have distinct decimal text, so a key can match at most one ID |
| Text.Less | internal/history/history.go:251 | reference definition of Go's `<` on strings: code point by code point, a proper prefix first; its order laws are the next four rows |
| Text.LessIrreflexive | internal/history/history.go:251 | string `<` is irreflexive |
| Text.LessTransitive | internal/history/history.go:251 | string `<` is transitive |
| Text.LessTotal | internal/history/history.go:251 | distinct strings are ordered one way or the other |
| Text.LessAsymmetric | internal/history/history.go:251 | string `<` is asymmetric |
| History.PathCandidates | internal/history/history.go:34-58 | 4 candidate paths when HISTFILE is set, else 3 |
| History.HistoryPathWithHome | internal/history/history.go:34-61 | not found iff no candidate exists; otherwise the first existing candidate, in the order HISTFILE, `.zsh_history`, `.bash_history`, `.history` |
| History.TimeOf | internal/history/history.go:140-141 | an epoch is a present time unless it is Go's zero time |
| History.ParseHistoryLine | internal/history/history.go:129-162 | the command is empty or the trimmed text after the extended prefix |
| History.ParseHistoryLineMeaning | internal/history/history.go:129-162 | a kept command is trimmed, at least 2 bytes and not skipped; it is rejected iff the trimmed text is shorter than 2 bytes or in the skip set; a timestamp exists iff the line is extended and its field parses to a non-zero time, and then it is that value; a plain line has none |
| History.IndexOfAfter | internal/history/history.go:134 | the first `;` after a prefix without one is at the prefix's length |
| History.ExtendedParts | internal/history/history.go:133-145 | on an extended line the command is the text after the first `;`, and the timestamp field runs from `": "` to the first `:` or the `;` |
| History.ExtendedHeader | internal/history/history.go:132 | a zsh header `: epoch:elapsed` starts with `": "` and contains no `;` |
| History.HeaderField | internal/history/history.go:136-139 | the timestamp field of a zsh header is the epoch's decimal text |
| History.ParseExtendedLine | internal/history/history.go:129-162 | parsing `: epoch:elapsed;cmd` gives back `cmd` and `epoch` for any acceptable command (round trip) |
| History.ParsePlainLine | internal/history/history.go:148-161 | a line without the extended prefix yields its trimmed text with no timestamp |
| History.ParseRejectsSkipped | internal/history/history.go:155-158 | each of `ls`, `cd`, `pwd`, `clear`, `exit` and `history` is rejected |
| History.ParseRejectsShort | internal/history/history.go:150-153 | a line shorter than 2 bytes is rejected |
| History.NonEmpty | internal/history/history.go:86-92 | every line kept is a non-empty input line |
| History.ParseAll | internal/history/history.go:104 | the parse of each line, in order |
| History.Keep | internal/history/history.go:105-107 | at most one element, and only a non-empty command |
| History.NewestFirst | internal/history/history.go:103-107 | reference definition of the backwards walk: the accepted parsed lines from the last line of the file to the first; NewestFirstLatest and NewestFirstOrder state what that order means |
| History.Take | internal/history/history.go:121-123 | a prefix, of length `limit` when the input is longer and `limit > 0`, else all |
| History.Dedup | internal/history/history.go:109-113 | reference definition of the `seen` map: the first occurrence of each command, in order; DedupFirst and DedupCommands state its meaning |
| History.ReadHistorySpec | internal/history/history.go:86-126 | the value `ReadHistoryFrom` returns for the file's lines: non-empty lines, parsed, newest first, de-duplicated, cut to `limit`, numbered; ReadHistoryMeaning states its properties and ReadHistoryEntries computes it |
| History.Numbered | internal/history/history.go:115-119 | one entry per kept command |
| History.NewestFirstSplit | internal/history/history.go:103 | walking backwards over `lines` is walking `lines[i..]` and then `lines[..i]` |
| History.DedupPrefix | internal/history/history.go:109-113 | de-duplicating a longer list extends the result |
| History.DedupStep | internal/history/history.go:109-113 | one more command is kept iff it was not seen, and the seen set grows by it |
| History.NumberedStep | internal/history/history.go:115-119 | appending a command appends an entry whose index is the count so far |
| History.WalkStep | internal/history/history.go:103-119 | one step of the backwards walk extends the kept list and the seen set as the loop does |
| History.WalkInvariantStep | internal/history/history.go:103-119 | the loop's kept list, entries and seen set stay equal to their specifications after one step |
| History.StopAtLimit | internal/history/history.go:121-123 | stopping once `limit` entries are kept yields the first `limit` entries of the full walk |
| History.ReadHistoryEntries | internal/history/history.go:86-126 | the method returns exactly `ReadHistorySpec(lines, limit)` |
| History.ReadNonEmpty | internal/history/history.go:86-92 | the scan loop keeps exactly the non-empty lines, in order |
| History.DedupNewestFirst | internal/history/history.go:99-126 | the backwards walk with its `seen` map and early break returns the numbered first `limit` of the de-duplicated newest-first commands |
| History.FirstPos | internal/history/history.go:110 | the first position with a given command, or -1 iff there is none |
| History.LatestLine | internal/history/history.go:103 | the last line holding a given non-empty command, or -1 |
| History.FirstPosAppend | internal/history/history.go:110 | the first occurrence in `xs + ys` is in `xs` if there is one there, else in `ys` |
| History.NewestFirstLatest | internal/history/history.go:103 | a command's first position newest-first is its latest line |
| History.NewestFirstOrder | internal/history/history.go:103 | earlier newest-first means a later line |
| History.CommandsOfFirstPos | internal/history/history.go:110 | a command was seen iff it occurs |
| History.DedupFirst | internal/history/history.go:109-113 | de-duplication keeps each command's first occurrence, keeps it once, and keeps the original order |
| History.DedupCommands | internal/history/history.go:109-113 | de-duplication loses no command |
| History.NewestFirstNonEmpty | internal/history/history.go:105-107 | no empty command survives |
| History.DedupLatest | internal/history/history.go:99-126 | each kept command is its latest occurrence in the file, and kept entries are ordered from more to less recent |
| History.WalkLatest | internal/history/history.go:99-126 | the same holds for the numbered, limited walk |
| History.WalkComplete | internal/history/history.go:99-126 | with no limit every non-empty command of the file is returned |
| History.ReadHistoryMeaning | internal/history/history.go:72-127 | the entries have indices 0..n-1 and at most `limit` of them when `limit > 0`; commands are pairwise distinct; each entry has its command's latest line and that line's timestamp; entries are most recent first; with no limit nothing is missing |
| History.CountArgs | internal/history/history.go:264-293 | the quote-aware loop over the characters computes `ArgCount` |
| History.ScanFrom | internal/history/history.go:268-287 | reference definition of the character loop of `countArgs` as a fold of one step per character; ScanFromAppend, ScanFromOffset and ScanInsideQuote state how it composes |
| History.ArgCount | internal/history/history.go:264-293 | the count `countArgs` returns: the separators that end a started argument, plus one for an argument still open at the end; ArgCountJoin, ArgCountBlank, ArgCountWord and ArgCountQuoted state its meaning |
| History.ScanFromAppend | internal/history/history.go:264-293 | scanning a concatenation is scanning the parts in turn |
| History.ScanFromOffset | internal/history/history.go:264-293 | a scan adds its count to where it started |
| History.ArgCountJoin | internal/history/history.go:272-280 | joining two commands with a separator outside quotes adds their argument counts |
| History.ArgCountBlank | internal/history/history.go:264-293 | blank text has no arguments |
| History.ArgCountWord | internal/history/history.go:264-293 | a word has one argument |
| History.ScanInsideQuote | internal/history/history.go:270-276 | inside a quote nothing but its closing character changes the scan |
| History.ArgCountQuoted | internal/history/history.go:270-276 | a quoted string containing blanks is one argument |
| History.IsMultilineFragment | internal/history/history.go:297-319 | true iff the text is longer than 300 bytes, ends with a backslash, is empty, or starts with a character other than an ASCII letter, `.`, `/`, `~` or `$` |
| History.TallyAppend | internal/history/history.go:234 | counting one more command adds one to its count |
| History.Qualifies | internal/history/history.go:203-232 | reference definition of the filter chain: a non-empty command, recent enough when the file has timestamps, with enough arguments, at least 13 bytes, no `bkmk` prefix and not a fragment; PassesFilters ties the Go chain to it |
| History.CountedCommands | internal/history/history.go:190-235 | reference definition of the lines the loop counts: the qualifying commands in file order, with the timestamp flag as seen so far; TallyLines computes it |
| History.Tally | internal/history/history.go:234 | reference definition of the `counts` map: one increment per counted command; TallyMultiplicity states the resulting counts |
| History.FrequencyCounts | internal/history/history.go:190-235 | the `counts` map for a file's lines; FrequentCommandsMeaning states its contents |
| History.IsRanking | internal/history/history.go:241-257 | what a ranking of a counts map is: strictly sorted by count descending then text ascending, each entry a key with its count, as many entries as keys up to `limit`, and no dropped command ranked above a kept one; RankCounts and FrequentCommands return one |
| History.BeforeTotal | internal/history/history.go:247-252 | the ranking order is total on distinct commands |
| History.BeforeTransitive | internal/history/history.go:247-252 | the ranking order is transitive |
| History.BeforeIrreflexive | internal/history/history.go:247-252 | the ranking order is irreflexive |
| History.InsertSorted | internal/history/history.go:247-252 | insertion keeps the ranking sorted and adds exactly one element |
| History.RankCounts | internal/history/history.go:241-257 | the result holds, for each command of the map, exactly its count, sorted by count descending then text ascending, cut to `limit` when positive |
| History.PassesFilters | internal/history/history.go:203-232 | the filter chain agrees with `Qualifies` |
| History.CountedStep | internal/history/history.go:190-235 | one loop step updates the timestamp flag and appends the line iff it qualifies |
| History.TallyLines | internal/history/history.go:190-235 | the counting loop with its `hasTimestamps` flag yields the tally of the qualifying commands |
| History.FrequentCommands | internal/history/history.go:176-260 | the result is a ranking of the frequency counts |
| History.TallyMultiplicity | internal/history/history.go:234 | a command is counted iff it qualifies, and its count is its number of qualifying lines |
| History.CountedPassFilters | internal/history/history.go:220-232 | every counted command has enough arguments, at least 13 bytes, no `bkmk` prefix, and is not a fragment |
| History.CutoffIrrelevantWithoutTimestamps | internal/history/history.go:203-217 | before any timestamped line the cutoff does not matter |
| History.FrequentCommandsMeaning | internal/history/history.go:176-260 | every result counts a qualifying command exactly as many times as it qualifies and passes every filter; results are ordered by count descending, then text ascending |
| ConfigStore.GroupIndex | internal/config/config.go:243-249 | -1 iff no group has the name, else its first position |
| ConfigStore.CommandIndex | internal/config/config.go:291-296 | -1 iff no command matches the name or decimal ID, else the first match |
| ConfigStore.IdIndex | internal/config/config.go:305-312 | -1 iff no command has the ID, else its first position; kept apart from GroupIndex and CommandIndex because each mirrors a different Go loop's match test |
| ConfigStore.IdGroup | internal/config/config.go:305-312 | -1 iff no group holds the ID, else the first group holding it |
| ConfigStore.RemoveAt | internal/config/config.go:283 | one fewer element, the rest in order |
| ConfigStore.AllOf | internal/config/config.go:401-407 | reference definition of `AllCommands`: the groups' commands concatenated in group order; AllOfAppend and FlattenMatchesAllOf state its meaning |
| ConfigStore.Flatten | internal/config/config.go:418-433 | reference definition of `FlatCommands`: each group's flat entries in group order; FlattenMembership and FlattenMatchesAllOf state its meaning |
| ConfigStore.WithCommands | internal/config/config.go:270-275 | replaces one group's commands and changes no other group |
| ConfigStore.FlattenGroup | internal/config/config.go:418-433 | one flat entry per command, carrying the group's name |
| ConfigStore.AllOfAppend | internal/config/config.go:401-407 | all commands of concatenated groups are concatenated |
| ConfigStore.FlattenAppend | internal/config/config.go:418-433 | flattening distributes over concatenation |
| ConfigStore.FlattenMatchesAllOf | internal/config/config.go:401-433 | the flat list has one entry per command in group-major order, each copying that command's fields |
| ConfigStore.FlattenMembership | internal/config/config.go:418-433 | a flat entry exists iff some group with that name holds that command |
| ConfigStore.IdsAppend | internal/config/config.go:257-277 | IDs of concatenated lists add up |
| ConfigStore.IdsMember | internal/config/config.go:257-277 | an ID is present iff some command has it |
| ConfigStore.IdsRemoveAt | internal/config/config.go:289-302 | removing a command removes exactly its ID |
| ConfigStore.IdBagWithCommands | internal/config/config.go:257-277 | replacing a group's commands replaces exactly their IDs |
| ConfigStore.AddCommandKeepsIds | internal/config/config.go:257-277 | appending a command with ID `NextID` and incrementing keeps IDs distinct and below the counter |
| ConfigStore.RemoveCommandKeepsIds | internal/config/config.go:289-315 | removing a command keeps IDs distinct and below the counter |
| ConfigStore.ReplaceCommandKeepsIds | internal/config/config.go:360-399 | editing a command in place keeps the ID multiset |
| ConfigStore.IdsReplace | internal/config/config.go:360-399 | same ID in, same ID multiset out |
| ConfigStore.ValidIds | internal/config/config.go:257-277 | the invariant the store keeps: IDs pairwise distinct and below `NextID`; each store method's contract states that it is preserved |
| ConfigStore.GroupChangesKeepIds | internal/config/config.go:243-287 | adding an empty group or removing a group keeps IDs valid |
| ConfigStore.MaxId | internal/config/config.go:81-88 | the largest ID is never negative |
| ConfigStore.MaxIdBounds | internal/config/config.go:81-88 | the largest ID bounds every ID and is attained, or is 0 |
| ConfigStore.AssignCmds | internal/config/config.go:94-102 | numbering keeps the list's length |
| ConfigStore.AssignGroups | internal/config/config.go:94-102 | numbering keeps the number of groups |
| ConfigStore.AssignCmdsAppend | internal/config/config.go:94-102 | numbering a concatenation continues the counter across the parts |
| ConfigStore.AssignGroupsFlat | internal/config/config.go:94-102 | numbering groups numbers their commands in group-major order |
| ConfigStore.AssignGroupsShape | internal/config/config.go:94-102 | numbering keeps every group's name and size |
| ConfigStore.AssignCmdsAt | internal/config/config.go:94-102 | a command keeps a non-zero ID, and the k-th zero ID gets counter plus k |
| ConfigStore.MigrateMeaning | internal/config/config.go:79-104 | after migration no ID is 0, existing IDs are unchanged, new IDs are above the prior maximum and pairwise distinct |
| ConfigStore.MigrateStartAbove | internal/config/config.go:89-92 | the counter migration starts from is positive, above every ID and at least the old counter |
| ConfigStore.MigrateStart | internal/config/config.go:89-92 | reference definition of the counter after the raise: `NextID`, or `maxID + 1` when `NextID` is not above the largest ID; MigrateStartAbove states its bounds |
| ConfigStore.IdsOnceEach | internal/config/config.go:94-102 | IDs that differ position by position occur once each in the ID multiset |
| ConfigStore.MigrateFlatBelow | internal/config/config.go:94-102 | after numbering the list of all commands, no ID is 0 and every ID is below the final counter |
| ConfigStore.MigrateFlatDistinct | internal/config/config.go:79-104 | numbering keeps IDs pairwise distinct when the IDs already given were |
| ConfigStore.MigrateKeepsIdsValid | internal/config/config.go:79-104 | after `migrateIDs` no command has ID 0 and every ID is below the counter; the IDs are also distinct when the non-zero IDs already were |
| ConfigStore.InsertName | internal/config/config.go:179 | insertion keeps the names sorted and adds exactly the one name |
| ConfigStore.SortNames | internal/config/config.go:179 | `sort.Strings` yields a sorted permutation |
| ConfigStore.PruneKeepsNewest | internal/config/config.go:164-187 | with more than 20 backups exactly `len - 20` are deleted, else none; deleted and kept together are all backups, and every deleted name sorts before every kept one |
| ConfigStore.BackupsToDelete | internal/config/config.go:172-181 | reference definition of `toDelete`: nothing up to 20 backups, else the first `len - 20` names in sorted order; PruneKeepsNewest states its meaning |
| ConfigStore.BackupsKept | internal/config/config.go:172-181 | the complement of `toDelete`: all names up to 20, else the last 20 in sorted order; PruneKeepsNewest states its meaning |
| ConfigStore.FindGroup | internal/config/config.go:243-249 | the loop returns `GroupIndex` |
| ConfigStore.FindCommand | internal/config/config.go:291-296 | the loop returns `CommandIndex` |
| ConfigStore.FindId | internal/config/config.go:305-312 | the nested loop returns the group and position holding the ID |
| ConfigStore.MaxIdOf | internal/config/config.go:81-88 | the nested loop returns the largest ID |
| ConfigStore.NumberCommands | internal/config/config.go:94-102 | the inner loop numbers the zero IDs of one group and advances the counter by their count |
| ConfigStore.NumberGroups | internal/config/config.go:94-102 | the outer loop numbers every group's zero IDs |
| ConfigStore.HasName | internal/config/config.go:260-264 | the loop reports whether a command name is taken |
| ConfigStore.NameConflict | internal/config/config.go:366-372 | the loop reports whether another command has the name |
| ConfigStore.Config.constructor | internal/config/config.go:38-41 | a store holds the given groups and counter |
| ConfigStore.Config.Empty | internal/config/config.go:63 | the store of a missing file is empty, with counter 1 and valid IDs |
| ConfigStore.Config.AddGroup | internal/config/config.go:243-251 | an existing name fails with no change; otherwise exactly one empty group is appended at the end; the counter is unchanged and IDs stay valid |
| ConfigStore.Config.AddCommand | internal/config/config.go:253-255 | like AddCommandWithAction, with action `none` |
| ConfigStore.Config.AddCommandWithAction | internal/config/config.go:257-277 | a missing group and a taken name are distinct errors with no change; otherwise only that group gains, at its end, a command with ID the old counter, and the counter goes up by one; IDs stay valid |
| ConfigStore.Config.RemoveGroup | internal/config/config.go:279-287 | removes the first group with the name, keeping the order of the rest, or fails with no change |
| ConfigStore.Config.RemoveCommand | internal/config/config.go:289-302 | removes the first command matching the name or decimal ID from that group only; group-not-found and command-not-found are distinct errors with no change |
| ConfigStore.Config.RemoveCommandByID | internal/config/config.go:305-315 | removes the command with the ID from its group only, or fails with no change |
| ConfigStore.Config.GetGroup | internal/config/config.go:317-324 | the first group with the name, or none |
| ConfigStore.Config.GetCommandByID | internal/config/config.go:327-336 | the command with the ID and its group's name, or none and `""` |
| ConfigStore.Config.GetCommand | internal/config/config.go:339-352 | the first matching command of the group, a group-not-found error, or a command-not-found error |
| ConfigStore.Config.UpdateCommand | internal/config/config.go:355-357 | like UpdateCommandWithAction with an empty action |
| ConfigStore.Config.UpdateCommandWithAction | internal/config/config.go:360-386 | missing group or command fail with no change; a new name used by another command fails; otherwise the command is edited in place, keeping ID and position, with an empty action leaving the action; IDs stay valid |
| ConfigStore.Config.SetCommandAction | internal/config/config.go:389-399 | sets only the action of the command with the ID, or fails with no change; the ID multiset is unchanged |
| ConfigStore.Config.MigrateIds | internal/config/config.go:79-104 | the groups become their numbering from the migration start, and the counter moves past every new ID; afterwards no ID is 0 and every ID is below the counter, and IDs are valid whenever the non-zero IDs loaded were distinct (the source does not repair duplicates) |
| ConfigStore.Config.AllCommands | internal/config/config.go:401-407 | every command in group-major order |
| ConfigStore.Config.FlatCommands | internal/config/config.go:418-433 | the flattening of the groups |
| ConfigStore.ErrorText | internal/config/config.go:246-399 | every store error has a non-empty message |
| ConfigStore.AddGroupError | internal/config/config.go:243-251 | the error `AddGroup` returns: `GroupExists` iff a group has the name; Config.AddGroup's contract agrees with it |
| ConfigStore.AddCommandError | internal/config/config.go:257-277 | the error `AddCommand` returns: group not found first, then a taken name, else none; Config.AddCommandWithAction's contract agrees with it |
| ConfigStore.WithAppended | internal/config/config.go:266-275 | the groups once a command is appended to the named group; AddCommandKeepsIds states that IDs stay valid |
| ConfigStore.RemoveGroupError | internal/config/config.go:279-287 | the error `RemoveGroup` returns: `GroupNotFound` iff no group has the name |
| ConfigStore.RemoveCommandError | internal/config/config.go:289-302 | the error `RemoveCommand` returns: group not found, then no command matching the name or decimal ID, else none |
| ConfigStore.WithoutCommand | internal/config/config.go:289-302 | the groups once the first command matching the key leaves the named group, as `RemoveCommand` does |
| ConfigStore.UpdateCommandError | internal/config/config.go:360-386 | the error `UpdateCommand` returns: group not found, then no matching command, then a clash of a changed name, else none |
| ConfigStore.WithUpdated | internal/config/config.go:360-386 | the groups once `UpdateCommand` edits the first command matching the key in place |
| ConfigStore.Config.UpdateCommandByID | internal/config/config.go:360-399 | the edit the interface makes: the command with the ID is found wherever it is, or `IdNotFound` with no change; it then follows `UpdateCommandWithAction`'s rules: a changed name that clashes fails with no change, otherwise the edit is in place, keeping ID and position; IDs stay valid |
| ConfigStore.UpdateByIdError | internal/config/config.go:360-399 | the error of the ID-keyed edit: ID not found, then a clash of a changed name, else none |
| ConfigStore.WithUpdatedById | internal/config/config.go:360-399 | the groups once the command with the ID is edited in place |
| ConfigStore.RemoveByIdError | internal/config/config.go:305-315 | the error `RemoveCommandByID` returns: `IdNotFound` iff no group holds the ID |
| ConfigStore.WithoutId | internal/config/config.go:305-315 | the groups once `RemoveCommandByID` takes out the command with the ID |
| ConfigStore.GroupIdsInBag | internal/config/config.go:401-407 | a group's IDs occur in the store's ID multiset at least as often |
| ConfigStore.IdsTwice | internal/config/config.go:305-312 | two commands of one list with the same ID put it in the multiset twice |
| ConfigStore.IdIndexOfSingle | internal/config/config.go:305-312 | an ID that occurs once in a list is found at the position where it occurs |
| ConfigStore.IdGroupOfSingle | internal/config/config.go:305-312 | an ID that occurs once in the store is found in the group that holds it |
| ConfigStore.IdFindsChosen | internal/config/config.go:305-312 | with distinct IDs, looking up the ID of the command at any group and position finds exactly that group and position |
| ConfigStore.IdKeyTargetsChosen | internal/tui/handlers.go:571 | keyed by ID and with valid IDs, the delete removes exactly the chosen command, and the edit edits exactly it unless its new name clashes |
| ConfigStore.ShadowedLookup | internal/config/config.go:289-296 | in the two-command example the IDs are valid and the key "5" finds the first command, whose ID is 5 |
| ConfigStore.NameKeyMissesChosen | internal/tui/handlers.go:571 | keyed by name, as written: with valid IDs, deleting the command named "5" removes the command with ID 5; renaming it edits that other command instead; and keeping its name is refused as a clash with itself |
| Views.AvailableLines | internal/tui/views.go:261-265 | `max(height - reserved, 5)` rows: at least 5 and at least the space left |
| Views.ScrollWindow | internal/tui/views.go:267-279 | shows `min(available, total)` rows from a non-negative offset, ending at most at the list's end |
| Views.HistoryWindow | internal/tui/views.go:355-378 | the history view's window, with 8 reserved lines: at least `min(5, total)` rows are shown, and a cursor on the list is on a shown row of a full window |
| Views.AllCommandsWindow | internal/tui/views.go:260-279 | the same for the all-bookmarks view, with 6 reserved lines |
| Views.CursorVisible | internal/tui/views.go:364-378 | a cursor on the list is inside the window, which is full |
| Views.ScrollIndicator | internal/tui/views.go:414-425 | appears iff rows are hidden above or below, and counts them |
| Views.IndicatorIffOverflow | internal/tui/views.go:355-425 | hidden above, shown and hidden below add up to the list, and the indicator appears iff the list is longer than the rows that fit |
| Views.MaxCmdWidth | internal/tui/views.go:393-401 | the room for the command and the timestamp prefix together take up the width less the margin of 10 |
| Views.TruncateCommand | internal/tui/views.go:401-404 | a command longer than a room above 10 becomes its first `room - 3` bytes plus `...`, exactly `room` long; otherwise unchanged |
| Views.PreviewCommand | internal/tui/views.go:463-464 | a preview longer than `width - 4` on a screen wider than 20 becomes `width - 7` bytes plus `...` |
| Views.TruncateFits | internal/tui/views.go:401-404 | a shown command never exceeds a room above 10 and begins like the full command |
| Views.HistoryRowFits | internal/tui/views.go:393-410 | on a history row whose command has more than 10 bytes of room, the timestamp prefix plus the shown command fit in the width less 10, as drawn, and a cut command begins like the full one; a command that fits, or a row with no more room, is shown whole |
| Tui.ClampCursor | internal/tui/model.go:926-928 | a cursor past the end moves to `max(0, len - 1)`, else stays |
| Tui.ClampKeepsCursorOnList | internal/tui/model.go:174-176 | clamping keeps a non-negative cursor on a non-empty list |
| Tui.NextFocus | internal/tui/handlers.go:367-371 | tab moves focus forward, wrapping to 0, inside `[0, n)` |
| Tui.PrevFocus | internal/tui/handlers.go:372-376 | shift+tab moves focus back, wrapping to `n - 1`, inside `[0, n)` |
| Tui.FocusRoundTrip | internal/tui/handlers.go:367-376 | shift+tab undoes tab and tab undoes shift+tab |
| Tui.PageDownAsWritten | internal/tui/handlers.go:250-253 | pgdown as written: `min(cursor + page, len - 1)`; PageDownAsWrittenEscapes shows where it fails |
| Tui.PageDown | internal/tui/handlers.go:250-253 | the corrected pgdown, held at 0 and above; PageKeysStayInRange states its range |
| Tui.PageUp | internal/tui/handlers.go:254-256 | pgup: `max(cursor - page, 0)`; PageKeysStayInRange states its range |
| Tui.PageDownAsWrittenEscapes | internal/tui/handlers.go:250-259 | as written: a query with no matches empties the history list with the cursor at 0; pgdown sets the cursor to -1; clearing the query refills the list and leaves -1; the enter guard admits it, although -1 is no index |
| Tui.PageKeysStayInRange | internal/tui/handlers.go:250-256 | the page keys keep the cursor on the list, move it by at most a page in the right direction, and agree with the code on non-empty lists |
| Tui.HistoryCursor | internal/tui/handlers.go:239-256 | reference definition of where each movement key puts the cursor: one row down or up within the list, or a page; HistoryCursorStaysOnList states its range |
| Tui.HistoryCursorStaysOnList | internal/tui/handlers.go:239-256 | every history move keeps the cursor on the list and moves it by at most a page |
| Tui.Pick | internal/tui/model.go:169-172 | one element per index, each from the list |
| Tui.Filtered | internal/tui/model.go:908-929 | reference definition of `updateFilter` on the whole state; FilteredMeaning states its meaning |
| Tui.HistoryFiltered | internal/tui/model.go:156-177 | reference definition of `updateHistoryFilter` on the whole state; HistoryFilteredMeaning states its meaning |
| Tui.FilteredMeaning | internal/tui/model.go:908-929 | no query shows every bookmark; otherwise exactly the matcher's picks of the search keys, in its order, with the cursor clamped; nothing else changes |
| Tui.HistoryFilteredMeaning | internal/tui/model.go:156-177 | the same for the history entries and query |
| Tui.BuildSearchItems | internal/tui/model.go:915-918 | one search key per bookmark: group, name, command and description joined by spaces |
| Tui.BuildEntryCommands | internal/tui/model.go:163-166 | one search item per history entry: its command |
| Tui.PickEach | internal/tui/model.go:169-172 | the loop picks the indexed elements |
| Tui.PrefillValues | internal/tui/model.go:129-138 | one value per field, prefilled where a value is given |
| Tui.Refreshed | internal/tui/model.go:114-121 | reference definition of `refreshData` on the whole state; RefreshedMeaning states its meaning |
| Tui.RefreshedMeaning | internal/tui/model.go:114-121 | a refresh shows the store's groups and their flattening, both in full and as the filter; the selected group's commands are shown only while the selection is a group; nothing else changes |
| Tui.Executed | internal/tui/handlers.go:734-756 | reference definition of `executeAction` on the whole state; ExecutedMeaning states its meaning |
| Tui.ExecutedMeaning | internal/tui/handlers.go:734-756 | the interface quits with the chosen command iff there is one and it runs or copies without error; a copy failure only records the error; the screen never changes |
| Tui.Offer | internal/tui/handlers.go:649-691 | reference definition of the default-action dispatch on the whole state; OfferMeaning states its meaning |
| Tui.OfferMeaning | internal/tui/handlers.go:649-691 | copy or run as default skips the action screen; any other default opens it on row 0 with the result and error cleared and the caller remembered |
| Tui.MenuOrderMatches | internal/tui/views.go:779-786 | the menu rows run, copy, cancel are the rows enter dispatches at indices 0, 1, 2 |
| Tui.Model.MaxCursor | internal/tui/model.go:931-945 | `max(0, len - 1)` of the shown list for the list screens and history, `len(groups)` on the group picker, else 0 |
| Tui.Model.Valid | internal/tui/model.go:38-82 | the invariant every handler keeps over the model's fields: the action cursor on one of its 3 rows, a previous screen a handler can return to, a form showing its own number of fields with the focus on one of them, an edited command while editing, and a cursor that is not negative on the history screen |
| Tui.Model.New | internal/tui/model.go:84-106 | starts on the groups with the store's groups and the whole flat list shown |
| Tui.Model.NewWithLastCommand | internal/tui/model_test.go:45-92 | starts on the group picker for the given command with the cursor on row 0, as the tests check; the other fields (previous screen Groups, selected group 0, empty history lists) are taken from New, since the tests do not check them |
| Tui.Model.RefreshData | internal/tui/model.go:114-121 | the state becomes the refresh of the store's groups |
| Tui.Model.SaveAndRefresh | internal/tui/handlers.go:350-358 | a failed save only sets the form error; a successful one refreshes |
| Tui.Model.CreateFormInputs | internal/tui/model.go:123-144 | one value per field, prefilled where given, focus 0, error cleared, nothing else changed |
| Tui.Model.UpdateFilter | internal/tui/model.go:908-929 | the state becomes the filtered state |
| Tui.Model.UpdateHistoryFilter | internal/tui/model.go:156-177 | the state becomes the history-filtered state |
| Tui.Model.Quit | internal/tui/handlers.go:34-36 | only the quit flag changes |
| Tui.Model.TypeSearch | internal/tui/handlers.go:215-220 | the query becomes what was typed, and the results are refiltered |
| Tui.Model.Escape | internal/tui/handlers.go:48-59 | from the search back to the groups with the query cleared; from a group's commands back to the groups with the cursor on that group; else nothing |
| Tui.Model.StartSearch | internal/tui/handlers.go:61-68 | opens the search with the cursor at 0 and refilters |
| Tui.Model.OpenHistory | internal/tui/handlers.go:70-82 | opens the history browser remembering the screen, with the entries read or the read error |
| Tui.Model.StartAdd | internal/tui/handlers.go:99-117 | opens the one-field group form or the three-field command form, remembering the screen |
| Tui.Model.StartEdit | internal/tui/handlers.go:119-141 | opens the edit form prefilled from the group or command under the cursor |
| Tui.Model.StartDelete | internal/tui/handlers.go:143-158 | opens the confirmation for the group, or the command of the selected group, under the cursor, remembering that command's name and ID |
| Tui.Model.CursorUp | internal/tui/handlers.go:160-170 | decrements only a positive cursor and keeps it in range |
| Tui.Model.CursorDown | internal/tui/handlers.go:172-183 | increments only below `maxCursor` and keeps it in range |
| Tui.Model.SearchNext | internal/tui/handlers.go:185-192 | moves down the results while not on the last |
| Tui.Model.OpenGroup | internal/tui/handlers.go:642-648 | on a group, shows its commands with cursor 0 and remembers the group; else nothing |
| Tui.Model.ExecuteAction | internal/tui/handlers.go:734-756 | the state becomes the executed state |
| Tui.Model.OfferCommand | internal/tui/handlers.go:656-688 | the state becomes the result of offering the bookmark |
| Tui.Model.HandleSelect | internal/tui/handlers.go:640-694 | enter opens the group, or offers the command under the cursor in a group or the search; elsewhere nothing |
| Tui.Model.ListKey | internal/tui/handlers.go:12-221 | ctrl+c and q (outside the search) quit; in the search other keys are typed into the query |
| Tui.Model.FocusNextField | internal/tui/handlers.go:367-371 | focus moves to the next field, cyclically |
| Tui.Model.FocusPrevField | internal/tui/handlers.go:372-376 | focus moves to the previous field, cyclically |
| Tui.Model.FocusForward | internal/tui/handlers.go:331-336 | enter on a non-final field focuses the next field |
| Tui.Model.TypeIntoField | internal/tui/handlers.go:379-381 | only the focused field's value changes |
| Tui.Model.HistoryMove | internal/tui/handlers.go:239-256 | the cursor moves as the corrected history move, staying on the list |
| Tui.Model.TypeHistory | internal/tui/handlers.go:269-272 | the query becomes what was typed, and the history is refiltered |
| Tui.Model.HistoryKey | internal/tui/handlers.go:225-273 | ctrl+c quits; esc returns with the query cleared; moves stay on the list; enter on an entry picks it for the group picker; anything else is typed into the query |
| Tui.Model.ChooseHistoryGroup | internal/tui/handlers.go:297-315 | the extra last row opens the group form from the picker; another row opens the details form for that group |
| Tui.Model.HistorySelectGroupKey | internal/tui/handlers.go:275-318 | esc goes back to the browser; up and down stay within `[0, len(groups)]`; enter chooses; other keys do nothing |
| Tui.Model.SubmitHistoryDetails | internal/tui/handlers.go:338-366 | an empty name or no group is a form error with no store change; a store error likewise; otherwise the command is appended with the next ID, and only a successful save shows that group's commands with the cursor on the new one |
| Tui.Model.HistoryCommandAdded | internal/tui/handlers.go:350-364 | a failed save leaves the screen with the error; a successful one shows the group's commands on the new last row |
| Tui.Model.HistoryAddDetailsKey | internal/tui/handlers.go:320-382 | esc returns to the picker on the chosen group; focus cycles over the two fields; only enter on the last field can change the store |
| Tui.Model.DetailsFieldKey | internal/tui/handlers.go:367-381 | tab and shift+tab cycle the focus; other keys type into the focused field |
| Tui.Model.SubmitAddGroup | internal/tui/handlers.go:393-422 | an empty or taken name is a form error with no store change; otherwise the group is appended; a failed save stays with the error; a good save continues to the details form from the picker, or to the groups on the new last group |
| Tui.Model.GroupAdded | internal/tui/handlers.go:407-422 | after a save, on to the details form with the new group selected when coming from the picker, else to the groups on the last group |
| Tui.Model.OnToHistoryDetails | internal/tui/handlers.go:410-418 | the two-field details form with the last group selected |
| Tui.Model.AddGroupKey | internal/tui/handlers.go:384-430 | esc returns clearing the error; tab does nothing; only enter can change the store; IDs stay valid |
| Tui.Model.SubmitEditGroup | internal/tui/handlers.go:442-459 | an empty name or a failed rename is a form error with no store change; a failed save keeps the renamed groups with the error; a good save returns to the groups |
| Tui.Model.EditGroupKey | internal/tui/handlers.go:432-467 | esc returns clearing the error; only enter can change the store |
| Tui.Model.SubmitAddCommand | internal/tui/handlers.go:478-515 | name, command text and group are checked in that order with their own messages and no store change; otherwise the command is appended with the next ID; a good save shows the group's commands on the new one |
| Tui.Model.CommandAdded | internal/tui/handlers.go:504-514 | a failed save keeps the error; a good save shows the commands on the new last row |
| Tui.Model.SubmitEditCommand | internal/tui/handlers.go:543-582 | same checks in the same order; the update finds the edited command by its ID, keeping ID and position (corrected, see Findings); a good save returns to the commands |
| Tui.Model.CommandUpdated | internal/tui/handlers.go:570-581 | a failed save keeps the error; a good save returns to the commands |
| Tui.Model.CommandFormKey | internal/tui/handlers.go:469-598 | esc returns; focus cycles over three fields; only enter on the last field can change the store; IDs stay valid |
| Tui.Model.ConfirmDelete | internal/tui/handlers.go:608-635 | a store error is a form error with no change; otherwise the target is removed; a good save returns to the groups or commands with the cursor clamped to the shorter list |
| Tui.Model.ConfirmGroupDelete | internal/tui/handlers.go:608-635 | the same for a group target |
| Tui.Model.ConfirmCommandDelete | internal/tui/handlers.go:608-635 | the same for a command target, removed by its ID (corrected, see Findings) |
| Tui.Model.Deleted | internal/tui/handlers.go:618-634 | after a save, back to the groups or commands with the cursor clamped to `max(0, len - 1)` |
| Tui.Model.DeleteConfirmKey | internal/tui/handlers.go:600-638 | n, N and esc return with no store change; only y, Y and enter can change the store |
| Tui.Model.CancelAction | internal/tui/handlers.go:701-704 | returns to the remembered screen and forgets the command |
| Tui.Model.ActionSelectKey | internal/tui/handlers.go:696-732 | the menu cursor stays in [0, 2]; r, c and enter dispatch run, copy or cancel by row; esc cancels |
| Tui.Model.HandleKey | internal/tui/handlers.go:10-31 | ctrl+c quits from every screen; only a submitting key can change the store; outside group renaming IDs stay valid |

## Left out

- File and process I/O: reading the history file, `os.Getenv` and `os.Stat`, YAML marshalling, `Save`/`SaveTo`/`LoadFrom`, `createBackup`, `ListBackups`, `RestoreBackup`, and the glob and remove calls of `pruneBackups`. The file's lines, an `exists` predicate and the outcome of `Save` are parameters; only the rule that chooses which backups to delete is modelled.
- `filepath.Join` is string concatenation with `/`; its path cleaning is not modelled.
- `time.Now` and `time.Time`: the cutoff is an integer epoch in seconds, and a timestamp is an optional epoch.
- Map iteration order in frequency analysis: the ranking is stated, and it does not depend on that order.
- Strings are sequences of Unicode code points: Go's bytes are recovered only through `Utf8Len`. Truncation in the views is stated on byte sequences.
- `Quoted`: Go's `%q` escaping of quotes and control characters inside names is not modelled.
- `sahilm/fuzzy.Find` is an abstract matcher returning valid indices.
- The bubbletea, textinput and lipgloss layer: `tea.Cmd` effects, Blink, Focus/Blur, the placeholder and character limit of inputs, widths and resize handling, and all rendering. A key is a string, and a text input is the string it holds after handling the key.
- The `o` key (open the configuration in an editor) runs another process. It leaves the model unchanged.
- `internal/runner/runner.go`: running and copying are modelled only as the clipboard's success or failure inside `executeAction`.
- `cmd/bkmk/main.go` (argument dispatch, printing, exit codes).
- `NewWithHistory` and `Init` are not modelled, so the model's `startInHistory` is always false. Only the `h` key's read of the history is modelled: `OpenHistory` is given `Env.loaded`, the result of `loadHistory`.
- The all-bookmarks screen: no key handler in handlers.go switches to `viewAllCommands`, so only its window arithmetic is modelled.
- `historyPageSize` is not part of this model: the page size is a positive parameter.
- `selectedGroupValid` is not part of this model: it is taken as `0 <= selectedGroup < len(groups)`, the check `refreshData` makes.
- `RenameGroup` is not part of this model: its outcome (the renamed groups or an error) is a parameter. For this reason HandleKey does not promise valid IDs after a rename.
- `NewWithLastCommand`'s body is not part of this model: its contract follows the behaviour its tests describe.
- `internal/tui/model.go` also contains older versions of the key handlers and views. Among them is an edit that removes and re-adds a command, which changes its ID. The handlers and views files supersede them, and they are not modelled.
- The edit and delete of a command on screen are modelled with the corrected, ID-keyed lookup (see Findings). The name-keyed `UpdateCommand` and `RemoveCommand` stay modelled as the store's API, by `WithUpdated`, `WithoutCommand` and their error functions.
- Guards on indices: where Go would index out of range, the model checks before indexing and leaves the state as it was. This affects entering a group, choosing a command, and editing or deleting under the cursor.
- `GetGroup` returns a copy of the group, not a pointer into the store. Writes through that pointer are not modelled.
- The interface's groups slice aliases the store's. After a failed save the screen is not refreshed; the model keeps its own copy until the next refresh.
- Tui.Model.ListKey: its contract states only the quit and search-typing cases. The other keys are stated by the methods it calls (`Escape`, `StartSearch`, `OpenHistory`, `StartAdd`, `StartEdit`, `StartDelete`, `CursorUp`, `CursorDown`, `SearchNext`, `HandleSelect`, `OpenGroup`).
- Tui.Model.HandleKey: its contract states only what holds on every screen. Each screen's transitions are stated by the key handlers it dispatches to.
- Tui.Model.HistoryKey: the range property of its moves is stated through `HistoryCursor` and `HistoryCursorStaysOnList`, not in the method's own contract.
- Tui.Model.HistorySelectGroupKey: its cursor range is stated through `CursorUp` and `CursorDown`.
- The exact values in the tests are generalised into the properties above; no individual test case is modelled.

## Findings

| source | as written | input that shows it | evidently intended | confidence | as-written member | corrected member |
|---|---|---|---|---|---|---|
| internal/tui/handlers.go:250-259 | pgdown sets the cursor to `min(cursor + page, len - 1)`, which is -1 on an empty list; the enter guard `len > 0 && cursor < len` later admits -1 and indexes `filteredHistory[-1]` | a non-empty history; type a query with no matches; press pgdown; erase the query; press enter | the cursor never goes below 0, as `max(0, len - 1)` elsewhere | not executed | Tui.PageDownAsWrittenEscapes | Tui.PageKeysStayInRange |
| internal/tui/handlers.go:571 | the edit flow here, and the delete flow at handlers.go:613, pass the command's name to `UpdateCommand` and `RemoveCommand`, which take the first command whose name or decimal ID equals the key (internal/config/config.go:293, 364) | a group holding `{ID 5, "a"}` before `{ID 7, "5"}`; edit or delete the command "5" | the command chosen on screen is the one edited or deleted | not executed | ConfigStore.NameKeyMissesChosen | ConfigStore.IdKeyTargetsChosen |
