# telegram-parser-bot: the decision layer in Dafny

The bot takes `/parse` commands in a Telegram chat. It splits the named groups,
offers settings buttons (contact limit, bot exclusion) and a run button, and on
a run collects the members of each group or channel discussion group. It
filters and projects those members into contact records, appends the records and
a statistics row to a Google spreadsheet, and reports the counts. This project
models the decisions in `bot.py`. The Telegram API and the spreadsheet stay
opaque: the Telegram client is an oracle value of lookup maps (`Telegram.Client`),
and a spreadsheet write is the request the bot would send (`Sheets.SheetWrite`).

Modules:

- `Wrappers`: `Option`.
- `Text`: the Python string operations the bot uses. These are `split()`,
  `split(sep)`, `split(sep, 1)`, `join`, `strip`, `replace` and `startswith`.
- `Criteria`: the per-user criteria record and its defaults. It holds the
  `user_data` store as the class `CriteriaStore`, plus `get_user_criteria`,
  `update_user_criteria` and the `adjust_max` and `toggle_bots` steps.
- `Telegram`: members, channels and their discussion groups, and the member
  filter and projection of `parse_group`.
- `Sheets`: the rows `write_contacts` and `write_stats` build.
- `Commands`: the group-list parsing of `parse_command` and its ceiling of ten,
  the `start:` button data and its decoding in `button_callback`.
- `Run`: the group loop of `start_parsing`, its statistics and writes, and the
  dispatch of `button_callback`.

## Model

| member | source | states |
|---|---|---|
| Criteria.Apply | bot.py:57 | Setting one key of a criteria record reads back the new value; every other key keeps its value |
| Criteria.Touch | bot.py:49-52 | Looking up a user adds the defaults (100, "any", bots kept) only for a new user; every existing user's record is unchanged |
| Criteria.Update | bot.py:54-57 | Updating one key of one user: the user exists afterwards, that key holds the value, the user's other keys are as before (defaults for a new user), other users are untouched |
| Criteria.NextMax | bot.py:267 | A press either wraps the limit to 50 or adds 50, and a limit on the cycle 50, 100, 150, 200 stays on it |
| Criteria.NextMaxOnCycle | bot.py:267 | On the cycle 50, 100, 150, 200 the adjust step stays on the cycle, adds 50 and wraps 200 back to 50 |
| Criteria.AdjustFromDefault | bot.py:265-268 | From the default limit 100, n presses give 50 * (1 + (n + 1) mod 4), so the limit is always one of 50, 100, 150, 200 |
| Criteria.AdjustPeriod | bot.py:267 | Four presses from any value on the cycle return that value |
| Criteria.ToggleTwice | bot.py:272 | Toggling bot exclusion twice restores the record |
| Criteria.CriteriaStore.constructor | bot.py:47 | The store starts empty, with every stored limit on the cycle |
| Criteria.CriteriaStore.GetUserCriteria | bot.py:49-52 | Returns the user's record, creating the defaults only for a new user; keeps every stored limit on the cycle |
| Criteria.CriteriaStore.UpdateUserCriteria | bot.py:54-57 | The store afterwards is `Update` of the old store |
| Criteria.CriteriaStore.AdjustMax | bot.py:265-268 | The user's limit becomes the next value of the cycle (>= 200 wraps to 50, otherwise +50); nothing else changes; limits stay on the cycle |
| Criteria.CriteriaStore.ToggleBots | bot.py:270-272 | The user's bot exclusion flips; nothing else changes; limits stay on the cycle |
| Telegram.Take | bot.py:176 | At most n items, a prefix of the input, none for n <= 0, exactly min(n, length) otherwise |
| Telegram.Resolve | bot.py:154-171 | An unknown link resolves to nothing; a chat that is not a broadcast channel is read as it is; a channel can only resolve to a chat looked up by id (`ChannelRedirected` states which one) |
| Telegram.Participants | bot.py:175-176 | The members fetched are a prefix of the resolved chat's members, at most twice the limit; none without a chat or when the request fails |
| Telegram.Keep | bot.py:182-187 | A retained member is not deleted, is no bot when bots are excluded, and has a username when the priority demands one; conversely every live member passes unless bots are excluded and it is one, or the priority is "username" and it has none |
| Telegram.Project | bot.py:189-196 | A record keeps the member's id and the group link; its username is "" exactly when the member has none and otherwise "@" followed by it; likewise the phone behind "+"; the first and last names are the member's, "" exactly when absent |
| Telegram.GroupContacts | bot.py:150-206 | parse_group returns at most max_contacts records, and none when no chat resolves |
| Telegram.Kept | bot.py:179-197 | The retained records are never more than the members |
| Telegram.ProjectWellFormed | bot.py:186-196 | A retained member's record carries the group label, an "@" username or "", a "+" phone or "", and a username whenever priority is "username" |
| Telegram.GroupContactsSpec | bot.py:150-206 | parse_group returns at most max_contacts records (or none), each well-formed, chosen in member order from the fetched members (at most 2 * max_contacts) that pass the filters, and none when no chat resolves or the member request fails |
| Telegram.GroupContactsFromAllMembers | bot.py:176-197 | The records are also an order-preserving filtered selection of all the chat's members |
| Telegram.ChannelWithoutDiscussion | bot.py:156-171 | A broadcast channel without a linked discussion group, whose full-channel request fails, or whose linked chat cannot be looked up, gives no records |
| Telegram.ChannelRedirected | bot.py:156-165 | A broadcast channel with a non-zero linked chat id that resolves is replaced by that chat: its members are fetched (at most twice the limit), and the records carry the channel's link |
| Telegram.GroupUsedUnchanged | bot.py:156-173 | A chat that is not a broadcast channel is read as it is |
| Telegram.Collect | bot.py:179-197 | The member loop returns the first max_contacts records of the members that pass the filters, in order |
| Telegram.ParseGroup | bot.py:150-206 | parse_group's early returns and member loop compute exactly `GroupContacts`, whose properties `GroupContactsSpec` states |
| Sheets.ContactRow | bot.py:86-98 | A contacts row has ten cells: the contact's six fields (the contact reads back from them), then 0, "", "" and the timestamp |
| Sheets.StatsRow | bot.py:110-118 | A statistics row has seven cells: the timestamp, then the six counters (the record reads back from them) |
| Sheets.WriteContacts | bot.py:80-100 | Nothing is written for no contacts; otherwise one append_rows on the contacts sheet with one row per contact, in order |
| Text.Words | bot.py:232 | `split()` gives non-empty pieces without whitespace |
| Text.WordsOfJoin | bot.py:231-232 | `split()` of the space-join of non-empty pieces without whitespace gives exactly those pieces, so the split happens at the whitespace and nowhere else |
| Text.WordsKeepText | bot.py:232 | `split()` drops exactly the whitespace: the pieces concatenated are the text without whitespace |
| Text.WordsOmit | bot.py:232 | A character absent from the text is absent from every piece |
| Text.SplitOn | bot.py:263 | `split(sep)` gives at least one piece, none containing the separator |
| Text.SplitJoin | bot.py:250-263 | Splitting a join (`JoinWith`, Python's `sep.join`) of one or more separator-free pieces gives the pieces back |
| Text.JoinSplit | bot.py:250-263 | Joining (`JoinWith`) the pieces of a split gives the text back |
| Text.Strip | bot.py:232 | `strip()` is a slice of the text with only whitespace before and after it (`TrimOf`); it neither starts nor ends with whitespace; text without whitespace is unchanged |
| Text.StripPadded | bot.py:263 | Whitespace around text that starts and ends visibly is exactly what `strip()` removes (`" @b"` strips to `"@b"`) |
| Text.AfterFirst | bot.py:262 | `split(c, 1)[1]` exists iff c occurs in the text; it is the proper suffix behind the first c (the character before it is c and no c comes earlier) |
| Text.AfterFirstOfPrefix | bot.py:261-262 | Behind a prefix whose only c is its last character, `split(c, 1)[1]` is the rest |
| Text.Replace | bot.py:232 | `replace(from, to)` keeps the length and turns every `from` into `to`, leaving every other character as it is |
| Commands.StripNonEmpty | bot.py:232 | The comprehension keeps no more names than pieces, each non-empty and without whitespace at either end |
| Commands.StripNonEmptyOfWords | bot.py:232 | The comprehension's strip-and-filter changes nothing on the pieces of `split()` |
| Commands.GroupsText | bot.py:231-232 | The text the names are split from is the space-joined arguments with every comma turned into a blank, so it holds no comma |
| Commands.CommandGroups | bot.py:231-232 | The group names of a command are non-empty and contain no whitespace and no comma |
| Commands.CommandGroupsOfNames | bot.py:231-232 | Arguments that already are group names (`/parse @a @b`) are read back one for one |
| Commands.CommandGroupsOfCommaList | bot.py:231-232 | One argument of comma-separated names (`/parse @a,@b`) is read back as those names |
| Commands.CommandGroupsKeepText | bot.py:231-232 | Splitting drops only commas and whitespace: the names concatenated are the rest of the arguments' text |
| Commands.ClassifyAsWritten | bot.py:227-236 | As written: "missing group" iff there are no arguments; "too many" iff there are arguments and more than 10 names; otherwise the command's names are confirmed, at most 10 and possibly none |
| Commands.Classify | bot.py:227-236 | A confirmed list holds 1 to 10 well-formed names, exactly the command's names; "too many" iff there are arguments and more than 10 names |
| Commands.ClassifyAgreement | bot.py:227-236 | The checks as written and corrected agree, except on arguments that name no group: those are confirmed with no names as written and refused when corrected |
| Commands.StartData | bot.py:250 | The run button's data starts with `start:`, and what follows its first colon is the comma-joined list |
| Commands.StripAll | bot.py:263 | One name per piece, each the piece with only the whitespace at its ends cut (`TrimOf`), starting and ending visibly; pieces without whitespace are kept as they are |
| Commands.DecodeCallback | bot.py:259-273 | Data is a run iff it starts with `start:` (`StartsWith`, Python's `startswith`), and a run always names at least one group; "adjust_max" and "toggle_bots" are the settings buttons; anything else is ignored |
| Commands.StartDataRoundTrip | bot.py:250-263 | The button data of one or more comma- and whitespace-free names decodes to exactly those names |
| Commands.CommandRoundTrip | bot.py:227-264 | Every group list the corrected check (`Classify`) confirms reaches start_parsing unchanged through the run button |
| Commands.CommandRoundTripAsWritten | bot.py:227-264 | As written, every confirmed group list that names at least one group reaches start_parsing unchanged through the run button |
| Commands.CommaOnlyNamesNoGroup | bot.py:231-232 | `/parse ,` names no group |
| Commands.EmptyStartDataDecodes | bot.py:250-263 | The button data of an empty list decodes to the single group "" |
| Commands.EmptyGroupListNotRoundTripped | bot.py:227-264 | As written, `/parse ,` is confirmed with no groups and its button runs the group ""; with the empty list rejected it gets the missing-group reply |
| Commands.ParseCommand | bot.py:224-253 | As written: no arguments, ask for a group; more than 10 names, refuse; in both cases the store is untouched. Otherwise, even when the arguments name no group, the user's criteria are looked up (defaults for a new user) and the reply carries them, the names and the `start:` data |
| Commands.ParseCommandRejectingEmpty | bot.py:224-253 | Corrected: arguments naming no group get the missing-group reply too, and the store is touched only when a list of 1 to 10 names is offered |
| Run.Gathered | bot.py:313-323 | A run's records are the groups' records in order (`GatheredAppend`, `GatheredLabels`, `GatheredBound` state their properties); a limit of zero or less gathers nothing |
| Run.GatheredAppend | bot.py:313-323 | Processing one more group appends exactly that group's records |
| Run.GatheredLabels | bot.py:313-323 | Every record of a run is labelled with one of the requested groups and well-formed |
| Run.GatheredBound | bot.py:313-323 | A run holds at most groups * max_contacts records |
| Run.GatheredOnCycleBound | bot.py:313-323 | With a limit on the 50..200 cycle, a run holds at most 200 records per group |
| Run.GatheredSpec | bot.py:313-323 | Every record of a run is labelled with one of the requested groups and well-formed; the run holds at most groups * max_contacts records, and none for a negative limit |
| Run.CountUsernames | bot.py:335 | The username count never exceeds the number of records |
| Run.CountPhones | bot.py:336 | The phone count never exceeds the number of records |
| Run.CountsAppend | bot.py:335-336 | Both counts of a run are the sums of the counts of its groups |
| Run.CountUsernamesAll | bot.py:335 | When every record has a username, the username count is the total |
| Run.CountUsernamesNone | bot.py:335 | When no record has a username, the username count is zero |
| Run.CountPhonesAll | bot.py:336 | When every record has a phone, the phone count is the total |
| Run.CountPhonesNone | bot.py:336 | When no record has a phone, the phone count is zero |
| Run.UsernamePriorityCountsAll | bot.py:335 | Under the "username" priority every record of a run counts as having a username |
| Run.RunStats | bot.py:332-339 | The statistics record counts the groups and records; its username and phone counts are those of the records, so between 0 and the total; errors is 0 |
| Run.CollectAll | bot.py:313-323 | The group loop gathers every group's records in order; the total is the sum of the per-group counts |
| Run.StartParsing | bot.py:297-352 | On a failed connection nothing is read or written; otherwise the criteria are read once, and the writes are `RunWrites`: none without records, otherwise the contacts append (one row per record, in order) then the statistics row. The report gives the group count, record count, username count and phone count. When every stored limit was on the 50..200 cycle, the run holds at most 200 records per group |
| Run.ButtonCallback | bot.py:255-273 | The run button runs the decoded groups, with the same report and spreadsheet writes (`RunWrites`) as `start_parsing`; adjust and toggle change one setting and show the criteria; other data changes nothing; no press moves a stored limit off the 50..200 cycle |

## Left out

- Network and process I/O. Connecting to Telegram and Google Sheets, and the Telegram messages the bot edits or sends (progress and result texts, `start`, `update_criteria_msg`'s redrawn message), are not modelled. The connection outcome is the parameter `connected`, and the report's counts stand for the result text.
- Exceptions. Any failed Telegram request inside `parse_group` becomes an empty result, which is what the source returns. Exceptions in the spreadsheet writes are caught by the source and lost, so the model returns the write requests and does not model whether they succeed. A failed message edit, which ends `start_parsing` through its outer handler, is not modelled.
- Clocks and randomness. The source reads the clock once per contact row. The model uses one timestamp `now` per run, shared by the contact rows and the statistics row, and the run duration is the parameter `duration`. The random delay between groups and the 0.1 s pause per contact are left out; the source also pauses after the last group.
- `GoogleSheetsManager.log` writes to the log sheet. It is never called, so it is not modelled.
- `update_user_criteria` with arbitrary keys: the model takes only the three keys the bot uses, each with its own value type (`Criteria.Setting`).
- Telegram's 64-byte limit on button data is not modelled. A long group list gives a button Telegram rejects.
- `update_criteria_msg` rebuilds the run button from the message text, so the data after a settings change is `start:` followed by the ", "-joined names. `button_callback` decodes that to the same names, since it strips each piece. The model does not carry that text and decodes the original data only.
- The concurrency of the asyncio handlers is not modelled. Each handler is treated as one atomic step on the store.
- decode_session.py is not part of this model.

## Findings

| source | as written | input that shows it | evidently intended | confidence | as-written member | corrected member |
|---|---|---|---|---|---|---|
| bot.py:227-263 | Only missing arguments are rejected. An argument list made only of commas and whitespace yields no groups, is accepted, and its run button data `start:` decodes to the single group `""`, which a run then tries to parse | `/parse ,` | An empty group list is refused like missing arguments, so every confirmed list has 1 to 10 names and survives the button round trip | medium, not executed | Commands.ClassifyAsWritten, Commands.ParseCommand, Commands.EmptyGroupListNotRoundTripped | Commands.Classify, Commands.ParseCommandRejectingEmpty, Commands.CommandRoundTrip |
