# Timerbot timer board, in Dafny

A model of the core of a Discord bot that keeps a "timer board" for EVE Online structure
timers. Users `!add` a timer and `!rm` it by id. The bot keeps the timers sorted by time and
shows them in a board channel. Each check cycle it sends a notification N minutes before a
timer and a "starting now" alert around its start, then sweeps expired timers. Two versions of
the bot are modelled side by side, and their boards are kept separate:

- **The current package** (`bot/models/timer.py`, `bot/cogs/timer_commands.py`,
  `bot/main.py`, `bot/utils/helpers.py`, `bot/utils/eve_data.py`). Modules `Timers`,
  `TimerCommands`, `MainLoop`, `Alerts`, `Helpers` and `EveData`. `add_timer` always inserts
  and only warns about similar timers. The board is one message per channel: the first
  bot-authored message in the channel history is edited, or a new one is sent.
- **The legacy single-file bot** (`bot.py`). Module `LegacyBot`. `add_timer` refuses a
  timer similar to one already on the board. System and structure come from a different
  pattern, which keeps Ansiblex `»`/`«` names. The board is paginated into messages of at
  most 1900 characters and synchronised with edit/send/delete calls.

Shared building blocks:

- `Strings`: ASCII whitespace and case mapping, `split`, `strip`, `join`.
- `DateTimes`: the calendar checks of `datetime`, the `'%Y-%m-%d %H:%M:%S'` formatting, and a
  matcher for `strptime` with that format.
- `Seqs`: stable sort by key, partition, first match, and filter-map.
- `Patterns`: pieces of the regular expressions, such as Python's `$`.
- `Discord`: messages and board operations.

Representation choices:

- **Timers.** A timer is a value (`Timers.Timer`, `LegacyBot.LegacyTimer`). A board is a
  class whose `timers: seq<...>`, `nextId` and `saves` fields its methods update. `saves`
  counts the calls to `save_data`.
- **Time.** A time is a validated `DateTime` compared through its epoch seconds. The source's
  float comparisons of `total_seconds() / 60` are restated as exact bounds in seconds.
- **Regular expressions.** Each one is a hand-written matcher that tries alternatives in the
  order Python's backtracking engine does, so greedy and lazy quantifiers give the same
  groups. Its contract states what the match means. Python's `$` matches at the end of the
  text and also just before a final newline (`Patterns.DollarAt`).
- **Discord.**
  - A channel is its history, newest first, as `Discord.Message(fromBot, content)`.
  - The current bot's update of one channel is one `BoardOp`: `Edit(index, text)`,
    `Send(text)` or `Delete(index)`.
  - In the legacy sync, an `Edit`/`Delete` index is a position among the bot's own messages
    of the last 100, oldest first.
  - The effect of an op log is stated on "slots" (`LegacyBot.Replay`). `Delete` empties a
    slot, and `Present` lists the slots still showing a message.
- **Outside world.** The clock (`now`; each separate `datetime.now` call is its own
  parameter, so a check cycle takes the alert pass's reading, the one inside `remove_expired`
  and, in the current bot, the board header's, with no order assumed between them), the
  configuration (notification and expiry minutes, the configured command channels), the
  region table and the loaded save data are parameters.

Three behaviours of the code are modelled as written:

- **The current bot re-derives timer fields.** `Timer.__post_init__` throws away the system,
  structure and notes that `add_timer` computed and derives them again from the description
  with its own pattern. That pattern ends in a `$`-anchored match, so the derived notes are
  always empty (`Timers.PostInit`). The notes pattern at `bot/models/timer.py:169` therefore
  has no effect, and only the region keeps what `add_timer` computed (`Timers.AddedRegion`).
  The two patterns usually agree on the system (`Timers.AddedRegionAgrees`), but not always:
  for `AB-C-` the timer stores `AB-C` while the region is looked up for `AB`, and for
  `ABC -` it stores `ABC` while the region is empty (`Timers.AddedRegionDivergesOnTrailingDash`,
  `Timers.AddedRegionDivergesOnBareDash`).
- **The direct `add` format.** The command's docstring documents
  `!add YYYY-MM-DD HH:MM:SS system - structure`. That input is split at its first space, so
  the time text is only the date, and the conversion always fails
  (`TimerCommands.DirectDocumentedFormatRefused`). The split is on `' '` only, however, and
  `strptime`'s space matches any run of whitespace. A date and time separated by a tab or a
  newline therefore parse (`TimerCommands.DirectTabAccepted`).
- **The legacy bot's warning reply.** On a similar timer the reply says "Added anyway" after
  the board refused the timer (`LegacyBot.AddedReply`).

## Model

| member | source | states |
|---|---|---|
| Helpers.CleanSystemNameTokens | bot/utils/helpers.py:4-10 | the slug is the whitespace-separated tokens of the name, after `»` and `«` become `-`, joined in order by single `-` |
| Helpers.CleanSystemNameChars | bot/utils/helpers.py:7-9 | the slug contains no whitespace and no `»` or `«` |
| Helpers.CleanSystemNameIdempotent | bot/utils/helpers.py:4-10 | cleaning a slug again changes nothing |
| Helpers.CleanSystemNameBlank | bot/utils/helpers.py:4-10 | an empty or all-whitespace name gives the empty slug |
| Helpers.CmdChannelCheck | bot/utils/helpers.py:12-21 | a command is accepted iff the channel id is the `commands` id of some configured server |
| EveData.GetRegion | bot/utils/eve_data.py:23-25 | the region is the table entry for the upper-cased system, or "Unknown" when there is none |
| EveData.GetRegionCaseInsensitive | bot/utils/eve_data.py:23-25 | a system and its upper-cased form have the same region |
| EveData.LowerCaseKeyUnreachable | bot/utils/eve_data.py:23-25 | a table key with a lower-case letter is never looked up |
| EveData.FailedLoadUnknown | bot/utils/eve_data.py:7-21 | when loading the table fails, every system's region is "Unknown" |
| DateTimes.Format | bot/models/timer.py:42 | the `'%Y-%m-%d %H:%M:%S'` rendering of a time is 19 characters long |
| DateTimes.FormatIsStamp | bot/models/timer.py:42 | a rendered time has the `dddd-dd-dd dd:dd:dd` shape |
| DateTimes.Strptime | bot/cogs/timer_commands.py:93 | a successful conversion gives a time the `datetime` constructor accepts |
| DateTimes.StrptimeFormat | bot/cogs/timer_commands.py:93 | converting a rendered time gives that time back |
| DateTimes.StrptimeFormatAnySpace | bot/cogs/timer_commands.py:93 | converting a rendered time whose space is replaced by any other whitespace character gives that time back |
| DateTimes.StrptimeNeedsSpace | bot/cogs/timer_commands.py:93 | text without a whitespace character never converts |
| DateTimes.StrptimeStamp | bot/cogs/timer_commands.py:51-93 | a `dddd-dd-dd dd:dd:dd` text converts to its digits' fields exactly when those fields form a valid date and time |
| Timers.MatchDash | bot/models/timer.py:30 | a match of the system/structure pattern: the system is a non-empty run of `[A-Z0-9-]`, then optional spaces and a `-`, then a structure without newline ending where `$` may match |
| Timers.PostInit | bot/models/timer.py:27-38 | notes are always empty; without a match the system is "Unknown" and the structure is the whole description |
| Timers.PostInitSystem | bot/models/timer.py:30-32 | with a match the system is a non-empty prefix of the description made of `[A-Z0-9-]` characters |
| Timers.PostInitSystemRun | bot/models/timer.py:30-32 | when the whole leading `[A-Z0-9-]` run is followed by `" -"` and a line the pattern's tail accepts, the system is that run: the first attempt of the backtracking match succeeds |
| Timers.PostInitStructure | bot/models/timer.py:30-33 | with a match the stripped structure has no newline |
| Timers.StripAfterDollar | bot/models/timer.py:34 | what follows a `$`-anchored match strips to nothing |
| Timers.StripNoNewline | bot/models/timer.py:33 | a stretch without newlines still has none once stripped |
| Timers.NewTimer | bot/models/timer.py:16-38 | a constructed timer keeps time, description, id and region, and takes system, structure and notes from the description |
| Timers.NewTimerIgnoresDerivedArguments | bot/models/timer.py:27-38 | the system, structure and notes given to the constructor make no difference |
| Timers.IsSimilarSymmetric | bot/models/timer.py:51-55 | similarity (at most 300 s apart, equal system and structure ignoring case) is symmetric |
| Timers.IsSimilarIgnoresCase | bot/models/timer.py:51-55 | upper-casing a timer's system and structure does not change similarity |
| Timers.SimilarTo | bot/models/timer.py:199 | the similar list holds exactly the existing timers similar to the new one |
| Timers.ToStringOneLine | bot/models/timer.py:40-46 | a timer whose text fields have no newline is rendered on one line |
| Timers.BoardTextLines | bot/models/timer.py:270-283 | the board text is the "Current Time" header followed by one rendered line per timer, in time order; an empty board shows the header alone |
| Timers.FirstBotMessage | bot/models/timer.py:287-291 | the message edited is the first bot-authored one among the newest 100, and none exists when no such message is found |
| Timers.UpdateShowsText | bot/models/timer.py:286-295 | after the update, the first bot-authored message of the channel shows the board text |
| Timers.NextIdFor | bot/models/timer.py:147-153 | the next id is at least 1000, above every id, and either 1000 or one more than some id |
| Timers.RestoredNextId | bot/models/timer.py:117 | a stored next id is clamped to at least 1000 |
| Timers.RestoreTimer | bot/models/timer.py:121-134 | a loaded timer keeps its id, time and description, and its stored region when one is stored |
| Timers.AddedRegion | bot/models/timer.py:163-186 | empty when the `.+?` pattern does not match; otherwise the region of group 1, which is the `[A-Z0-9-]` system the `__post_init__` pattern finds for a structure of at least one character |
| Timers.AddedRegionAgrees | bot/models/timer.py:30-32 | without a `__post_init__` match the region is empty; when that match has a non-empty structure, the region is the one of the system the timer stores |
| Timers.AddedRegionDivergesOnTrailingDash | bot/models/timer.py:30-32 | for `AB-C-` the timer stores system `AB-C` but the region is looked up for `AB` |
| Timers.AddedRegionDivergesOnBareDash | bot/models/timer.py:30-32 | for `ABC -` the timer stores system `ABC` but the region is empty |
| Timers.TimerBoard.constructor | bot/models/timer.py:94-145 | without save data the board is empty with next id 1000; with it, the timers are the restored ones and the next id is clamped |
| Timers.RestoreAll | bot/models/timer.py:121-134 | restoring the saved list restores each saved timer in its own place, in file order |
| Timers.TimerBoard.UpdateNextId | bot/models/timer.py:147-153 | the next id becomes `NextIdFor(timers)`, nothing else changes |
| Timers.TimerBoard.SortTimers | bot/models/timer.py:155-157 | the timers become their stable sort by time, a sorted permutation of the old list |
| Timers.TimerBoard.AddTimer | bot/models/timer.py:159-212 | the timer is always added with the old next id, the next id grows by one, the list is the sorted old list plus the timer, the similar list is the old similar timers, and the board is saved once; when every id was below the next id, the new id is unused and that stays so, and the next id stays at least 1000 |
| Timers.TimerBoard.Append | bot/models/timer.py:206-209 | the list becomes the sorted old list plus the timer, the next id grows by one and the board is saved once |
| Timers.AddKeepsIds | bot/models/timer.py:188-207 | when every id is below the timer's id, that id is not in use and after the add every id is below the next id |
| Timers.TimerBoard.RemoveTimer | bot/models/timer.py:218-233 | the first timer with the id is removed and returned and the rest keep their order; an absent id changes nothing and saves nothing; every id stays below the next id |
| Timers.DropKeepsIds | bot/models/timer.py:220-222 | dropping a timer keeps every id below the next id |
| Timers.TimerBoard.RemoveExpired | bot/models/timer.py:235-252 | timers before `now - expiry` are returned in order and the rest kept in order; nothing is saved when none expire |
| Timers.TimerBoard.UpdateTimerboard | bot/models/timer.py:254-295 | the op list has one entry per channel, in channel order: the board text's edit-or-send for a present channel, nothing for a missing one |
| Timers.ChannelOpsEach | bot/models/timer.py:256-295 | entry i of the op list is the update of channel i, and it is empty exactly when channel i is missing |
| TimerCommands.OneLineIsNotMultiLine | bot/cogs/timer_commands.py:27-28 | input without a newline never takes the multi-line branch |
| TimerCommands.SystemEndFrom | bot/cogs/timer_commands.py:34 | the system group ends at the longest prefix after which the rest of the pattern matches, as backtracking finds it |
| TimerCommands.StructureLineMatch | bot/cogs/timer_commands.py:34-36 | a matched system is a non-empty run of `[A-Z0-9-]` |
| TimerCommands.StructureLineMatchRun | bot/cogs/timer_commands.py:34-36 | group 1 is the whole leading `[A-Z0-9-]` run exactly when the rest of the pattern matches right after it |
| TimerCommands.StructureLineExample | bot/cogs/timer_commands.py:34-36 | on `4M-QXK - PRIVATE` group 1 is `4M-QXK` |
| TimerCommands.CleanStructureSteps | bot/cogs/timer_commands.py:38-42 | a name starting with `-` is stripped of `-` and spaces; one starting with `»` is stripped of `»` and spaces, and that is all when no `-` then leads |
| TimerCommands.CleanStructureAfterDash | bot/cogs/timer_commands.py:38-42 | after ` - ` the structure name comes out as written |
| TimerCommands.CleanStructureAfterArrow | bot/cogs/timer_commands.py:38-42 | after ` » ` the structure name comes out as written |
| TimerCommands.StructureLineDocumented | bot/cogs/timer_commands.py:30-42 | on a first line `<system> - <name>` group 1 is the system and the structure is the name |
| TimerCommands.TagsTail | bot/cogs/timer_commands.py:49 | non-empty tags are a bracketed suffix of the line |
| TimerCommands.SearchTime | bot/cogs/timer_commands.py:49-52 | the search finds the leftmost position where a "Reinforced until" stamp is followed only by optional tags up to the end, and finds nothing only when there is no such position |
| TimerCommands.StampAt | bot/cogs/timer_commands.py:51 | the dotted date with `.` replaced by `-` has the `dddd-dd-dd dd:dd:dd` shape |
| TimerCommands.ParseMultiLine | bot/cogs/timer_commands.py:27-62 | the multi-line branch fails only with its two error replies; on success the system is a non-empty `[A-Z0-9-]` run, the time text is a stamp, and structure and tags have no newline |
| TimerCommands.TagsTailAtEnd | bot/cogs/timer_commands.py:49-52 | after the stamp, nothing gives no tags and one space then `[...]` gives those tags |
| TimerCommands.TimeLineDocumented | bot/cogs/timer_commands.py:49-52 | on a third line `Reinforced until <stamp>[ <tags>]` the pattern matches at its start, with the stamp's dots made dashes and the tags as group 2 |
| TimerCommands.WithTimeDocumented | bot/cogs/timer_commands.py:48-62 | such a third line gives the stamp with dashes and the tags |
| TimerCommands.ThreeLinesMultiLine | bot/cogs/timer_commands.py:27-28 | three lines whose third starts with `Reinforced until` take the multi-line branch, with the lines as written |
| TimerCommands.ParseMultiLineDocumented | bot/cogs/timer_commands.py:27-62 | `<system> - <name>`, any second line, and `Reinforced until <stamp>[ <tags>]` give that system, name, tags and the stamp with dashes |
| Patterns.LazyUntil | bot/cogs/timer_commands.py:66 | a lazy `.*?` stops where what follows matches, with no newline before it |
| Patterns.LazyUntilFirst | bot/cogs/timer_commands.py:66 | the lazy `.*?` stops at the first position where what follows matches |
| Patterns.LazyUntilNever | bot/cogs/timer_commands.py:66 | where what follows never matches, the lazy `.*?` fails |
| TimerCommands.LazyScan | bot/cogs/timer_commands.py:66 | the lazy prefix stops at a "Reinforced until" stamp on its own line |
| TimerCommands.LazyScanFirst | bot/cogs/timer_commands.py:66 | the lazy prefix stops at the first such stamp |
| TimerCommands.SearchReinforced | bot/cogs/timer_commands.py:66 | a search hit is a "Reinforced until" stamp with no newline between the match start and it |
| TimerCommands.SearchReinforcedFirst | bot/cogs/timer_commands.py:66 | the stamp found is the first one from the start of the search |
| TimerCommands.SearchReinforcedLineStart | bot/cogs/timer_commands.py:66 | the match starts where the search starts or right after a newline |
| TimerCommands.SearchReinforcedComplete | bot/cogs/timer_commands.py:66 | the search fails exactly when no "Reinforced until" stamp occurs |
| TimerCommands.SearchReinforcedAt | bot/cogs/timer_commands.py:66 | a first stamp on the first line is found, with the match starting at the beginning |
| TimerCommands.SearchReinforcedNone | bot/cogs/timer_commands.py:66-67 | text without an `R` never matches the reinforced pattern |
| TimerCommands.BracketGroup | bot/cogs/timer_commands.py:66 | the tags run from the `[` after the whitespace to the last `]` on that line, and are empty exactly when there is no whitespace, no `[` there or no `]` after it on the line |
| TimerCommands.BracketGroupAtEnd | bot/cogs/timer_commands.py:66 | a line ending in one space and `[...]` has those tags, and one ending right away has none |
| TimerCommands.StampAndTags | bot/cogs/timer_commands.py:66-71 | after any prefix, the literal, a dotted stamp and the tags give the stamp with dashes and those tags |
| TimerCommands.LazyStructure | bot/cogs/timer_commands.py:74 | the lazy structure stops at a place where a `<n> km` tail or `$` follows |
| TimerCommands.LazyStructureFirst | bot/cogs/timer_commands.py:74 | the lazy structure stops at the first such place |
| TimerCommands.KmTailAtEnd | bot/cogs/timer_commands.py:74 | ` <n> km` ending the prefix is a distance tail right after the text before it |
| TimerCommands.NoKmTailInside | bot/cogs/timer_commands.py:74 | no distance tail starts inside that text |
| TimerCommands.StructureStopsAtKm | bot/cogs/timer_commands.py:74 | the lazy structure stops right before ` <n> km` |
| TimerCommands.PrefixSplits | bot/cogs/timer_commands.py:74-77 | `<system> <name> <n> km` splits into the system and exactly the name |
| TimerCommands.PrefixMatchOf | bot/cogs/timer_commands.py:74-77 | the system is a non-empty space-free first token followed by a non-empty structure |
| TimerCommands.ParseReinforced | bot/cogs/timer_commands.py:66-80 | a parsed single-line reinforced input yields a stamp-shaped time text |
| TimerCommands.NoLiteralBeforeKm | bot/cogs/timer_commands.py:66 | in `<text> <n> km ...` no occurrence of the literal starts before it ends, when the text does not contain it |
| TimerCommands.NoLiteralBeforeWord | bot/cogs/timer_commands.py:66 | after a word without whitespace and a space, the literal first occurs right there |
| TimerCommands.ParseReinforcedAfter | bot/cogs/timer_commands.py:66-80 | a first line with no earlier occurrence gives the stamp with dashes and the description of the stripped prefix |
| TimerCommands.SplitDescription | bot/cogs/timer_commands.py:74-78 | the prefix `<system> <name> <n> km ` gives the description `<system> - <name> <tags>` |
| TimerCommands.ParseReinforcedSplits | bot/cogs/timer_commands.py:66-78 | `<system> <name> <n> km Reinforced until <stamp>[ <tags>]` gives the stamp with dashes and `<system> - <name> <tags>`, whatever the distance |
| TimerCommands.WordDescription | bot/cogs/timer_commands.py:74-80 | a single word before the literal gives the whole input as the description |
| TimerCommands.ParseReinforcedWhole | bot/cogs/timer_commands.py:66-80 | `<word> Reinforced until <stamp>[ <tags>]` gives the stamp with dashes and the whole input as description |
| TimerCommands.SingleLineParts | bot/cogs/timer_commands.py:64-88 | the single-line branches give no time and description iff the reinforced pattern fails and the input has no space |
| TimerCommands.ParseAdd | bot/cogs/timer_commands.py:25-100 | each error reply comes from its own branch: the first two only for multi-line input, "Invalid format" only for input not in the multi-line format and without a space |
| TimerCommands.MultiLineTime | bot/cogs/timer_commands.py:50-97 | a parsed multi-line input gives its stamp's time and the `"<system> - <structure>[ <tags>]"` description, or the invalid-time reply |
| TimerCommands.SingleLineTime | bot/cogs/timer_commands.py:66-97 | a single-line reinforced input gives its stamp's time and description, or the invalid-time reply |
| TimerCommands.DirectNeedsOtherWhitespace | bot/cogs/timer_commands.py:83-100 | in the direct branch a first token without whitespace always ends in the invalid-time reply |
| TimerCommands.DirectDocumentedFormatRefused | bot/cogs/timer_commands.py:83-100 | the documented `YYYY-MM-DD HH:MM:SS description` input is refused as an invalid time |
| TimerCommands.DirectTabAccepted | bot/cogs/timer_commands.py:83-93 | the same input with a tab between date and time is accepted with that time and description |
| TimerCommands.FirstSpaceAt | bot/cogs/timer_commands.py:83 | `split(' ', 1)` cuts at the first space |
| TimerCommands.MultiLineSystemRecovered | bot/cogs/timer_commands.py:56-58 | the multi-line description, parsed again when the timer is built, gives back the same system |
| TimerCommands.AddCommand | bot/cogs/timer_commands.py:25-117 | a parse error replies and leaves the store untouched; otherwise the timer is always added, the reply is built from the similar timers, and the board channel is updated |
| TimerCommands.AddParsed | bot/cogs/timer_commands.py:102-113 | after a parse the timer is added with the old next id, the reply names it and the similar timers, and the board channel gets one update |
| TimerCommands.RmCommand | bot/cogs/timer_commands.py:121-134 | an absent id replies "No timer found" with no update; otherwise the first timer with the id is removed, the store saved once, the removal reported, and the board updated |
| Alerts.AlertOnlyInWindows | bot/main.py:45-67 | an alert fires iff the timer is in the notification window or within a minute of its start; a timer more than a minute past raises none |
| Alerts.StartWindow | bot/main.py:60-67 | the start alert is an `elif`: it covers the whole minute on either side unless the notification window overlaps it |
| Alerts.NotificationNotMissed | bot/main.py:40-78 | polling every 60 s or less hits the notification window of a timer that is still far enough away |
| Alerts.OneNotificationPerMinuteInterval | bot/main.py:45-57 | polling every 60 s, a timer gets at most one notification |
| Alerts.NotificationRepeatsOnShortInterval | bot/main.py:45-57 | with no record of sent alerts, polling every 30 s notifies twice |
| Alerts.StartAlertTwice | bot/main.py:60-67 | polling every 60 s, a timer gets the start alert in two consecutive cycles |
| MainLoop.AlertTexts | bot/main.py:45-67 | one alert pass sends at most one message per timer |
| MainLoop.AlertTextsStep | bot/main.py:45-67 | each timer adds its own alert, if it raises one, after the alerts of the timers before it |
| MainLoop.AlertTextsEmpty | bot/main.py:45-67 | the pass is silent iff every timer is outside both windows |
| MainLoop.CheckTimersCycle | bot/main.py:42-76 | one cycle sends the alerts of the old timers in order at the loop's clock reading, then removes the timers expired at `remove_expired`'s own reading, and updates the board, with the header at a third reading, iff something expired |
| LegacyBot.AnsiblexEnd | bot.py:290 | the lazy `.*?` stops at the first `<n>,<n> km` distance, newline or end |
| LegacyBot.AnsiblexMatchIff | bot.py:290-293 | the Ansiblex pattern matches iff the description starts with a `[A-Z0-9-]` run followed, after optional whitespace, by `»` or `«`; the system is then that whole run |
| LegacyBot.SystemDashMatch | bot.py:297 | a `system - structure` match has a space-free system not starting with `-` and a non-empty one-line structure |
| LegacyBot.Extract | bot.py:288-304 | when neither pattern matches the system is "" and the structure the whole description |
| LegacyBot.ExtractAnsiblex | bot.py:290-293 | on an Ansiblex match the system is the leading `[A-Z0-9-]` run, non-empty, and a prefix of the structure |
| LegacyBot.ExtractSystemDash | bot.py:296-300 | on a dash match the system is the first group itself, unchanged by stripping, and the structure has no newline |
| LegacyBot.DashWordNoSpace | bot.py:297 | a word of the form `[^\s-]+(?:-[^\s]+)?` has no whitespace |
| LegacyBot.DashSplitNoAnsiblex | bot.py:290 | `<word> - <rest>` with no `»` or `«` in the word does not match the Ansiblex pattern |
| LegacyBot.DashAfterSeparator | bot.py:297 | after the word, `\s*-\s*(.+?)` takes ` - ` and the rest of the line |
| LegacyBot.DashSplitMatch | bot.py:297 | the dash pattern takes the whole word as group 1 and the rest of the line as group 2 |
| LegacyBot.DashSplitPlain | bot.py:297 | a word without a dash: group 1 stops at the space |
| LegacyBot.DashSplitTail | bot.py:297 | a word with a dash: the optional `-[^\s]+` takes the rest of the word |
| LegacyBot.DashSplitSystem | bot.py:299 | the stripped group 1 is the word |
| LegacyBot.DashSplitStructure | bot.py:300 | the stripped group 2 is the rest |
| LegacyBot.ExtractDashSplit | bot.py:288-304 | `<word> - <rest>`, with a one-line rest framed by non-space characters, gives system `<word>` and structure `<rest>`, the Ansiblex pattern failing |
| LegacyBot.Notes | bot.py:307-308 | the notes are empty iff no bracketed tail ends the line; otherwise they are that tail, from `[` to `]` |
| LegacyBot.NotesNeedClosingBracket | bot.py:307-308 | notes are empty unless the line ends with `]` |
| LegacyBot.NotesOfTaggedLine | bot.py:307-308 | the notes start at the first `[` from which the line runs to its final `]` |
| LegacyBot.NewLegacyTimer | bot.py:310-318 | a new timer takes the extracted system and structure and the notes of its description |
| LegacyBot.ResubmissionIsSimilar | bot.py:171-176 | the same description within five minutes is similar, in both directions |
| LegacyBot.SimilarTo | bot.py:321 | the similar list holds exactly the existing timers similar to the new one |
| LegacyBot.NextIdFor | bot.py:276-282 | the next id is at least 1000, above every id, and either 1000 or one more than some id |
| LegacyBot.RemoveAt | bot.py:330-336 | removing the first timer with an id keeps the rest in order, sorted if they were, and keeps the board invariants |
| LegacyBot.AddKeeps | bot.py:320-328 | adding a timer with no similar one keeps "no two timers similar" and "every id below next id" |
| LegacyBot.AddKeepsBoard | bot.py:320-325 | the list `add_timer` stores when nothing is similar is sorted by time, keeps "no two timers similar" and keeps "every id below next id" |
| LegacyBot.Paginate | bot.py:359-382 | the messages are the stripped pages of the greedy page split |
| LegacyBot.PagesKeepLines | bot.py:362-382 | the pages, concatenated, are exactly the timer lines in order |
| LegacyBot.PagesWithinLimit | bot.py:375-379 | every page is at most 1900 characters or a single line |
| LegacyBot.PagesGreedy | bot.py:375-379 | a page ends only when the next line would push it past 1900 characters |
| LegacyBot.FirstPageEmpty | bot.py:375-377 | the first page is empty iff the first line alone is over 1900 characters |
| LegacyBot.AfterWrites | bot.py:385-389 | page i is written over existing message i, the rest are sent as new messages |
| LegacyBot.AfterDeletes | bot.py:391-393 | the messages beyond the last page are deleted and the others untouched |
| LegacyBot.SyncShowsPages | bot.py:384-401 | after the sync, the bot's messages show exactly the pages, in order |
| LegacyBot.WriteCalls | bot.py:385-389 | the edit/send loop issues the writes of the sync |
| LegacyBot.DeleteCalls | bot.py:391-399 | the delete loop issues the deletes of the sync |
| LegacyBot.LegacyTimerBoard.constructor | bot.py:223-274 | without save data the board is empty with next id 1000; with it, the saved timers and the clamped next id |
| LegacyBot.LegacyTimerBoard.UpdateNextId | bot.py:276-282 | the next id becomes `NextIdFor(timers)`, and every id is below it |
| LegacyBot.LegacyTimerBoard.SortTimers | bot.py:284-285 | the timers become their stable sort by time, a sorted permutation of the old list |
| LegacyBot.LegacyTimerBoard.AddTimer | bot.py:287-328 | a similar timer is refused and nothing changes; otherwise it is added with the old next id, the list re-sorted, the next id incremented and the board saved |
| LegacyBot.LegacyTimerBoard.Append | bot.py:323-326 | the list becomes the sorted old list plus the timer, the next id grows by one and the board is saved once |
| LegacyBot.LegacyTimerBoard.RemoveTimer | bot.py:330-336 | the first timer with the id is removed and returned, the rest kept in order; an absent id changes nothing |
| LegacyBot.LegacyTimerBoard.RemoveExpired | bot.py:338-350 | timers before `now - expiry` are returned in order and the rest kept in order; nothing is saved when none expire |
| LegacyBot.LegacyTimerBoard.UpdateTimerboard | bot.py:352-401 | the op log is the sync of the board's pages ("No active timers." when empty) against the bot's messages, and afterwards they show exactly those pages |
| LegacyBot.AlertTexts | bot.py:413-435 | one alert pass sends at most one message per timer |
| LegacyBot.AlertTextsStep | bot.py:413-435 | each timer adds its own alert, if it raises one, after the alerts of the timers before it |
| LegacyBot.AlertTextsEmpty | bot.py:413-435 | the pass is silent iff every timer is outside both windows |
| LegacyBot.CheckTimersCycle | bot.py:410-444 | one cycle sends the alerts at the loop's clock reading, removes the timers expired at `remove_expired`'s own reading (bot.py:340), and syncs the board iff something expired |
| LegacyBot.ParseAdd | bot.py:500-527 | "Invalid format" only for input without a space |
| LegacyBot.SingleLineAsCurrent | bot.py:500-527 | on one-line input the legacy and current parsers accept the same inputs with the same time and description, and give "Invalid format" for the same inputs |
| LegacyBot.AddCommand | bot.py:496-546 | a parse error replies and changes nothing; otherwise a similar timer is refused yet "Added anyway" is replied, and the board is synced either way |
| LegacyBot.AddParsed | bot.py:529-542 | after a parse a similar timer leaves the board unchanged, otherwise the timer is added; the reply is built from the similar timers and the board is synced either way |
| LegacyBot.RmCommand | bot.py:550-562 | an absent id replies "No timer found" with no sync; otherwise the first timer with the id is removed, reported, and the board synced |

## Left out

- Discord I/O (`channel.history`, `edit`, `send`, `delete`, `get_channel`, `on_ready`, `on_command_error`, command registration and sync): channels are parameters and updates are op logs.
- File persistence: `save_data` is a counter of saves, and the JSON reading of `load_data` is a parameter holding the decoded records.
- Timers whose saved record fails to load are skipped by `load_data`; the model restores every record it is given.
- Configuration, token loading and logging (`bot/utils/config.py`, `bot/utils/logger.py`, `load_config`, `load_token`, `setup_logging`): their values are parameters.
- `bot/run_bots.py` and `bot/utils/generate_eve_data.py`: concurrent bot instances and an HTTP client.
- The `refresh` and `add_sov` commands: Discord deletions, and a handler that always fails in `datetime.strptime`.
- The `while not bot.is_closed()` loop, its sleeps and its exception handler: one cycle is a method taking `now`.
- Interleaving at `await` points: `check_timers` (bot/main.py:45-66, bot.py:413-435) awaits each `send` while iterating the live timer list, and a command running meanwhile can append to that list and sort it in place (bot/models/timer.py:157, 206-207), so a timer can be skipped or alerted twice. MainLoop.CheckTimersCycle and LegacyBot.CheckTimersCycle iterate a snapshot taken at the start of the cycle, with no command in between.
- Sub-second parts of `now`: times are whole seconds.
- Years below 1000: `strftime` renders them without padding on some platforms; the model pads to four digits.
- Unicode case mapping, whitespace and digits: ASCII only. Python's `\d` in `str` patterns and `strptime`'s `%Y`/`%m`/`%d`/`%H`/`%M`/`%S` also accept non-ASCII decimal digits; the model accepts only `0`-`9`.
- `message_id` (both bots) and `gate_distance` (legacy): never set or read by the modelled code.
- The text of the `ValueError` appended to "Invalid time format: " in the current bot: `TimerCommands.ErrorReply` stops at the prefix.
- A missing board channel: the current bot skips it; the legacy bot raises inside `update_timerboard`, which the loop or the command's caller catches. The legacy board then issues no calls.
- Each channel computes its own `now` for the header; the model gives all channels the same `now`.
- The legacy `cmd_channel_check` and `clean_system_name`: the first compares the channel with a single configured id; the second is identical to `Helpers.CleanSystemName`, which the legacy texts use.
- The legacy `Timer.to_string` (bot.py:165-169) is modelled as `LegacyBot.ToString` and used in replies; no property of its own is stated.
- The legacy constructor keeps saved system, structure and notes as stored; nothing re-derives them in that version.
- Unreachable error paths: the "Could not parse time from input" reply and `add_timer`'s exception re-raise.
- LegacyBot.ParseAdd: its own contract only ties "Invalid format" to a missing space; the rest of its behaviour is stated against the current parser in `LegacyBot.SingleLineAsCurrent`.
- MainLoop.AlertTexts: its contract states only the at-most-one bound; the content of each step is stated by `MainLoop.AlertTextsStep`, and which timers alert by `MainLoop.AlertTextsEmpty` and `Alerts`.
- LegacyBot.AlertTexts: likewise, with `LegacyBot.AlertTextsStep` and `LegacyBot.AlertTextsEmpty`.
