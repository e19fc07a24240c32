# pidlwick, modelled in Dafny

Pidlwick is a Discord bot for the Enter Ravenloft server. This project models the bot's
decision and text-shaping logic and proves what that logic promises:

- **Cadence rules.** The Vistani Market refreshes every third day counted from 2022-12-02.
  The Tattoo Parlor refreshes on Sundays. The Staff XP reminder goes out on Saturdays.
- **Chunkers.** Generated inventory text is cut at literal markers. This keeps each message
  under Discord's 2000-character limit.
- **`refresh`.** It is gated by the schedule or `force`, and sends the chunks in order.
- **Cakeday roster.** It finds members whose join anniversary is today, ordered by
  (years, name).
- **`$pw` command router.**
- **Barovian Almanac.** It looks up the day's sheet row and builds a fixed-layout embed.
- **Staff XP reminder message.**
- **Mention builders.**
- **Client.** It resolves the server's entities on start-up, routes messages, and runs the
  scheduled tasks.

Calls into code outside the bot are turned into inputs or recorded effects:

- A generator script's output is an input string. `run_script` is a `ScriptRunner` object
  that yields it and records the URL it was asked to run.
- The spreadsheet rows are an input.
- Inventory posting, the cakeday announcement, the role grant and the staff notice are
  entries of an effect trace (module `Effects`).
- Today's date is a parameter.

One module per source file:

- `VistaniMarket`, `TattooParlor`, `Cakeday`, `Commands`, `Almanac`, `StaffXpReminder`,
  `Client` (a class with the fields `on_ready` sets) and `Utils`.
- Shared helper modules:
  - `Text`: the Python string operations used (`startswith`, `removeprefix`, `index`,
    `lstrip`, slicing, `str(int)`, string `<`).
  - `Calendar`: Python's proleptic Gregorian `date`, `toordinal`, `weekday`, `%d`, `%b`.
  - `Discord`: roles, channels, members, embeds, messages, a `Channel` object that records
    what it was sent, and the library lookups.
  - `Wrappers`: `Option` and `Result`.

Python's `%` floors and Dafny's is Euclidean. For the positive divisors used here (3 and 7)
the two agree, so the Vistani rule is correct for dates before the epoch as well.

## Model

| member | source | states |
|---|---|---|
| VistaniMarket.ShouldRefreshIffMultiple | vistani_market.py:48-54 | A day is a refresh day iff its day difference from 2022-12-02 is a whole multiple of 3. This holds before the epoch too. |
| VistaniMarket.EpochIsRefreshDay | vistani_market.py:26 | The epoch 2022-12-02 is itself a refresh day. |
| VistaniMarket.RefreshPeriodic | vistani_market.py:26-27 | Two days a multiple of 3 days apart get the same answer. |
| VistaniMarket.RefreshEveryThirdDay | vistani_market.py:48-54 | After a refresh day, the next two calendar days are not refresh days and the third is. |
| VistaniMarket.ChunkOutput | vistani_market.py:56-70 | Chunking succeeds iff all three markers occur, and then gives exactly four pieces. Otherwise it fails with ValueError for the first missing marker, in the order the source looks them up. |
| VistaniMarket.ChunkRoundTrip | vistani_market.py:61-68 | When the first occurrences of the markers come in order, the four chunks joined in order reproduce the input exactly. |
| VistaniMarket.ChunkRoundTripNeedsOrder | vistani_market.py:66-68 | With the markers out of order, the joined chunks are longer than the input, so the round trip fails. |
| VistaniMarket.ChunksStartWithMarkers | vistani_market.py:61-68 | When the three markers are found in order, the materials and announcement chunks begin with their markers: `@Players` cannot start inside `**Special Materials**`. |
| VistaniMarket.ScrollsChunkStartsWithMarker | vistani_market.py:61-68 | The scrolls chunk begins with `**Spell Scrolls**` when the first `**Special Materials**` starts after the whole first `**Spell Scrolls**`. |
| VistaniMarket.ScrollsChunkCanMissMarker | vistani_market.py:61-68 | That condition is needed: for `**Spell Scrolls**Special Materials**@Players` the markers are found in order at 0, 15 and 36, and the scrolls chunk is the 15 characters `**Spell Scrolls`, without its marker. |
| VistaniMarket.ChunksHoldNoLaterMarker | vistani_market.py:61-67 | With the markers in order, no chunk contains the marker of a later chunk. |
| VistaniMarket.ItemsHaveNoScrolls | vistani_market.py:61-65 | The items chunk never contains `**Spell Scrolls**`. |
| VistaniMarket.NoMarkerBefore | vistani_market.py:61-63 | A slice ending before a first occurrence does not contain the marker. |
| VistaniMarket.Refresh | vistani_market.py:31-46 | On an unscheduled day without `force`: runs nothing and sends nothing. Otherwise: runs the market script once, then either fails with the chunking error before sending, fails with AttributeError for an unknown channel name, or appends the chunks, in order, to the named channel's sent messages and to no other channel. |
| TattooParlor.ShouldRefreshIffSunday | tattoo_parlor.py:46-51 | The refresh day is exactly weekday 6, Sunday. |
| TattooParlor.RefreshWeekly | tattoo_parlor.py:46-51 | Days a whole number of weeks apart get the same answer. |
| TattooParlor.NoRefreshAfterSunday | tattoo_parlor.py:25 | The day after a refresh day is a Monday, which is not a refresh day. |
| TattooParlor.OneRefreshPerWeek | tattoo_parlor.py:25 | Two distinct days less than a week apart are never both refresh days. |
| TattooParlor.ChunkOutput | tattoo_parlor.py:53-63 | Chunking succeeds iff `@Players` occurs. It then gives two pieces whose concatenation is the input, the second starting with `@Players`. A missing marker fails with ValueError. |
| TattooParlor.TattoosHaveNoAnnouncement | tattoo_parlor.py:58-60 | The tattoo chunk contains no `@Players`. |
| TattooParlor.Refresh | tattoo_parlor.py:29-44 | Same gate and send behaviour as the Vistani refresh, with the tattoo script and the two chunks. |
| Cakeday.Matches | cakeday.py:22-27 | The loop appends at most one entry per guild member, so the list is no longer than the member list. |
| Cakeday.MatchesAreCakedays | cakeday.py:24-26 | Every entry joined on today's month and day in an earlier year. Its years equal today's year minus the join year. |
| Cakeday.MatchesCount | cakeday.py:22-27 | Each (member, years) pair appears as often as the member appears in the guild when the member has a cakeday, and otherwise not at all. |
| Cakeday.Insert | cakeday.py:29-30 | Inserting adds exactly the new entry (as a multiset), and the length grows by one. |
| Cakeday.SortBy | cakeday.py:29-30 | Python's `list.sort` by a key: a permutation of its input. |
| Cakeday.SortBySorted | cakeday.py:29-30 | The result of sorting by a key is ordered by that key. |
| Cakeday.InsertSorted | cakeday.py:29-30 | Insertion into a list ordered by the key keeps it ordered. |
| Cakeday.SortByStable | cakeday.py:29-30 | The sort is stable: entries with equal keys keep their relative order. |
| Cakeday.InsertStable | cakeday.py:29-30 | Within each key group, inserting an entry gives the same group as putting it in front: the new entry, which came earliest in the input, goes before the entries with an equal key. |
| Cakeday.GroupAppend | cakeday.py:29-30 | Taking the equal-key entries of a concatenation gives those of each part, concatenated. |
| Cakeday.GroupSwap | cakeday.py:29-30 | Swapping two entries with different keys leaves each key's entries in the same order. |
| Cakeday.GroupSingleton | cakeday.py:29-30 | The equal-key entries of a one-entry list. |
| Cakeday.InsertStep | cakeday.py:29-30 | One step of insertion past an entry with a smaller key keeps each key's entries in order. |
| Cakeday.KeyLeTotal | cakeday.py:29-30 | Both sort keys are total orders. |
| Cakeday.KeyLeTransitive | cakeday.py:29-30 | Both sort keys are transitive. |
| Cakeday.SameKeyIsKeyLe | cakeday.py:29-30 | Equal keys compare as less-or-equal. |
| Cakeday.InsertByYearsOrdered | cakeday.py:29-30 | Inserting by years an entry whose name is no greater than any already there keeps (years, name) order. |
| Cakeday.YearsAfterNameOrdered | cakeday.py:29-30 | A stable sort by years of a name-sorted list is in lexicographic (years, name) order. |
| Cakeday.RosterIsOrdered | cakeday.py:16-30 | The roster is ordered by years ascending, with ties by name ascending. |
| Cakeday.RosterContents | cakeday.py:22-32 | Every roster entry has its cakeday today, with the right years. Every qualifying member appears as often as in the guild; no one else appears. |
| Cakeday.RosterEmpty | cakeday.py:20-32 | The roster is empty iff no member has a cakeday today (so an empty guild yields an empty list). |
| Cakeday.GetMembers | cakeday.py:15-32 | The loop and two in-place sorts return the roster. Every entry joined on today's month and day in a strictly earlier year, with years = today.year - join year >= 1. Entries are complete and (years, name) ordered. It is empty iff no member qualifies. |
| Commands.CommandText | commands.py:22 | The command text is the content with `$pw ` removed once if present, and unchanged otherwise. |
| Commands.PrefixRemovedOnce | commands.py:22 | The prefix is removed once: a doubled prefix leaves one in the command text. |
| Commands.UnprefixedUnchanged | commands.py:22 | Content without the prefix is matched unchanged. |
| Commands.Route | commands.py:22-32 | `hello`, `help`/`-help`/`--help`, `refresh vistani` and `refresh tattoo` map to their handlers, each iff the text is exactly that literal. Everything else goes to the fallback with its text. |
| Commands.MatchIsExact | commands.py:22-32 | Examples of exact matching: sample texts differing from a literal only in case or trailing whitespace, and the empty text, go to the fallback. |
| Commands.UnknownReply | commands.py:57-59 | The fallback reply is `Unrecognized command: "` + the command text + `"`. |
| Commands.Handle | commands.py:14-59 | Logs, then: the hello or help reply to the message's channel; for a refresh command, generate the inventory and post it to the message's channel with `mute_announcement=True`; otherwise the unrecognized reply. |
| Commands.ExactlyOneHandler | commands.py:22-32 | Each message triggers exactly one handler: one reply, or one generate-then-post pair. |
| Commands.RefreshCommandsAreMuted | commands.py:41-55 | Every post a command makes has the announcement muted, goes to the command's channel, and comes only from `refresh vistani` or `refresh tattoo`. |
| Almanac.DateKeyShape | almanac.py:92 | The date key is the day of the month without leading zero, `-`, then the month abbreviation (`7-Jan`). It never starts with `0`. |
| Almanac.DateKeyInjective | almanac.py:92 | Two dates share a key iff they share the month and the day of the month. |
| Almanac.FindEntry | almanac.py:94-100 | The result is one of three cases. (1) The first row whose date cell equals the key, with every earlier row having a different date. (2) None iff no row's date cell equals the key. (3) KeyError when a row before any match lacks the date cell. |
| Almanac.FetchData | almanac.py:85-100 | The scan with its early return yields exactly that search result. |
| Almanac.FetchNoneIff | almanac.py:94-100 | The fetch returns None iff every row has a date cell and none equals the key. |
| Almanac.FetchFirstMatch | almanac.py:94-97 | A matching row with no match before it is the one returned. |
| Almanac.BarovianYear | almanac.py:47 | The Year value ends in ` BC`. |
| Almanac.BarovianYearValue | almanac.py:47 | For every year, the text before ` BC` is an optionally signed decimal that reads back as the year minus 1286; it carries a minus sign exactly for years before 1286. |
| Almanac.FirstMissing | almanac.py:49-66 | Names the first cell, in reading order, that the row lacks, or None iff it has them all. |
| Almanac.HasCellsIffNoneMissing | almanac.py:49-66 | The row has every cell the embed reads iff no cell is missing. |
| Almanac.GenerateEmbed | almanac.py:31-75 | A failed lookup propagates its KeyError. No row fails with TypeError. A row missing a cell fails with KeyError. Success comes iff a row was found with every cell; the embed then has the fixed title, description and footer and 13 fields. |
| Almanac.MissingCellReported | almanac.py:49-66 | The KeyError names the first missing cell in the order the fields read them. |
| Almanac.FieldsLayout | almanac.py:45-70 | Thirteen fields with the listed names in order. Each data field shows its cell of the row, inline. Year shows the Barovian year. The three spacer fields show the blank value and are not inline. The last field's name is blank + newline + the special note when the note is non-empty, and blank otherwise. |
| Almanac.EmbedLayout | almanac.py:49-70 | Every embed built has exactly that field list, over the row that was found. |
| StaffXpReminder.ShouldRemindIffSaturday | staffxp_reminder.py:16-23 | The reminder day is exactly weekday 5, Saturday. |
| StaffXpReminder.RemindWeekly | staffxp_reminder.py:18-23 | Days a whole number of weeks apart get the same answer. |
| StaffXpReminder.ReminderOnRefreshEve | staffxp_reminder.py:16 | A reminder day is exactly the day before a Tattoo Parlor refresh day. |
| StaffXpReminder.Helpers | staffxp_reminder.py:30 | Content is the role mention of the given role's id, or the literal `@Helper` when none is given. |
| StaffXpReminder.HelpersNamesRole | staffxp_reminder.py:30 | A role is given iff the content reads as a role mention; it then reads back as that role's id. |
| StaffXpReminder.Reminder | staffxp_reminder.py:30-45 | The message carries that content and an embed with the fixed title and footer, no fields, and as description the six lines concatenated. |
| StaffXpReminder.ReminderEmbedFixed | staffxp_reminder.py:32-45 | Only the content depends on the role; the embed never does. |
| StaffXpReminder.SendReminder | staffxp_reminder.py:25-47 | Building the text step by step, exactly one message is sent: that reminder. |
| Utils.RoleMentionRoundTrip | utils.py:27-31 | `<@&` + decimal id + `>`, from which the id reads back. |
| Utils.NicknameMentionRoundTrip | utils.py:33-37 | `<@!` + decimal id + `>`, from which the id reads back. |
| Utils.RoleMentionInjective | utils.py:31 | Role mentions are equal iff the ids are. |
| Utils.NicknameMentionInjective | utils.py:37 | Nickname mentions are equal iff the ids are. |
| Utils.MentionsDisjoint | utils.py:27-37 | A role mention never equals a nickname mention. |
| Utils.ScriptRunner.RunScript | utils.py:11-25 | Running a script records its URL and yields the runner's output. |
| Client.HelperRole | client.py:86-90 | The helper role is the configured-id lookup when found, else the first role named `Helper`. It is None iff neither exists. |
| Client.AddRoleSuccess | client.py:137-143 | The staff notice's flag is True only when the role grant returned True. A caught failure makes it False. |
| Client.Client.constructor | client.py:25-28 | `__init__` assigns none of the attributes `on_ready` looks up: the server, the maintainer and all 13 channels, roles and sheet id start as None. |
| Client.Client.OnReady | client.py:38-94 | Each field gets the guild's entity with the configured id. An unknown server raises AttributeError and leaves every other field as it was. The helper role falls back by name; no such role raises AttributeError before the sheet id is stored. |
| Client.Client.LookUpChannels | client.py:51-71 | Every channel field is the guild's channel with its configured id. |
| Client.Client.LookUpRoles | client.py:73-90 | Every role field is the guild's role with its configured id, with the helper fallback. The result is Completed iff a helper role was found. |
| Client.Client.OnMessage | client.py:97-101 | A message by the bot itself, or not starting with `$pw `, causes nothing. Any other message goes to the command router. |
| Client.DispatchIff | client.py:97-101 | A message is dispatched iff someone other than the bot wrote it and it starts with `$pw `. |
| Client.Client.RefreshVistaniMarket | client.py:104-113 | Each run starts with its debug line. |
| Client.Client.RefreshTattooParlor | client.py:116-125 | Each run starts with its debug line. |
| Client.Client.RemindStaffXp | client.py:161-169 | Each run starts with its debug line. Unlike the source, the reminder is awaited (see Findings). |
| Client.WorkOnlyOnScheduledDays | client.py:104-169 | The Vistani, Tattoo and Staff XP tasks do work iff their day check holds and their channel is resolved. |
| Client.OffDaysOnlyLog | client.py:104-169 | On other days they only log; the Vistani task also raises for an unresolved channel, whose name its log line reads. |
| Client.ScheduledDaysPost | client.py:104-125 | On a scheduled day an inventory task generates, then posts to its channel, pinging the Players role. |
| Client.ReminderSent | client.py:161-169 | On a Saturday the reminder task posts the Staff XP reminder to its channel, with the resolved helper role. |
| Client.Client.AnnounceCakedays | client.py:128-145 | Each run starts with its debug line. |
| Client.AnnouncesIffRoster | client.py:132-135 | The cakeday task posts an announcement iff the roster for the day is non-empty, i.e. iff some member has a cakeday. |
| Client.NotifyAfterRoleAttempt | client.py:135-143 | The run has the announcement, then the role attempt, then the staff notice last, whether or not the attempt raised. The flag is False when it raised and is the returned flag otherwise. |
| Client.Client.RefreshAlmanac | client.py:148-153 | Each run starts with its debug line. |
| Client.AlmanacPostsEveryDay | client.py:148-153 | On every date, with no day check, the almanac job loads the sheet and posts the day's embed to the almanac channel. |
| Client.AlmanacFailureStops | client.py:152-153 | A failed lookup or embed is the run's last entry, and nothing is posted. |
| Client.Client.RemindStaffXpAsWritten | client.py:161-169 | As written: its run starts with its debug line. |
| Client.UnawaitedReminderNeverSent | client.py:167 | As written, the reminder task never sends anything, even on a Saturday when the corrected one does. |
| Client.Client.AnnounceCakedaysAsWritten | client.py:128-145 | As written, using the import-time date: its run starts with its debug line. |
| Client.StaleCakedayDate | cakeday.py:15 | A member whose anniversary is today is missed by the code as written, and announced by the corrected one. |
| Client.Client.RefreshAlmanacAsWritten | client.py:148-153 | As written, using the import-time timestamp: its run starts with its debug line. |
| Client.StaleAlmanacDate | almanac.py:31 | When the sheet holds only today's row, the code as written fails with TypeError and the corrected one posts. |
| Discord.FindChannel | vistani_market.py:39 | `discord.utils.get(channels, name=...)`: the first channel with that name, every earlier one having another name; null iff no channel has it. |
| Discord.FindRole | client.py:89 | `discord.utils.get(roles, name=...)`: the first role with that name; None iff no role has it. |
| Discord.Channel.Send | vistani_market.py:46 | A send appends exactly that message to what the channel has been sent. |
| Text.RemovePrefix | commands.py:22 | `str.removeprefix`: removes the prefix once when present, else returns the input. |
| Text.Index | vistani_market.py:61-63 | `str.index`: found iff the substring occurs; the first occurrence. |
| Text.LStrip | almanac.py:92 | `str.lstrip(c)`: a suffix of the input, not starting with `c`; only `c`s were dropped. |
| Text.NatToString | utils.py:31 | Decimal digits, non-empty; leading `0` only for 0. |
| Text.ParseNatToString | utils.py:31 | The decimal form reads back as the number. |
| Text.NatToStringInjective | utils.py:31 | Distinct numbers have distinct decimal forms. |
| Text.LexLeTotal | cakeday.py:29 | String order is total. |
| Text.LexLeTransitive | cakeday.py:29 | String order is transitive. |
| Text.LexLeAntisymmetric | cakeday.py:29 | String order is antisymmetric. |
| Text.ParseIntToString | almanac.py:47 | `str(int)` reads back as the integer, and starts with `-` exactly when the integer is negative. |
| Calendar.MonthAbbreviation | almanac.py:92 | `%b`: a three-letter month name. |
| Calendar.LeapDayIsCounted | vistani_market.py:53 | Python's day count before a year grows by that year's length (366 in leap years), so date differences are day counts. |
| Calendar.NextDayOrdinal | vistani_market.py:53 | The next calendar day's ordinal is one more. |
| Calendar.NextDayWeekday | tattoo_parlor.py:51 | The next calendar day's weekday is the next one, mod 7. |
| Calendar.WeekdayPeriodic | tattoo_parlor.py:51 | Days a whole number of weeks apart share a weekday. |

## Left out

- The `discord.ext.tasks` machinery is not modelled. That covers the time-of-day firing (`RefreshHour` and the like are constants only), the `before_loop` readiness wait, the `.error` callbacks, `setup_hook` and the hourly heartbeat. It is library-owned asynchronous scheduling.
- `run_script` is not modelled: it downloads a script and runs it with `exec`. Its output is the `ScriptRunner`'s arbitrary `output` string.
- The wall clock is not read: today's date is a parameter. The day checks read the local date while the firing times and the almanac timestamp are UTC; that time-zone difference is not modelled.
- `load_google_sheet` and `random_preset_colour` are not part of this model; the sheet's rows are an input and the embed colour is left out.
- `os.environ` reads are not modelled; `on_ready` takes the ids as an `Environment` value. Their KeyError and `int()` ValueError when a variable is missing or malformed are not modelled.
- The Discord calls (`get_guild`, `get_member`, `get_channel`, `get_role`, `channel.send`) are first-match lookups and recorded sends. Their network behaviour and errors are not modelled.
- Calls to names the called modules do not define are modelled as if they existed. `vistani_market.generate_inventory/post_inventory` and `tattoo_parlor.generate_inventory/post_inventory` are absent, yet are called at client.py:110-111, client.py:122-123, commands.py:46-47 and commands.py:54-55; they are recorded effects. `vistani_market.should_refresh_today()` (client.py:108) and `tattoo_parlor.should_refresh_today()` (client.py:120) are absent too: the modules define only `_should_refresh_today` (vistani_market.py:48, tattoo_parlor.py:46), so as written every run of those two tasks raises AttributeError right after its debug line. The model calls the private predicates instead.
- `cakeday.add_role` does not exist in cakeday.py; its outcome is the `AddRoleOutcome` input.
- `cakeday.make_announcement` and `notify_staff` are stubs that `pass` (cakeday.py:34-50). They are recorded effects; the announcement's jump URL is an input. The five-argument `notify_staff` call does not match the two-argument stub; this mismatch is not modelled.
- `commands.handle(self, message)` is called with two arguments while `handle(message)` takes one (client.py:101, commands.py:14). The model routes the message as if the call matched.
- `except discord.Forbidden | discord.HTTPException` (client.py:139) is modelled only as "a caught failure sets the flag False"; exceptions it would not catch are not modelled.
- The task bodies' log lines (client.py:106-169), `handle`'s debug line (commands.py:18) and `_fetch_data`'s lines (almanac.py:90, 96, 99, through `FetchLog`) are recorded by level (Debug, Info, Error) only; their texts are left out.
- `Client.Client.OnReady`: records no log lines; the login lines, the found/unable-to-find lines of `log_result` and `log_nameless` and the Helper debug line (client.py:39-43, 46-93) are left out, as only their outcome matters to the later tasks.
- `VistaniMarket.Refresh`, `TattooParlor.Refresh`: record no log lines; the forcing/ignoring info lines and the debug line of the script output (vistani_market.py:34, 36, 42; tattoo_parlor.py:32, 34, 40) are left out.
- `Cakeday.GetMembers`: records no log lines; the per-match debug line (cakeday.py:25) is left out.
- `Cakeday.SortBy`: the name sort of cakeday.py:29 keys on the member object. It is modelled as a sort by member name in Python string order; Discord's member comparison is not modelled.
- `VistaniMarket.ScrollsChunkStartsWithMarker`: requires the first `**Special Materials**` to start after the whole first `**Spell Scrolls**`. The materials marker can begin inside the closing `**` of the scrolls marker; the scrolls chunk is then `**Spell Scrolls`, 15 characters, as `ScrollsChunkCanMissMarker` shows.
- `Client.Client.OnReady`: an attribute `on_ready` never assigned is modelled as a None field, not as a missing attribute. The tasks' `before_loop` waits only for the gateway to be ready (client.py:183-186), not for `on_ready` to succeed. So when `on_ready` raises at client.py:48 (unknown server), the off-day runs of the Tattoo Parlor and Staff XP tasks raise AttributeError reading the unassigned channel (client.py:125, client.py:169), whereas the model's `OffDaysOnlyLog` gives only the two log lines. The other task runs fail the same way for None and for a missing attribute.
- `Client.Client.RefreshVistaniMarket`, `Client.Client.RefreshTattooParlor`, `Client.Client.RemindStaffXp`, `Client.Client.AnnounceCakedays`, `Client.Client.RefreshAlmanac`: their own contracts state only the opening debug line; what they do is stated by the lemmas about them (`WorkOnlyOnScheduledDays`, `OffDaysOnlyLog`, `ScheduledDaysPost`, `AnnouncesIffRoster`, `NotifyAfterRoleAttempt`, `AlmanacPostsEveryDay`, `AlmanacFailureStops`, `ReminderSent`).
- `Client.Client.AnnounceCakedaysAsWritten`, `Client.Client.RefreshAlmanacAsWritten`, `Client.Client.RemindStaffXpAsWritten`: their own contracts also state only the opening debug line; their behaviour is stated by `StaleCakedayDate`, `StaleAlmanacDate` and `UnawaitedReminderNeverSent`.
- All of app.py (entry point, logging set-up, test loops) is not part of this model.

## Findings

The discrepancy each row describes is exhibited by `Client.UnawaitedReminderNeverSent`, `Client.StaleCakedayDate` and `Client.StaleAlmanacDate` respectively; the corrected behaviour is what `Client.ReminderSent`, `Client.AnnouncesIffRoster` and `Client.AlmanacPostsEveryDay` state.

| source | as written | input that shows it | evidently intended | confidence | as-written member | corrected member |
|---|---|---|---|---|---|---|
| client.py:167 | `staffxp_reminder.send_reminder(...)` is called without `await`, so only a coroutine object is created and the reminder is never sent | any Saturday with the reminder channel resolved | `await staffxp_reminder.send_reminder(...)`, posting the reminder every Saturday | high; not executed | Client.Client.RemindStaffXpAsWritten | Client.Client.RemindStaffXp |
| cakeday.py:15 | `today=date.today()` is evaluated once when the module is imported, and client.py:132 relies on the default, so every daily run uses the start-up date | bot started 2023-01-01; on 2023-01-02 a member who joined 2022-01-02 is not announced | the date on which the daily job fires | high; not executed | Client.Client.AnnounceCakedaysAsWritten | Client.Client.AnnounceCakedays |
| almanac.py:31 | `timestamp=datetime.now(timezone.utc)` is evaluated once at import, and client.py:152 relies on the default, so every daily post is for the start-up date | bot started on another day of the year; a sheet holding only today's row makes the run fail with TypeError | the timestamp at which the daily job fires | high; not executed | Client.Client.RefreshAlmanacAsWritten | Client.Client.RefreshAlmanac |
