# Russkaya bot: plant and solar-panel lifecycle with reminders

This project is a Dafny model of the core of the Russkaya Discord bot
(`RusskayaBot.java`). The bot tracks two kinds of game resources:

- **Plants** are seeded, may be fertilized, and are harvested.
- **Solar panels** are placed and have their battery collected.

The model covers the following parts of the bot:

- **Tables.** `plants` and `solar_panels` are maps from id to row. Each table has its own AUTOINCREMENT counter.
- **State machine.** The SQL `WHERE` guards form a small state machine: `planted` to `harvested`, and `active` to `collected`.
- **Reminders.** Creating a row arms reminders:
  - two one-shot fertilizer reminders, at +35 and +55 minutes;
  - two one-shot repair reminders, at +30 and +50 minutes;
  - a collection reminder that repeats every 2 hours and is never cancelled.
- **Fire-time check.** When a reminder fires, it re-reads the row before it sends anything.
- **Reaper.** Every 24 hours it deletes finished rows older than 7 days.
- **Read-only commands.** The status listings and the activity log.
- **Reaction listener.** It only retitles a reminder message.

Modules:

- `Entities`: the row types, the invariant every row keeps, the reaper.
- `Reminders`: timers and their schedule, the fire-time decision, and what one minute of the scheduler does.
- `Reactions`: the ✅/🔧 reaction listener.
- `Listings`: `/pflanzen-status`, `/solar-status` and `/logs`.
- `Bot`: the class `RusskayaBot`. It holds the tables, the counters, the clock, the pending timers and the sent reminders. Each command and each clock minute is one method.

Time is a natural number of minutes since startup. `Tick` advances the clock by one minute. First it runs the reaper, if a whole day has passed. Then it fires every timer due that minute. Every pending timer is due strictly in the future, so each timer fires exactly at its due minute.

The main results are:

- A harvested or collected row never becomes active again. Its id is never reused, even after the reaper deletes it.
- No reminder is ever sent about a retired row, although its timers keep running. This is stated by `Tick` and `FireTimers`, and proved by `Reminders.RetiredAreSilent`.
- The scheduler drops only due one-shot timers. It re-arms recurring timers one period later. Nothing cancels a timer.
- A harvest or collect is a compare-and-set. Of two attempts on the same row, at most the first succeeds.
- A reaction from a user retitles only the matching reminder. A repeated reaction changes nothing. The ✅ and 🔧 reactions never cross-match.
- A listing shows at most 10 active rows, newest first. An active row that is missing from the listing is never newer than a shown one.

## Model

| member | source | states |
|---|---|---|
| Entities.ReapPlants | src/main/java/de/russkaya/bot/RusskayaBot.java:565-566 | deletes exactly the plants harvested more than 7 days ago: every such plant is gone, anything gone was such a plant, and every kept row is unchanged; planted plants and plants harvested within 7 days stay |
| Entities.ReapPanels | src/main/java/de/russkaya/bot/RusskayaBot.java:568-569 | deletes exactly the panels collected more than 7 days ago; every kept row is unchanged; active panels and panels collected within 7 days stay |
| Entities.ReapIsIdempotent | src/main/java/de/russkaya/bot/RusskayaBot.java:562-570 | running the reaper twice at the same time deletes nothing more |
| Reminders.Decide | src/main/java/de/russkaya/bot/RusskayaBot.java:486-560 | a fertilizer reminder is sent iff the plant exists, is planted and is unfertilized; a repair or collection reminder is sent iff the panel exists and is active; the message is about the timer's row, goes to the timer's owner and location, shows the red fertilizer, orange repair or green battery embed by kind, and carries ✅, 🔧 or no reaction by kind |
| Reminders.FiredExactly | src/main/java/de/russkaya/bot/RusskayaBot.java:441-484 | a message is sent in a minute exactly when some timer due that minute decides to send it |
| Reminders.RetiredAreSilent | src/main/java/de/russkaya/bot/RusskayaBot.java:486-560 | no message fired in any minute is about a harvested, collected or deleted row |
| Reminders.RearmedExactly | src/main/java/de/russkaya/bot/RusskayaBot.java:441-484 | after a minute, every timer not yet due is still pending, every due recurring timer is pending one period later, and nothing else is pending |
| Reminders.RearmedCount | src/main/java/de/russkaya/bot/RusskayaBot.java:441-484 | the pending timers shrink by exactly the number of due one-shot timers |
| Reminders.FiredIgnoresReaper | src/main/java/de/russkaya/bot/RusskayaBot.java:562-570 | running the reaper before the timers fire changes nothing that is sent |
| Reactions.React | src/main/java/de/russkaya/bot/RusskayaBot.java:577-620 | bot reactions, custom emoji and non-matching titles leave the message as it was; a matching reaction replaces the embeds with the first one, retitled "✅ Erinnerung erledigt!" or "🔧 Repariert!" and green; the message's row, kind and reaction never change |
| Reactions.AcknowledgedIsFinal | src/main/java/de/russkaya/bot/RusskayaBot.java:596-615 | after a message has been acknowledged, no later reaction changes it |
| Reactions.ReactIsIdempotent | src/main/java/de/russkaya/bot/RusskayaBot.java:589-619 | the same reaction twice has the effect of once |
| Reactions.NoCrossMatch | src/main/java/de/russkaya/bot/RusskayaBot.java:590-618 | ✅ does not touch a repair reminder, 🔧 does not touch a fertilizer reminder, and no reaction touches a battery-ready message |
| Reactions.MatchingReactionAcknowledges | src/main/java/de/russkaya/bot/RusskayaBot.java:590-618 | a user's ✅ under a fertilizer reminder, or 🔧 under a repair reminder, does acknowledge it |
| Listings.PlantsStatus | src/main/java/de/russkaya/bot/RusskayaBot.java:334-362 | at most 10 rows, all planted plants of the table, newest first, no repeats; a planted plant left out means the page is full of plants no older than it; empty iff no plant is planted |
| Listings.SolarStatus | src/main/java/de/russkaya/bot/RusskayaBot.java:364-392 | the same for active panels ordered by placing time |
| Listings.SqlLimit | src/main/java/de/russkaya/bot/RusskayaBot.java:405-408 | SQLite LIMIT: a prefix of the ordered rows, of length n, or all rows when n is negative or large |
| Listings.Logs | src/main/java/de/russkaya/bot/RusskayaBot.java:394-430 | only plant events (seed, fertilize, harvest), newest first, no repeats, at most `anzahl` (default 10), none when `anzahl` <= 0; an event left out means the page is full of events no older than it |
| Listings.LogPage | src/main/java/de/russkaya/bot/RusskayaBot.java:405-428 | the first entries of the ordered log that the page loop reaches are events only, newest first, without repeats, and no event left out is newer than a shown one |
| Bot.FireDue | src/main/java/de/russkaya/bot/RusskayaBot.java:441-484 | one minute of the scheduler yields exactly the re-armed timers and the fired messages |
| Bot.RusskayaBot.constructor | src/main/java/de/russkaya/bot/RusskayaBot.java:432-437 | startup: empty tables, clock at 0, no timers, nothing sent |
| Bot.RusskayaBot.SeedPlant | src/main/java/de/russkaya/bot/RusskayaBot.java:175-205 | inserts a planted, unfertilized, unharvested row under an id larger than every existing one, and arms exactly two one-shot reminders at +35 and +55 minutes; nothing else changes |
| Bot.RusskayaBot.FertilizePlant | src/main/java/de/russkaya/bot/RusskayaBot.java:207-240 | succeeds iff the plant exists and is planted; on success only the fertilized mark changes (overwritten if already set), otherwise nothing changes |
| Bot.RusskayaBot.HarvestPlant | src/main/java/de/russkaya/bot/RusskayaBot.java:242-270 | compare-and-set from planted to harvested, with harvester, time and car; fails and changes nothing otherwise; fertilizing is not required and no timer is cancelled |
| Bot.RusskayaBot.PlaceSolar | src/main/java/de/russkaya/bot/RusskayaBot.java:272-302 | inserts an active row under a fresh id and arms one-shots at +30 and +50 minutes and a collection reminder every 2 hours from +2 hours |
| Bot.RusskayaBot.CollectSolar | src/main/java/de/russkaya/bot/RusskayaBot.java:304-332 | compare-and-set from active to collected, with collector, time and car; the recurring timer stays |
| Bot.RusskayaBot.Cleanup | src/main/java/de/russkaya/bot/RusskayaBot.java:562-575 | both tables are reaped at the current time; timers, counters and messages are untouched |
| Bot.RusskayaBot.Tick | src/main/java/de/russkaya/bot/RusskayaBot.java:432-484 | one minute: the reaper runs every 24 hours from startup, then the due timers fire; retired rows stay retired and get no message |
| Bot.RusskayaBot.FireTimers | src/main/java/de/russkaya/bot/RusskayaBot.java:486-560 | every due timer re-reads the current tables; sent messages are appended, and none is about a retired row |
| Bot.RusskayaBot.OnReactionAdd | src/main/java/de/russkaya/bot/RusskayaBot.java:577-620 | only the reacted-to message may change; tables, timers and clock never do; an unknown message is ignored |
| Bot.HarvestTwice | src/main/java/de/russkaya/bot/RusskayaBot.java:247-258 | a second harvest of the same plant always fails |
| Bot.CollectTwice | src/main/java/de/russkaya/bot/RusskayaBot.java:309-320 | a second collection of the same panel always fails; the first succeeds iff the panel is active |

## Left out

- Bootstrap and configuration are not modelled: JDA startup, command registration, command dispatch and environment variables (lines 35-38, 44-74, 120-173). They are I/O.
- Connection handling, DDL and statement closing are not modelled. The tables are maps, and the SQL guards are the methods' conditions.
- The `reminder_message_id` column is never written or read, so the model has no field for it.
- `PLANT_GROWTH_TIME` appears only in a reply text and is not modelled.
- Presentation is reduced. A reminder message keeps its title, its colour, its row, its owner, its location and the bot's own reaction. Descriptions, fields, command replies, date formatting and console logging are left out.
- Listings return the rows they show, not formatted text. Log entries carry the plant id, which the bot does not show.
- The ordering of result sets (`ORDER BY ... DESC`) is done by the database. The listing and log methods take the ordered result set as a parameter. `IsActivePlantResult`, `IsActivePanelResult` and `IsLogOrdering` describe it. Ties in timestamp may come in any order.
- Reminders are armed at the same minute as the INSERT. In the bot they are armed in the callback of the command reply, and not at all if that reply fails.
- Every id is assumed to come back from the INSERT. The bot falls back to id 0 when no generated key is returned.
- Sending always succeeds. The bot prints and swallows exceptions in timer callbacks, and JDA delivers asynchronously.
- All reminders go into one list of sent messages. In the bot each reminder goes to the channel where the creating command was issued.
- Concurrency is not modelled: the two-thread scheduler, races between a firing timer and a harvest or collect, and the non-atomic check-then-update of fertilizing. Firing is one sequential step per minute, in timer order, against one snapshot of the tables.
- Time is whole minutes. SQLite timestamps have second precision.
- Persistence across restarts is not modelled. The model starts with empty tables. In the bot the tables survive a restart, but the timers are lost.
- Ids and counters are unbounded integers. Java `int` overflow after 2^31 rows is not modelled.
- The `id` options of `/pflanze-düngen`, `/pflanze-ernten` and `/solar-sammeln` (lines 208, 243, 305) and the `anzahl` option of `/logs` (line 395) are read with `getAsInt()`. The model takes them as values already converted to a Java `int`. It does not model what that conversion does to a Discord integer outside the `int` range.
- The reaction listener finds its message by index into the sent reminders. Reactions on other messages, such as command replies, are outside the model. The retitle logic would leave those unchanged unless their title matched.

### Behaviours of the code kept as they are

A reader might expect the following to be otherwise. The model keeps them as the code has them:

- Harvesting or collecting does not cancel any timer. A panel's 2-hour collection reminder runs forever. It stays silent only because the row is re-checked at fire time.
- Fertilizing has no once-only guard. A second fertilize overwrites the mark.
- A reaction never writes to the tables.
