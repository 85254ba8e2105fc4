# Player-count monitor: a verified model of the polling loop

The bot polls a game-server status API every two minutes and posts to one chat
channel. Each tick it reads the clock, fetches the player count, capacity and
server name, and then applies three rules in a fixed order:

1. **Spike.** It appends `(now, count)` to a trailing history and keeps only the
   entries at most two minutes old. If the count is at least 4 above the oldest
   entry left, it posts a spike alert and resets the history to the current
   reading.
2. **Regular update.** If strictly more than fifteen minutes have passed since
   the last update, it posts the server name, `players / max` and an
   Online/Offline status, and restarts the fifteen-minute clock.
3. **Elder time.** If fewer than 3 players are online and no elder alert has
   been stamped yet, or the last one was more than fifteen minutes ago, it
   looks up the "Elder Time" role. If the role exists, it posts one of two alerts
   that mention the role and stamps the time.

When a fetch fails, nothing is posted and nothing changes.

The model is split into modules:

- `Decimal` writes an int the way Python's `str()` does and reads it back.
- `Scan` holds small string scanners.
- `Notifier` defines the three messages, their exact text, and decoders that
  recover a message from its text.
- `History` defines the two-minute window.
- `Rules` defines one tick as a pure function `Tick` and proves the rules about it.
- `Scheduler` has a `Monitor` class whose fields are the bot's globals
  (`history`, `last_regular_ping`, `last_elder_alert`). Its `Step` method
  updates them in place the way the loop body does and is proved equal to
  `Tick`. Its `Poll` method runs a finite sequence of ticks and is proved equal
  to `Run`.

Properties over whole runs are proved about `Run`:

- Any two status updates are more than fifteen minutes apart.
- Any two elder alerts are more than fifteen minutes apart, provided each
  elder stamp is no earlier than its tick's loop time.
- The history stays in time order, provided the loop's clock readings never
  go backwards.
- Every spike alert measures a real rise between two readings taken at most
  two minutes apart, provided the run starts with an empty history and the
  clock never goes backwards.

Time is an integer number of microseconds, the resolution of Python's
`datetime`. Two minutes is `120_000_000` and fifteen minutes is `900_000_000`.
The comparisons are exact.

`Scheduler.NoSpikeAtLoopCadence` proves one consequence of the rules as
written. The loop sleeps two minutes after the work of each tick. If the wall
clock does not step back and only one monitor task runs, any two ticks are
therefore more than two minutes apart by the clock the loop reads. At that
spacing, the prune always drops the previous reading before the spike check.
The oldest entry is then the current reading, the rise is 0, and no spike alert
is ever sent. The lemma takes the spacing as its precondition. It does not cover
a wall clock that steps back, or a second monitor task started by a later
ready event.

## Model

| member | source | states |
|---|---|---|
| `Decimal.IntToString` | main.py:45 | An int in a message is written as a minus sign exactly when it is negative, followed by decimal digits. The digits start with 0 only for 0 itself. |
| `Decimal.ReadIntString` | main.py:45 | Reading the written form of any int back, followed by any text that does not start with a digit, gives back that int and that text. |
| `Notifier.StatusWord` | main.py:46 | The status is "Online" exactly when more than 0 players are online, and "Offline" otherwise. |
| `Notifier.UpdateText` | main.py:43-48 | The status update starts with the css block and the server-name label. `Notifier.UpdateRoundTrip` and `Notifier.UpdateTextExample` fix the rest of the text. |
| `Notifier.UpdateRoundTrip` | main.py:43-48 | The status-update text determines the server name, the player count and the maximum, for any server name, including one with line breaks. The decoder accepts only the status word that matches the count. |
| `Notifier.UpdateTextExample` | main.py:43-48 | Ten of twenty players on server "Foo" are posted as exactly this text: the name line, the line "10 / 20" and the status line "Online", in a css block. |
| `Notifier.SpikeText` | main.py:52-56 | The spike alert starts with its fixed two-line head. `Notifier.SpikeRoundTrip` fixes the rest of the text. |
| `Notifier.SpikeRoundTrip` | main.py:52-56 | The spike-alert text determines the increase and the new count. |
| `Notifier.ElderText` | main.py:63-66 | The elder alert is the "completely empty" variant exactly when the count is 0. |
| `Notifier.ElderRoundTrip` | main.py:63-66 | The elder-alert text determines the role mention and the player count. |
| `Notifier.Render` | main.py:42-66 | The posted text of each kind of message opens with that kind's head, and an elder alert opens with the role mention. `Notifier.DecodeRender` shows that the text determines the message. |
| `Notifier.DecodeRender` | main.py:42-66 | Every status update, every spike alert, and every elder alert with a well-formed role mention is recovered from the text that is posted for it. |
| `Notifier.RenderInjective` | main.py:42-66 | Two different readable messages are never posted as the same text. Readable means every status update, every spike alert, and every elder alert whose mention is non-empty, starts with `<` and has no space. The messages may be of the same kind or of different kinds. |
| `History.Prune` | main.py:88 | The pruned history holds exactly the entries at most two minutes old, each as many times as in the input, in their original order. So it is the filter of the list. It is never longer than the input, and it keeps the last entry whenever that entry is in the window. |
| `History.Admit` | main.py:87-88 | After append and prune, the history is non-empty and ends with the current reading. It holds exactly the entries of the appended list that are still in the window, each as many times as there, in append order. So the oldest retained entry is determined. |
| `History.PruneKeepsAll` | main.py:88 | A history whose entries are all in the window is left unchanged by pruning. |
| `History.PruneDropsPrefix` | main.py:88 | On a history in time order, pruning removes entries only from the front. |
| `History.PruneChronological` | main.py:88 | Pruning keeps a history in time order. |
| `History.PruneIdempotent` | main.py:88 | Pruning twice at the same time is the same as pruning once. |
| `Rules.Tick` | main.py:80-105 | One pass of the loop body. Its contract states that a failed fetch posts nothing and leaves the state unchanged. For a successful reading, `Rules.TickSpikeRule`, `Rules.TickRegularRule`, `Rules.TickElderRule` and `Rules.TickOrder` state what it posts and how the state changes. |
| `Rules.TickSentBound` | main.py:90-105 | A tick posts at most three messages. |
| `Rules.TickOrder` | main.py:90-105 | Within a tick the messages come in the order spike, update, elder, and each kind appears at most once. |
| `Rules.TickSpikeRule` | main.py:91-95 | A spike alert is posted iff the count minus the oldest retained count is at least 4. It carries that difference and the count. Afterwards the history is the current reading alone, or else the pruned history. |
| `Rules.TickRegularRule` | main.py:98-100 | A status update with the reading is posted iff strictly more than fifteen minutes have passed since the last one. The update clock becomes now exactly then and is otherwise unchanged. |
| `Rules.TickElderRule` | main.py:103-105 | An elder alert is posted iff the count is below 3, no alert is stamped or the last stamp is more than fifteen minutes old, and the role exists. It carries the role's mention and the count. The stamp becomes the send time only when the alert is sent. |
| `Rules.TickWindow` | main.py:87-88 | After a successful reading, every history entry is at most two minutes old and the last entry is the current reading. |
| `Rules.TickHistoryFrom` | main.py:87-95 | A tick adds no history entry other than its own reading. |
| `Rules.TickSpikeFrom` | main.py:91-94 | A spike alert carries the current count and a rise of at least 4 over an entry that is at most two minutes old. That entry was in the history or is the current reading. |
| `Rules.TickNoSpikeWhenStale` | main.py:88-93 | When every earlier entry has fallen out of the window, no spike alert is posted. |
| `Rules.FirstReadingNoSpike` | main.py:87-93 | On the first reading there is no spike, and the history is that reading alone. |
| `Rules.NoImmediateRepeat` | main.py:91-105 | Repeating a tick at the same time with the same reading posts nothing, provided the elder stamp is not earlier than the tick. |
| `Rules.ScenarioSpike` | main.py:91-95 | From a history holding (t0, 10), a reading of 15 players one minute later posts a spike of 5 to 15 and resets the history to that reading. |
| `Rules.ScenarioRegularUpdate` | main.py:98-100 | Sixteen minutes after the last update, a reading of 10 of 20 players posts an update and restarts the update clock. The update's text is the one of `Notifier.UpdateTextExample`, with status "Online". |
| `Rules.ScenarioEmptyServer` | main.py:63-67 | An empty server with no elder alert yet posts the "completely empty" alert and stamps the send time. |
| `Scheduler.Monitor.constructor` | main.py:21-24 | At start the history is empty, no elder alert has been stamped, and the update clock is the start time. |
| `Scheduler.Monitor.SendElderAlert` | main.py:59-67 | The alert is posted and stamped with the send time only if the role exists. Otherwise nothing is posted and the stamp is unchanged. |
| `Scheduler.Monitor.CheckSpike` | main.py:86-95 | The spike check appends the reading and prunes. It posts a spike alert exactly when the count is at least 4 above the oldest entry left, and then resets the history to the current reading. |
| `Scheduler.Monitor.Step` | main.py:80-105 | The loop body's in-place updates to the history and both timestamps, and the messages it posts, are exactly those of `Tick`. |
| `Scheduler.Monitor.Poll` | main.py:79-110 | Running the loop body over a finite sequence of ticks gives `Run`'s final state and `Run`'s log. Each message in the log carries the time of its tick. |
| `Scheduler.RunLogBound` | main.py:79-110 | `Run` models the loop as a sequence of ticks, appending each tick's messages with that tick's time. A run of n ticks posts at most 3n messages. |
| `Scheduler.TickKeepsSettled` | main.py:87-95 | A tick no earlier than every history entry keeps the history in time order and not ahead of the clock. |
| `Scheduler.RunKeepsSettled` | main.py:79-95 | Over any run whose clock does not go backwards, the history stays in time order and is never ahead of the last tick. |
| `Scheduler.RegularUpdatesSpaced` | main.py:98-100 | Any two status updates of a run are more than fifteen minutes apart. |
| `Scheduler.ElderAlertsSpaced` | main.py:103-105 | Any two elder alerts of a run are more than fifteen minutes apart, provided each stamp is no earlier than its tick. |
| `Scheduler.RunHistoryObserved` | main.py:87-95 | Starting from an empty history, every history entry is a reading the run actually obtained. |
| `Scheduler.SpikesMeasureObservedRise` | main.py:87-95 | From a fresh start with a clock that does not go backwards, every spike alert reports its tick's reading and a rise of at least 4 over a reading taken at most two minutes earlier. |
| `Scheduler.NoSpikeWithoutRise` | main.py:91-94 | From a fresh start (empty history) with a clock that does not go backwards: if no reading in the run exceeds a reading at most two minutes older by 4 or more, no spike alert is posted. |
| `Scheduler.NoSpikeAtLoopCadence` | main.py:87-110 | From an empty history, as at startup (main.py:22): if every two ticks are more than two minutes apart, no spike alert is ever posted. |
| `Scheduler.FailedFetchesChangeNothing` | main.py:81-83 | A run in which every fetch fails posts nothing and leaves the state unchanged. |

## Left out

- The HTTP request and JSON extraction in `get_player_data` (main.py:27-39) are I/O. The model takes their result as an `Option<Reading>`: `None` for any failure, otherwise the players, the maximum and the name. A payload field of an unexpected type (for example a non-integer player count) is not modelled.
- The chat client is I/O and is not modelled: login, the ready handler, `get_channel`, `channel.send` and `client.run` (main.py:17-18, 72-77, 112-117). This includes the early return when the channel is not found (main.py:75-77). The model's output is the ordered list of messages posted, and `Notifier.Render` gives their exact text.
- The role lookup `discord.utils.get` (main.py:61) is a foreign call. It becomes the input `role: Option<string>`, which holds the role's mention text if the role exists.
- The clock is an input. `now` is the loop's reading (main.py:80). `sendTime` is the separate `utcnow()` reading that stamps the elder alert (main.py:67).
- `asyncio.sleep(120)` and the endless `while` loop (main.py:79, 110) are scheduling, not logic. `Monitor.Poll` runs a finite sequence of ticks. The two-minute spacing only appears as a precondition of `Scheduler.NoSpikeAtLoopCadence`.
- The keep-alive web server and the loading of secrets from the environment (main.py:5-15) are startup plumbing.
- `last_count` (main.py:21, 108) is written but never read, so it is not part of the state.
- An exception raised by `channel.send` would end the loop task. The model assumes every send returns.
- Concurrent monitor tasks are not modelled. `on_ready` (main.py:112-115) starts a new `monitor_players` task each time it fires. Two such tasks would share `history`, `last_regular_ping` and `last_elder_alert` and interleave at the awaits of main.py:94, 99 and 105. The model assumes one monitor task, and each tick runs as one atomic step.
- Notifier.ElderRoundTrip: proved only for mentions without a space, which holds for role mentions (`<@&id>`).
- Notifier.DecodeRender: proved only for elder alerts whose mention is non-empty, starts with `<` and has no space. Role mentions of the form `<@&id>` meet all three conditions.
- Notifier.RenderInjective: proved only under the same restriction on elder-alert mentions.
- Scheduler.ElderAlertsSpaced: assumes each elder stamp is no earlier than its tick's loop time. The source takes the stamp from a later clock reading, but the wall clock is not guaranteed to be monotonic.
