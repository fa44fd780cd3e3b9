# Luceam / Luma: a verified model of the app's core logic

This project models the parts of the Luceam (also called Luma) mood-room app whose behaviour can be stated exactly. Each part is proved against a contract.

- **Backend presence tracker** (`presence.service.ts`). The Redis keyspace is a `KeyStore.Store` class of maps:
  - room to participant set;
  - (room, window) to peak count;
  - (room, window) to the ids seen;
  - (room, user) to last-seen time;
  - the simulator's lock keys.

  `join`, `leave`, `count` and `updatePeak` are methods that change that store.
- **Backend presence simulator** (`presence.simulation.service.ts`). A class keeps the per-room driver states. The operations are:
  - start with its set-if-absent lock;
  - stop;
  - the tick body: the target computation, the `[min, targetMax]` clamp, adding `sim:` members in a loop, removing only `sim:` members, and the peak update.
- **Mood-room schedules.** For both `MoodRoom.swift` copies: close time, today's occurrence, and the joinability rule.
- **Codable mappings.** The client `MoodRoom` and the wire `NetworkMoodRoom`, as functions over a small JSON object model. This includes the text-colour codec and the session-token precedence.
- **Create-room form** (`CreateMoodRoomView`).
  - The schedule string is written and parsed back, and the two are proved to round-trip.
  - Also modelled: the duration-picker labels, the background index, name truncation, the weekday toggle and the Create guard.
- **Create-moment composer** (`CreateMomentView`): truncation, the counter and the Create guard.
- **The two `MockData` stores.**
- **`StatsStore` and what `StatsView` shows.** The statistics store is a class. The screen's sorted keys, key labels and duration strings are functions.
- **`MoodRoomView`**: the time-left line and the close decision.
- **The two client favourites stores**, and the backend favourites service.

Some inputs are parameters instead of being read inside the model:
- time, as integer seconds on the app side and milliseconds on the backend;
- the calendar, as a UTC offset and today's weekday name;
- random draws, as reals in `[0, 1)`;
- the easing curve's value;
- the create form's `HH:mm` time parser;
- the order in which Redis lists a set;
- the server's answers.

Several functions are checked against a partner. Examples:
- the duration strings against a reader, `DurationText.ReadDuration`;
- the schedule writer against the schedule reader;
- encoders against decoders;
- toggles against themselves.

## Model

| member | source | states |
|---|---|---|
| Arith.RoundDown | backend/src/presence/presence.service.ts:36 | `now - now % period` is the multiple of the period at or just below `now` |
| Presence.WindowStart | backend/src/presence/presence.service.ts:35-38 | the window start is a multiple of the rollup period with `w <= now < w + period` |
| Presence.WindowStartUnique | backend/src/presence/presence.service.ts:35-38 | exactly one multiple of the period has `now` in its window, so the window key is well defined |
| Presence.WindowStartOf | backend/src/presence/presence.service.ts:35-38 | `now - now % period` with JavaScript's sign-of-dividend remainder gives, for any nonzero period, the window of the period's magnitude |
| Presence.SameWindow | backend/src/presence/presence.service.ts:35-38 | all instants inside one window map to the same window start |
| Presence.PresenceService.constructor | backend/src/presence/presence.service.ts:14-16 | the rollup period is the configured seconds times 1000, for any integer setting (zero and negative included) |
| Presence.PresenceService.Join | backend/src/presence/presence.service.ts:40-54 | with a zero period the join fails with a RangeError (the window timestamp cannot be built) before writing anything; otherwise the user is added, the timestamp and the seen id are recorded in the window of `WindowStartOf`, the count returned is the new cardinality (at least 1, the user a member), and that window's peak is raised to the count; the locks are untouched in both cases |
| Presence.JoinedAllMembers | backend/src/presence/presence.service.ts:45-51 | a series of joins leaves the room's set equal to the old set plus the users who joined; other rooms are unchanged |
| Presence.JoinDistinctCount | backend/src/presence/presence.service.ts:45-51 | n joins of distinct users into an empty room leave n members |
| Presence.JoinOrderIrrelevant | backend/src/presence/presence.service.ts:45-46 | the members after a series of joins depend only on the set of users who joined |
| Presence.JoinIdempotent | backend/src/presence/presence.service.ts:46 | joining the same user twice leaves the same set as joining once, so the count does not change |
| Presence.PresenceService.Leave | backend/src/presence/presence.service.ts:56-61 | the user is removed and the new cardinality returned; peaks, seen ids, timestamps and locks are untouched |
| Presence.LeaveAbsent | backend/src/presence/presence.service.ts:58 | leaving a room one is not in, or an unknown room, changes no member set |
| Presence.PresenceService.Count | backend/src/presence/presence.service.ts:63-67 | the count is the room's cardinality, 0 for an unknown room, and nothing changes |
| Presence.PresenceService.UpdatePeak | backend/src/presence/presence.service.ts:69-75 | the stored peak becomes the larger of the old peak (0 when missing) and the count; nothing else changes |
| Presence.PeakNeverDecreases | backend/src/presence/presence.service.ts:69-75 | a peak update never lowers any window's peak, and its own window ends at or above the count |
| Presence.JoinLeaveScenario | backend/src/presence/presence.service.ts:40-67 | joining u1 then u2, counting, then u1 leaving, gives `Joined(1)`, `Joined(2)`, 2, 1 |
| KeyStore.Added | backend/src/presence/presence.service.ts:46 | `sadd` adds one member to one room's set and leaves the other rooms alone |
| KeyStore.Removed | backend/src/presence/presence.service.ts:58 | `srem` removes the given members from one room's set; an unknown room stays absent |
| KeyStore.Raised | backend/src/presence/presence.service.ts:71-74 | the read-compare-write raises only its own key, to the maximum of the old value and the count |
| KeyStore.Fed | backend/src/presence/presence.service.ts:49 | `pfadd` (as an exact set) records the id for its window only |
| KeyStore.Store.SAdd | backend/src/presence/presence.service.ts:46 | the store after `sadd` is `Added` of the old one; the other maps are unchanged |
| KeyStore.Store.SRem | backend/src/presence/presence.service.ts:58 | the store after `srem` is `Removed` of the old one; the other maps are unchanged |
| KeyStore.Store.SCard | backend/src/presence/presence.service.ts:51 | `scard` is the size of the room's set |
| KeyStore.Store.PfAdd | backend/src/presence/presence.service.ts:49 | `pfadd` feeds the window's seen set; the other maps are unchanged |
| KeyStore.Store.SetTimestamp | backend/src/presence/presence.service.ts:48 | the user's timestamp key is set to `now`; the other maps are unchanged |
| KeyStore.Store.GetPeak | backend/src/presence/presence.service.ts:71 | a missing peak key reads as 0 |
| KeyStore.Store.SetPeak | backend/src/presence/presence.service.ts:73 | one peak key is written; the other maps are unchanged |
| KeyStore.Store.SetLockIfAbsent | backend/src/presence/presence.simulation.service.ts:73 | `SET NX`: the lock is acquired exactly when it was absent, and is held afterwards either way |
| KeyStore.Store.DeleteLock | backend/src/presence/presence.simulation.service.ts:133 | `del` of the lock key; the other maps are unchanged |
| Simulation.Enabled | backend/src/presence/presence.simulation.service.ts:13-15 | an unset setting enables the simulator |
| Simulation.EnabledUnlessFalse | backend/src/presence/presence.simulation.service.ts:13-15 | the simulator is off exactly when the setting is the string `false`; unset, `true` and `FALSE` all enable it |
| Simulation.RandomInt | backend/src/presence/presence.simulation.service.ts:66-68 | `floor(u * (max - min + 1)) + min` lies in `[min, max]` for every draw `u` in `[0, 1)` |
| Simulation.RampTarget | backend/src/presence/presence.simulation.service.ts:87-90 | during the ramp the target lies in `[min, targetMax]` for every eased value in `[0, 1]` |
| Simulation.DecayTarget | backend/src/presence/presence.simulation.service.ts:91-93 | after the ramp the target is at least `min` and at most the larger of `min` and the current count |
| Simulation.Clamp | backend/src/presence/presence.simulation.service.ts:95 | the clamped target is at least `min`, at most `targetMax` when `min <= targetMax`, and unchanged when it already lies inside |
| Simulation.NextTarget | backend/src/presence/presence.simulation.service.ts:86-95 | ramp or decay, then jitter and clamp, give a target in `[min, targetMax]` |
| Simulation.SimMemberIsSim | backend/src/presence/presence.simulation.service.ts:99 | every member the simulator makes carries the `sim:` prefix |
| Simulation.SimMemberInjective | backend/src/presence/presence.simulation.service.ts:99 | distinct numbers give distinct `sim:` names |
| Simulation.SimRangeFacts | backend/src/presence/presence.simulation.service.ts:97-100 | the upward loop names exactly `diff` members, all with the `sim:` prefix |
| Simulation.SimRangeBelow | backend/src/presence/presence.simulation.service.ts:98-99 | the names are numbered `current + 1` to `current + diff` |
| Simulation.Filter | backend/src/presence/presence.simulation.service.ts:109 | the filter keeps exactly the listed `sim:` members |
| Simulation.FirstSims | backend/src/presence/presence.simulation.service.ts:108-111 | the batch is the first `min(n, number of sims)` sim members of the listing, in listing order, each of them listed |
| Simulation.FilterDistinct | backend/src/presence/presence.simulation.service.ts:108-109 | filtering a duplicate-free listing keeps it duplicate-free and yields every sim member of the set |
| Simulation.FirstSimsFacts | backend/src/presence/presence.simulation.service.ts:108-111 | the removed batch holds only sim members, and as many as `-diff` or as many as there are, whichever is fewer |
| Simulation.UpwardMoves | backend/src/presence/presence.simulation.service.ts:97-106 | an upward tick keeps every member and ends between the old count and the target |
| Simulation.DownwardMoves | backend/src/presence/presence.simulation.service.ts:107-113 | a downward tick removes only sim members, keeps every real member, removes at most `-diff`, and ends at or above the target |
| Simulation.StayMoves | backend/src/presence/presence.simulation.service.ts:96-113 | with `diff == 0` the set is unchanged |
| Simulation.TickResult | backend/src/presence/presence.simulation.service.ts:96-113 | a tick never touches a real member; an upward tick only adds and any other tick only removes |
| Simulation.RemovingSimsMoves | backend/src/presence/presence.simulation.service.ts:107-113 | taking away `min(sims, size - target)` sim members moves a room toward a lower target |
| Simulation.TickResultMoves | backend/src/presence/presence.simulation.service.ts:96-113 | whatever the sign of `diff`, the tick moves the set toward the target without removing a real member |
| Simulation.PresenceSimulator.constructor | backend/src/presence/presence.simulation.service.ts:10-11 | the simulator starts with no running rooms |
| Simulation.PresenceSimulator.StartForMoment | backend/src/presence/presence.simulation.service.ts:70-124 | disabled or already locked: nothing changes; otherwise the lock is taken and a state with `targetMax` in `[min, max]` and the start time is recorded; presence data is untouched |
| Simulation.PresenceSimulator.StopForMoment | backend/src/presence/presence.simulation.service.ts:126-134 | the room's state is dropped and its lock deleted, whether or not it was running |
| Simulation.PresenceSimulator.AddSims | backend/src/presence/presence.simulation.service.ts:97-106 | the loop adds exactly the names `sim:current+1` to `sim:current+n` to the room and to the window's seen set; other rooms and windows are unchanged |
| Simulation.PresenceSimulator.RemoveSims | backend/src/presence/presence.simulation.service.ts:107-113 | `srem` of the chosen sims from the room alone |
| Simulation.PresenceSimulator.RaisePeak | backend/src/presence/presence.simulation.service.ts:115-121 | the window's peak is raised to the count, as in the presence tracker |
| Simulation.PresenceSimulator.MoveToward | backend/src/presence/presence.simulation.service.ts:96-121 | the room's set becomes the tick result, the sims an upward tick adds are fed to the window's seen ids and nothing else is fed (`SeenFed`), other rooms are unchanged, and the window's peak is raised to the new count |
| Simulation.PresenceSimulator.Approach | backend/src/presence/presence.simulation.service.ts:96-113 | the add loop or the filtered removal: the tick result, with the seen ids fed as in `SeenFed`; peaks untouched |
| Simulation.PresenceSimulator.Aim | backend/src/presence/presence.simulation.service.ts:86-95 | the target is `NextTarget` of the state, the count, the eased value and the jitter drawn from `[-1, 1]` |
| Simulation.PresenceSimulator.Tick | backend/src/presence/presence.simulation.service.ts:77-122 | past `maxDuration` the lock and state are deleted and presence data is untouched; otherwise the target is `NextTarget`; with a nonzero period the set becomes the tick result, moving toward the target without removing a real member, the new sims are fed to the window's seen ids (`SeenFed`) and the window's peak is raised; with a zero period the tick fails at the first use of the window key, after at most one `sadd` (upward) or the whole `srem` (downward), with no peak or seen id written |
| Simulation.PresenceSimulator.Step | backend/src/presence/presence.simulation.service.ts:96-121 | the same outcome once the target is known |
| Simulation.PresenceSimulator.FailedTick | backend/src/presence/presence.simulation.service.ts:97-113 | what a tick writes before the window key throws: one `sadd` of `sim:current+1` upward, the whole removal downward, and nothing else |
| Simulation.StartTwiceOneDriver | backend/src/presence/presence.simulation.service.ts:73-74 | a second start on a running room keeps the first driver's state |
| Simulation.StopThenStart | backend/src/presence/presence.simulation.service.ts:126-134 | after a stop, a start takes the lock again and records a fresh state |
| MoodRooms.CloseTime | Luma/Luma/MoodRoom.swift:35 | the close time is not before the start for a non-negative duration, and after it for a positive one |
| MoodRooms.IsOnce | Luma/Luma/MoodRoom.swift:39 | the `once` test holds exactly when the first four characters, lower-cased, are `once` |
| MoodRooms.IsEvery | Luma/Luma/MoodRoom.swift:65 | the `every ` test holds exactly when the first six characters, lower-cased, are `every ` |
| MoodRooms.CurrentStartTime | Luma/Luma/MoodRoom.swift:38-46 | a `once` room starts at its own start; any other starts today, at most a minute before the start's time of day (the seconds are zeroed), and before the next midnight |
| MoodRooms.CurrentCloseTime | Luma/Luma/MoodRoom.swift:49-51 | a `once` room closes at its close time; no occurrence closes before it starts for a non-negative duration |
| MoodRooms.ExcludedToday | Luma/Luma/MoodRoom.swift:65-78 | only an `every ` schedule, never a `once` one, can be excluded by its weekday list. The test uses three helpers: `DayTokens` (the comma pieces of the day list, trimmed and lower-cased, lines 67-68), `TokenMatches` (a token starting with today's full or three-letter name, lines 71-74) and `AnyMatches` (`contains(where:)`, line 73) |
| MoodRooms.IsJoinable | Luma/Luma/MoodRoom.swift:54-85 | a joinable room is inside its current occurrence, both ends included, and not excluded today |
| MoodRooms.DayStart | Luma/Luma/MoodRoom.swift:40-45 | the local midnight before `now`, less than a day earlier |
| MoodRooms.TimeOfDay | Luma/Luma/MoodRoom.swift:41 | the local time of day is in `[0, 86400)` |
| MoodRooms.OnceOccurrence | Luma/Luma/MoodRoom.swift:35-39 | a `once` schedule occurs at its own start, and its close time is start plus `durationMinutes * 60` |
| MoodRooms.RepeatingOccurrence | ios-app/Luceam/MoodRoom.swift:41-54 | any other schedule occurs today at the start's hour and minute with seconds zeroed, and closes `durationMinutes * 60` later |
| MoodRooms.OnceJoinable | Luma/Luma/MoodRoom.swift:59-61 | a `once` schedule (any case) is joinable exactly when `startTime <= now <= closeTime` |
| MoodRooms.DaysPart | Luma/Luma/MoodRoom.swift:66-67 | the day list sits between `Every ` and the first ` at `, and there is none without ` at ` |
| MoodRooms.LowerTokens | Luma/Luma/MoodRoom.swift:68 | each comma piece is trimmed of spaces and lower-cased |
| MoodRooms.ShortNameMatches | Luma/Luma/MoodRoom.swift:70-75 | a token that starts with today's three-letter name, in any case, matches today |
| MoodRooms.NotTodayNotJoinable | Luma/Luma/MoodRoom.swift:65-79 | an `every ... at ...` schedule with day tokens, none matching today, is never joinable |
| MoodRooms.EveryIsNotOnce | Luma/Luma/MoodRoom.swift:59-65 | an `every ` schedule never takes the `once` branch |
| MoodRooms.TodayJoinable | Luma/Luma/MoodRoom.swift:81-84 | a repeating schedule not excluded today is joinable exactly inside today's window, both ends included |
| MoodRooms.DailyHasNoWeekdayFilter | ios-app/Luceam/MoodRoom.swift:84-87 | a schedule that is neither `once` nor `every ` (such as `Daily at 22:00`) ignores the weekday |
| MoodRooms.NoTokensNoFilter | Luma/Luma/MoodRoom.swift:69 | an `every` schedule whose day list has no tokens ignores the weekday |
| MoodRooms.DaysPartAsWritten | Luma/Luma/MoodRoom.swift:66-67 | the slice as written traps exactly when ` at ` starts before index 6 |
| MoodRooms.EveryAtTraps | Luma/Luma/MoodRoom.swift:65-67 | `Every at 10:00` passes the `every ` test and reaches the trapping slice |
| MoodRooms.DaysPartCorrected | ios-app/Luceam/MoodRoom.swift:68-70 | the corrected day list agrees with the slice wherever the slice is valid, and is empty, with no tokens, where it traps |
| RoomCodec.DecodeString | ios-app/Luceam/MoodRoom.swift:98-101 | a required string field decodes exactly when present as a string |
| RoomCodec.DecodeInt | ios-app/Luceam/MoodRoom.swift:106 | a required integer field decodes exactly when present as an integer |
| RoomCodec.DecodeStringIfPresent | ios-app/Luceam/MoodRoom.swift:107 | an optional field is none when missing or null, its string when a string, and an error otherwise |
| RoomCodec.EncodeIfPresent | ios-app/Luceam/MoodRoom.swift:120 | an optional field is written only when present |
| RoomCodec.DecodeHead | ios-app/Luceam/MoodRoom.swift:98-101 | id, name, schedule and background decode exactly when all four are strings, and give those strings |
| RoomCodec.DecodeTail | ios-app/Luceam/MoodRoom.swift:104-106 | the two times and the duration decode exactly when all three are integers, and give those integers |
| RoomCodec.DecodeCore | ios-app/Luceam/MoodRoom.swift:96-106 | the room decodes exactly when every required field decodes |
| RoomCodec.EncodeCore | ios-app/Luceam/MoodRoom.swift:110-119 | the encoding holds exactly the seven required keys and decodes to the same fields |
| RoomCodec.DecodeEncodeCore | ios-app/Luceam/MoodRoom.swift:110-119 | any object holding the encoded fields decodes to the same fields |
| RoomCodec.ColorFromString | ios-app/Luceam/MoodRoom.swift:102-103 | `white` in any case decodes to white, anything else to black |
| RoomCodec.ColorToString | ios-app/Luceam/MoodRoom.swift:116 | white encodes as `white`, every other colour as `black` |
| RoomCodec.ColorRoundTrip | ios-app/Luceam/MoodRoom.swift:102-116 | decoding an encoded colour gives white for white and black for the rest, and encoding again is stable |
| RoomCodec.DecodeRoom | ios-app/Luceam/MoodRoom.swift:96-108 | a room decodes exactly when the required fields, the optional colour and the optional token all decode; the fields and token are the decoded ones, and the colour is the decoded string's colour, black when it is missing or null |
| RoomCodec.ColorCheckedBeforeTimes | ios-app/Luceam/MoodRoom.swift:102 | a text colour of the wrong type is the reported error even when a later field is missing, in both decoders |
| RoomCodec.EncodeRoom | ios-app/Luceam/MoodRoom.swift:110-121 | the colour is always written, and the session token only when present |
| RoomCodec.RoomRoundTrip | ios-app/Luceam/MoodRoom.swift:96-121 | decode after encode gives back every field, the colour reduced to white or black |
| RoomCodec.MissingColorIsBlack | ios-app/Luceam/MoodRoom.swift:102-103 | a missing or null `textColor` decodes as black |
| RoomCodec.EncodeNetwork | ios-app/Luma/Services/MoodRoomService.swift:63-74 | the wire encoding never writes `session`, and writes `sessionToken` only when present |
| RoomCodec.DecodeToken | ios-app/Luma/Services/MoodRoomService.swift:53-60 | a top-level token string is taken; with neither key the token is nil; a token found comes from the top level or from the `session` object |
| RoomCodec.DecodeNetwork | ios-app/Luma/Services/MoodRoomService.swift:43-61 | a wire room decodes exactly when the required fields, the required colour string and the token decode, and gives those values |
| RoomCodec.TokenPrecedence | ios-app/Luma/Services/MoodRoomService.swift:53-60 | a top-level token wins; failing that, a `session` object's `token` is used; with neither the token is nil; a `session` that is not an object is an error |
| RoomCodec.NetworkRoundTrip | ios-app/Luma/Services/MoodRoomService.swift:43-74 | decode after encode gives back every field of a wire room |
| RoomCodec.FromNetwork | ios-app/Luma/Services/MoodRoomService.swift:95-103 | the fetched colour is white exactly when the lower-cased string is `white`; the other fields are copied |
| RoomCodec.ToNetwork | ios-app/Luma/Services/MoodRoomService.swift:112-120 | a posted room sends `white` or `black` and a nil session token; the other fields are copied |
| RoomCodec.PostEchoRoundTrip | ios-app/Luma/Services/MoodRoomService.swift:112-132 | a room posted and echoed back unchanged returns as itself, with the colour normalised and no token |
| CreateMoodRoom.SortedFrom | Luma/Luma/CreateMoodRoomView.swift:220 | `selectedWeekdays.sorted()`: each selected index once, in increasing order |
| CreateMoodRoom.DayNames | Luma/Luma/CreateMoodRoomView.swift:220 | each index is replaced by its short weekday name |
| CreateMoodRoom.FormatSchedule | Luma/Luma/CreateMoodRoomView.swift:219-224 | a recurring schedule starts with `Every `, any other with `Once at `, and both end with ` at ` and the time string |
| CreateMoodRoom.FormattedParts | Luma/Luma/CreateMoodRoomView.swift:219-221 | a written recurring schedule starts with `Every `, has its first ` at ` right after the day list, and ends with the time string |
| CreateMoodRoom.TrimAll | Luma/Luma/CreateMoodRoomView.swift:72 | every comma piece is trimmed of spaces |
| CreateMoodRoom.ParseSchedule | Luma/Luma/CreateMoodRoomView.swift:68-82 | recurring exactly for an `Every ` prefix (case kept); the days are weekday indices, present only with a time string; a time string exists exactly for a recurring schedule holding ` at `, and the schedule ends with ` at ` and it |
| CreateMoodRoom.KnownIndicesSound | Luma/Luma/CreateMoodRoomView.swift:73 | every index kept is a weekday index whose name is among the tokens: unknown names are dropped |
| CreateMoodRoom.KnownIndicesComplete | Luma/Luma/CreateMoodRoomView.swift:73 | every weekday name among the tokens gives its weekday index |
| CreateMoodRoom.SplitTrimNames | Luma/Luma/CreateMoodRoomView.swift:72 | splitting the joined names on commas and trimming gives the names back |
| CreateMoodRoom.IndicesOfNames | Luma/Luma/CreateMoodRoomView.swift:73-74 | the indices read back from the sorted names are the selected set |
| CreateMoodRoom.FormatParseRoundTrip | Luma/Luma/CreateMoodRoomView.swift:68-74 | parsing a written recurring schedule gives recurring, the same weekday set (the empty set included) and the same time string |
| CreateMoodRoom.OnceParsesOnce | Luma/Luma/CreateMoodRoomView.swift:80-82 | a written `Once at` schedule parses as non-recurring with no days |
| CreateMoodRoom.IndicesBelowSeven | Luma/Luma/CreateMoodRoomView.swift:73 | any schedule parses to weekday indices in `0..6` |
| CreateMoodRoom.ReopenShowsDays | Luma/Luma/CreateMoodRoomView.swift:59-74 | editing a room saved by the form shows the same recurring flag and weekdays |
| CreateMoodRoom.DurationOptions | Luma/Luma/CreateMoodRoomView.swift:173 | the picker offers 15, 30, ..., 180 minutes |
| CreateMoodRoom.DurationLabel | Luma/Luma/CreateMoodRoomView.swift:174-184 | from an hour on the label starts with the hours and `h`; it ends with the minutes and `min` unless it is a whole number of hours |
| CreateMoodRoom.DurationLabels | Luma/Luma/CreateMoodRoomView.swift:173-184 | the twelve labels, from `15min` to `3h` |
| CreateMoodRoom.DurationLabelReadsBack | Luma/Luma/CreateMoodRoomView.swift:174-184 | every label reads back as its number of minutes |
| CreateMoodRoom.WholeHoursLabel | Luma/Luma/CreateMoodRoomView.swift:177-178 | a whole number of hours is written `Hh` and reads back |
| CreateMoodRoom.MixedLabel | Luma/Luma/CreateMoodRoomView.swift:179-180 | hours and minutes are written `Hh Mmin` and read back |
| CreateMoodRoom.MinutesLabel | Luma/Luma/CreateMoodRoomView.swift:182-183 | under an hour is written `Mmin` and reads back |
| CreateMoodRoom.DurationLabelWholeHours | Luma/Luma/CreateMoodRoomView.swift:176-181 | a label lacks the `min` suffix exactly when it is a whole number of hours, at least one |
| CreateMoodRoom.BackgroundIndex | Luma/Luma/CreateMoodRoomView.swift:61 | the first index of the background in the list, or 0 when it is not there |
| CreateMoodRoom.CreateDisabledIff | Luma/Luma/CreateMoodRoomView.swift:245 | Create is disabled exactly when the name is all whitespace or newlines, or empty |
| CreateMoodRoom.Form.constructor | Luma/Luma/CreateMoodRoomView.swift:50-85 | a new form is empty with 15 minutes and black text; an edited room fills the name, background index, colour, duration, recurring flag and weekdays from the room and its parsed schedule, and the time from the text after ` at ` when the `HH:mm` parser accepts it, otherwise from the room's start |
| CreateMoodRoom.Form.Schedule | Luma/Luma/CreateMoodRoomView.swift:215-224 | the schedule the Create/Update button writes ends with ` at ` and the time string, and reads back as the form's recurring flag, its weekdays and the time string, or, for a once-off room, as not recurring with no days |
| CreateMoodRoom.Form.NameChanged | Luma/Luma/CreateMoodRoomView.swift:119-123 | a name longer than 100 keeps its first 100 characters, a shorter one is kept, and nothing else changes |
| CreateMoodRoom.Form.CharactersLeft | Luma/Luma/CreateMoodRoomView.swift:131 | the counter and the name length add up to 100 |
| CreateMoodRoom.Form.ToggleWeekday | Luma/Luma/CreateMoodRoomView.swift:144-149 | exactly one weekday's membership flips |
| CreateMoment.Composer.constructor | ios-app/Luma/CreateMomentView.swift:8 | the composer holds the bound text |
| CreateMoment.Composer.TextChanged | ios-app/Luma/CreateMomentView.swift:53-57 | a text longer than 100 is cut to its first 100 characters, a shorter one is kept |
| CreateMoment.TakeIdempotent | ios-app/Luma/CreateMomentView.swift:53-57 | cutting a cut text changes nothing, and the counter is then never negative |
| CreateMoment.Composer.CharactersLeft | ios-app/Luma/CreateMomentView.swift:69 | the counter is `100 - count`, below zero only for a text over the limit |
| CreateMoment.DisabledIffBlank | ios-app/Luma/CreateMomentView.swift:86 | Create is disabled exactly for empty or all-blank text |
| CreateMoment.Composer.Create | ios-app/Luma/CreateMomentView.swift:79-85 | the trimmed text is handed on exactly when a session token exists; for enabled text it is non-empty and has no blank at either end |
| MockData.RoomIndex | ios-app/Luma/MockData.swift:67 | `firstIndex(where:)`: the first room with the id, or none |
| MockData.FirstEvent | ios-app/Luma/MockData.swift:94-96 | `first(where:)`: a found event has the id and no earlier event has it; none exactly when no event has it |
| MockData.Store.constructor | ios-app/Luma/MockData.swift:36 | the user's list starts empty |
| MockData.Store.MoodRoomList | ios-app/Luma/MockData.swift:38-40 | the user's rooms come first, then the presets |
| MockData.Store.AddMoodRoom | ios-app/Luma/MockData.swift:43-57 | the new room is put at the front of the user's list |
| MockData.InsertShifts | ios-app/Luma/MockData.swift:49-56 | after the insertion every old room sits one place later |
| MockData.Store.UpdateMoodRoom | ios-app/Luma/MockData.swift:60-77 | the user's list becomes `Updated` of the old list; events and presets are unchanged |
| MockData.UpdateFacts | ios-app/Luma/MockData.swift:67-76 | only the first room with the id is replaced, keeping its id and creation time; with no match the list is as before |
| MockData.Store.DeleteMoodRoom | ios-app/Luma/MockData.swift:80-84 | the user's list becomes `Deleted` of the old list |
| MockData.DeleteFacts | ios-app/Luma/MockData.swift:80-84 | only the first match is removed and the rest close up; with no match the list is as before |
| MockData.DeleteCount | ios-app/Luma/MockData.swift:80-84 | a delete removes exactly one room with that id |
| MockData.Store.AddEvent | ios-app/Luma/MockData.swift:87-91 | exactly one event, the one returned, is appended |
| MockData.AddedEventFound | ios-app/Luma/MockData.swift:87-96 | an added event with a fresh id is found by its id |
| MockData.AddKeepsLookups | ios-app/Luma/MockData.swift:89-95 | appending never changes what an existing id finds |
| LumaMockData.MaxId | Luma/Luma/MockData.swift:11 | the largest id, or 0 for no events |
| LumaMockData.FirstEvent | Luma/Luma/MockData.swift:17-19 | `first(where:)`: a found event has the id and no earlier event has it; none exactly when no event has it |
| LumaMockData.Store.constructor | Luma/Luma/MockData.swift:4-8 | the store holds the given seed events |
| LumaMockData.Store.AddEvent | Luma/Luma/MockData.swift:10-15 | the new id is the maximum plus one, above every earlier id; one event is appended and the earlier ones are unchanged |
| LumaMockData.NewIdFound | Luma/Luma/MockData.swift:10-19 | after `addEvent`, looking up the returned id finds the new event |
| LumaMockData.FreshFound | Luma/Luma/MockData.swift:12-18 | an event whose id is above all others is found after it is appended |
| LumaMockData.SeededNextId | Luma/Luma/MockData.swift:4-19 | a store holding the three seed events gives the next event id 4, and `event(id: 4)` then finds it |
| Stats.IsRecurring | Luma/Luma/Services/StatsStore.swift:36 | a schedule is recurring exactly when its lower-cased text contains `every` or `daily` somewhere |
| Stats.Kind | Luma/Luma/Services/StatsStore.swift:37 | the kind is `recurring` exactly for a recurring schedule and `once` otherwise, so it never holds a dash |
| Stats.MoodKey | Luma/Luma/Services/StatsStore.swift:36-37 | the key is the background, a dash, then `recurring` or `once` |
| Stats.EveryIsRecurring | Luma/Luma/Services/StatsStore.swift:36 | every `Every ...` schedule counts as recurring |
| Stats.WrittenRecurringIsRecurring | Luma/Luma/Services/StatsStore.swift:36 | every recurring schedule the create form writes counts as recurring |
| Stats.Accumulated | Luma/Luma/Services/StatsStore.swift:43-45 | `dict[key, default: 0] += delta` adds the delta to that key alone |
| Stats.AccumulateCommutes | Luma/Luma/Services/StatsStore.swift:40-49 | the totals do not depend on the order in which sessions end |
| Stats.OrZero | Luma/Luma/Services/StatsStore.swift:16 | a missing saved number reads as 0 |
| Stats.OrEmpty | Luma/Luma/Services/StatsStore.swift:17 | a missing saved dictionary reads as empty |
| Stats.Tracker.constructor | Luma/Luma/Services/StatsStore.swift:15-20 | the totals and counters are what was saved, and nothing is running |
| Stats.Tracker.StartMoment | Luma/Luma/Services/StatsStore.swift:22-24 | records the moment's start and nothing else |
| Stats.Tracker.EndMoment | Luma/Luma/Services/StatsStore.swift:26-32 | no start: nothing changes; otherwise the elapsed time is added, only that saved field is rewritten, and the start is cleared |
| Stats.Tracker.StartMoodRoom | Luma/Luma/Services/StatsStore.swift:34-38 | records the start and the room's key |
| Stats.Tracker.EndMoodRoom | Luma/Luma/Services/StatsStore.swift:40-49 | with no start or no key nothing changes; otherwise the elapsed time is added to that key alone, only the saved dictionary is rewritten, and start and key are cleared, so a second end is a no-op |
| Stats.Tracker.RecordMomentCreated | Luma/Luma/Services/StatsStore.swift:51-54 | the moment counter goes up by one, and only that saved field is rewritten |
| Stats.Tracker.RecordMoodRoomCreated | Luma/Luma/Services/StatsStore.swift:56-59 | the room counter goes up by one, and only that saved field is rewritten |
| Stats.MomentCountedOnce | Luma/Luma/Services/StatsStore.swift:22-32 | start, end, end again: the moment is counted once |
| Stats.MoodRoomSession | Luma/Luma/Services/StatsStore.swift:34-49 | a session is added to its key once, and a relaunch reads the same totals |
| DurationText.ReadHoursMinutes | Luma/Luma/StatsView.swift:75 | `Hh Mmin` reads back as `60h + m` minutes |
| DurationText.ReadHoursOnly | Luma/Luma/CreateMoodRoomView.swift:178 | `Hh` reads back as `60h` minutes |
| DurationText.ReadMinutesOnly | Luma/Luma/StatsView.swift:77 | `Mmin` reads back as `m` minutes |
| StatsView.BelowIrreflexive | Luma/Luma/StatsView.swift:59 | no key sorts before itself |
| StatsView.BelowTransitive | Luma/Luma/StatsView.swift:59 | the string order is transitive |
| StatsView.BelowTotal | Luma/Luma/StatsView.swift:59 | any two different keys are ordered one way or the other |
| StatsView.LeastExists | Luma/Luma/StatsView.swift:59 | a non-empty set of keys has a least member |
| StatsView.LeastUnique | Luma/Luma/StatsView.swift:59 | and only one |
| StatsView.SortedSet | Luma/Luma/StatsView.swift:59 | `sorted()`: every member once, strictly ascending |
| StatsView.SortedMoodKeys | Luma/Luma/StatsView.swift:58-60 | the dictionary's keys, each once, in ascending order |
| StatsView.AscendingUnique | Luma/Luma/StatsView.swift:58-60 | only one ascending listing has those members, so the shown order does not depend on the dictionary's order |
| StatsView.PrettyMoodKey | Luma/Luma/StatsView.swift:62-68 | a key that does not split into exactly two dash-separated parts is shown as it is; otherwise as its first part with ` (recurring)` exactly when the second is `recurring`, else ` (once)` |
| StatsView.PrettyStoreKey | Luma/Luma/StatsView.swift:62-68 | a key recorded for a background without `-` is shown as `background (recurring)` or `background (once)` |
| StatsView.Format | Luma/Luma/StatsView.swift:70-79 | every formatted time ends with `min` |
| StatsView.FormatReadsBack | Luma/Luma/StatsView.swift:70-79 | a time reads back as its whole minutes; from an hour on it is `Hh Mmin` with `M < 60`, below an hour `Mmin` without any `h` |
| RoomView.RemainingTimeText | ios-app/Luma/MoodRoomView.swift:125-143 | every line ends in ` left`; it is `Less than 1 minute left` exactly under 60 seconds, and otherwise starts with a digit |
| RoomView.TimeLeftText | ios-app/Luma/MoodRoomView.swift:125-127 | the room shows the under-a-minute line exactly when less than a minute of its current occurrence remains |
| RoomView.RemainingUsesLabels | ios-app/Luma/MoodRoomView.swift:125-143 | under 60 seconds, including a passed close time, the line is `Less than 1 minute left`; otherwise it is the picker label of the whole minutes plus ` left` |
| RoomView.RemainingReadsBack | ios-app/Luma/MoodRoomView.swift:131-142 | from one minute on, the line reads back as the whole minutes left, never zero |
| RoomView.OpenedAtStart | ios-app/Luma/MoodRoomView.swift:125-143 | opened at its start, a room shows its whole length as the picker wrote it |
| RoomView.ScheduleClose | ios-app/Luma/MoodRoomView.swift:112-122 | dismiss at once exactly when the close time is not after now; otherwise dismiss after a positive delay ending at the close time |
| RoomView.CloseAgreesWithText | ios-app/Luma/MoodRoomView.swift:112-143 | a room that closes at once shows the under-a-minute line; one opened at its start closes after exactly its length |
| LocalFavorites.Parsed | ios-app/Luma/Services/FavoritesStore.swift:10-14 | the saved strings that are UUIDs, or nothing when no list is saved |
| LocalFavorites.Flipped | ios-app/Luma/Services/FavoritesStore.swift:21-26 | the toggled id's membership flips, and every other id's stays |
| LocalFavorites.FlipTwice | ios-app/Luma/Services/FavoritesStore.swift:21-26 | toggling twice gives the set back |
| LocalFavorites.FlipsCommute | ios-app/Luma/Services/FavoritesStore.swift:21-26 | toggles of different ids commute |
| LocalFavorites.Store.constructor | ios-app/Luma/Services/FavoritesStore.swift:9-15 | the ids are the saved strings that parse as UUIDs |
| LocalFavorites.Store.IsFavorite | ios-app/Luma/Services/FavoritesStore.swift:17-19 | `isFavorite` holds exactly for an id in the favourites set |
| LocalFavorites.Store.Toggle | ios-app/Luma/Services/FavoritesStore.swift:21-33 | the id is flipped and the whole set saved, so a relaunch reads it back; `isFavorite` of the id flips and that of every other id stays |
| LocalFavorites.ToggleTwiceThenRelaunch | ios-app/Luma/Services/FavoritesStore.swift:9-33 | toggling twice restores the set, and a relaunch shows it |
| ServerFavorites.Ids | ios-app/Luceam/Services/FavoritesStore.swift:15 | the set of the rooms' ids |
| ServerFavorites.WithoutId | ios-app/Luceam/Services/FavoritesStore.swift:37 | `removeAll`: the rooms with other ids, whose ids are the old ids less this one |
| ServerFavorites.WithRoom | ios-app/Luceam/Services/FavoritesStore.swift:32-34 | append only when no listed room has the id, so ids stay unique |
| ServerFavorites.Store.constructor | ios-app/Luceam/Services/FavoritesStore.swift:6-7 | starts with no ids and no rooms |
| ServerFavorites.Store.IsFavorite | ios-app/Luceam/Services/FavoritesStore.swift:23-25 | `isFavorite` holds exactly for an id in the favourites set |
| ServerFavorites.Store.LoadFavorites | ios-app/Luceam/Services/FavoritesStore.swift:12-21 | success: the rooms are the fetched list and the ids are their ids; failure: both are empty |
| ServerFavorites.Store.Toggle | ios-app/Luceam/Services/FavoritesStore.swift:27-42 | `true` adds the id and the room if missing, `false` removes the id and every room with it, an error changes nothing; ids remain exactly the rooms' ids |
| ServerFavorites.AddThenRemove | ios-app/Luceam/Services/FavoritesStore.swift:30-37 | favouriting then unfavouriting a room that was not listed gives the list back |
| ServerFavorites.WithoutAbsent | ios-app/Luceam/Services/FavoritesStore.swift:37 | removing an id no room has leaves the list as it is |
| ServerFavorites.WithoutAppend | ios-app/Luceam/Services/FavoritesStore.swift:32-37 | removing the id of the room just appended drops only that room |
| FavoritesService.Flip | backend/src/favorites/favorites.service.ts:26-40 | no record or an unfavourited one: an active record dated now, result true; an active record: closed now with its favourite time kept, result false |
| FavoritesService.ToggleAlternates | backend/src/favorites/favorites.service.ts:26-40 | consecutive toggles of one pair report opposite states |
| FavoritesService.ActiveRooms | backend/src/favorites/favorites.service.ts:43-48 | the listed rooms are exactly those whose record has no unfavourite time |
| FavoritesService.ToggleThenList | backend/src/favorites/favorites.service.ts:16-48 | after a toggle the room is listed exactly when the toggle reported true; nothing else listed changes |
| FavoritesService.Repository.constructor | backend/src/favorites/favorites.service.ts:10-14 | starts with the given rooms, no users and no records |
| FavoritesService.Repository.Toggle | backend/src/favorites/favorites.service.ts:16-41 | a missing user is created even when the room is unknown; an unknown room is not found and no record is made; otherwise the pair's single record is flipped |
| FavoritesService.Repository.List | backend/src/favorites/favorites.service.ts:43-49 | `list(userId)` is the user's active rooms |
| FavoritesService.ToggleTwice | backend/src/favorites/favorites.service.ts:16-41 | two toggles report opposite states and leave the room listed as before |

## Left out

- TTL expiry (`expire`, `EX`, `PX`) is store behaviour over time; the model keeps keys for good.
- The HyperLogLog is an exact set of ids. Nothing is claimed about the estimate's accuracy.
- Concurrency: `setInterval` timing, async interleavings and races between a tick and a stop are not modelled. A tick is a method the caller invokes, and the `multi()` batch is one sequential step.
- Simulation.RampTarget: the `Math.pow(t, 0.6)` easing is a parameter `eased` in `[0, 1]`, not computed from the clock.
- Simulation.RandomInt: `Math.random()` is a parameter `u` in `[0, 1)`.
- Simulation.DecayTarget: `floor(current * 0.95)` is written as `(current * 95) / 100`, exact on integers where JavaScript uses a double.
- Simulation.PresenceSimulator.Tick: the order `smembers` lists the set in is a parameter, `listing`, that lists the set exactly once each.
- The per-user timestamp key is written and never read, so no property is stated on it.
- Environment settings are the built-in defaults or a given configuration of integers. ROLLUP_PERIOD_SECONDS may be any integer, zero and negative included. A badly formed value, for which `parseInt` gives NaN, is not modelled.
- Date, Calendar and DateFormatter are replaced by a clock of integer seconds, a UTC offset and today's weekday name.
  - Daylight-saving changes are not modelled.
  - The `?? startTime` fallback of `Calendar.date(bySettingHour:)` is not modelled.
  - The `DateFormatter` with format `HH:mm` is not modelled. The form's initialiser takes the parser as a parameter, `parseTime`, and the saved schedule carries the time string as given.
- `toISOString` window keys are the integer window start.
- UUIDs are strings. The UUID check accepts any mix of letter cases, and no case normalisation of `uuidString` is modelled.
- Case folding and whitespace are ASCII only. Swift's Unicode-aware `lowercased()` and `trimmingCharacters` are not modelled beyond that.
- Swift string ordering in `sorted()` is code-point lexicographic order.
- Integers are unbounded. Swift's `Int` overflow trap is not modelled: for example `max + 1` in the Luma mock store's `addEvent`, or `durationMinutes * 60`. The loss of precision of JavaScript numbers above 2^53 in the backend is not modelled either. Neither arises with realistic ids, durations or clock readings.
- `TimeInterval` values are whole seconds, so fractional seconds are not modelled.
- The JSON decoders are modelled on a small object model. Date and UUID decoding are left out, so dates are integers and ids are strings.
- Network clients (URLSession, WebSockets), the ORM, and the controllers and modules are not modelled. A call's result is a parameter.
- UserDefaults is a `saved` field holding the last values written, not a property-list encoding.
- SwiftUI layout, the preview sheet and the delete alert are not modelled.
- FavoritesService.Repository.List: returns room ids, not room objects with their `session` relation loaded.
- CreateMoodRoom.Form.NameChanged: Swift's `count` and `prefix(100)` count Characters (grapheme clusters), while the model counts Unicode scalars. A name with multi-scalar characters (an emoji with a modifier, a flag) is therefore cut earlier than in the app.
- CreateMoodRoom.Form.CharactersLeft: counts scalars for the same reason, so for multi-scalar text it shows fewer characters left than the app.
- CreateMoment.Composer.TextChanged: counts and cuts scalars, not grapheme clusters, so multi-scalar text is cut earlier than in the app.
- CreateMoment.Composer.CharactersLeft: counts scalars, not grapheme clusters, so for multi-scalar text it shows fewer characters left than the app.
- The `sim:` members and the real members of a room share one set, as in the source. A real user whose id starts with `sim:` therefore counts as simulated.

## Findings

| source | as written | input that shows it | evidently intended | confidence | as-written member | corrected member |
|---|---|---|---|---|---|---|
| Luma/Luma/MoodRoom.swift:66-67 | `schedule[index(startIndex, offsetBy: 6)..<range.lowerBound]`, with `range` the first ` at `. The same slice appears at ios-app/Luceam/MoodRoom.swift:69-70 and Luma/Luma/CreateMoodRoomView.swift:70-71. | `Every at 10:00` passes the `every ` test, and its ` at ` starts at index 5, so the range runs from 6 to 5 and the slice traps | a schedule with no day list has no weekday tokens and no weekday filter | high (not executed) | MoodRooms.DaysPartAsWritten, MoodRooms.EveryAtTraps | MoodRooms.DaysPart, MoodRooms.DaysPartCorrected |
