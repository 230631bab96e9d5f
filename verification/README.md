# LoadCell: a Dafny model of the ESP-NOW load-cell rig

The LoadCell firmware runs a distributed weighing rig built from ESP32 boards:
- **Parent.** One parent node collects weight readings from child nodes over ESP-NOW, shows them on a web page, and relays tare commands from the browser back to the children.
- **Children.** Each child carries a load cell. It buffers samples and sends an averaged weight to the parent once a second. It latches any tare command it receives, for the main loop to act on.
- **Pit-lane board.** The same firmware runs a board of four lane buttons with countdowns and team names, kept in non-volatile Preferences.
- **Browser page.** A page in the browser draws one graph per child.

The model covers:

- **`espnow_frame.dfy` (`EspnowFrame`).** The message type codes and the 36-byte `ESPNowData` record in its little-endian ESP32 memory layout. Encoding and decoding are inverse to each other.
- **`espnow.dfy` (`Espnow`).** The protocol state of `src/espnow.cpp`:
  - the parent's `childWeights` registry;
  - the child's one-slot pending tare command;
  - the 100-sample buffer with its averaged send, at most one every 1000 ms, with 32-bit wrap-around of `millis()`.

  The state is a value `State` with spec functions and lemmas, plus a class `EspNow` whose methods are proved against those functions. Sends are appended to an outbox.
- **`config.dfy` (`Config`).** The `DEVICE_ID` table, the radio constants and the tare-button pin.
- **`webpage.dfy` (`Webpage`).** From `src/webpage.cpp`:
  - the WebSocket tare-command classifier;
  - the parent's child selection for ids 1..5;
  - the 2500 ms broadcast gate;
  - the `addChildToJson` delta tracker;
  - `onEvent`, which also feeds every data message to the pit-lane handler.
- **`pitbuttons.dfy` (`PitButtons`).** The pit-lane board of `src/pitbuttons.cpp`:
  - the lane table;
  - the countdown length and its Preferences key;
  - the team-name Preferences namespace;
  - the JSON texts sent to clients;
  - the message dispatcher.

  The lane table is an `array`. The JSON texts are built by the same loops as the source.
- **`settings.dfy` (`Settings`).** The four display settings of `src/settings.cpp` and their JSON file.
- **`child_graphs.dfy` (`ChildGraphs`).** The browser's child-graph registry of `data/script.js`:
  - at most four graphs, evicting the least recently seen;
  - each series trimmed to a time window;
  - stale graphs swept out after five minutes.
- **`connect_wifi.dfy` (`ConnectWifi`).** The known-network search of `src/connect-wifi.cpp`, and the fallback to the device's own access point.
- **Shared modules.** `numeric.dfy` holds machine integers, the wrapping clock and floats as NaN-or-real. `arduino_string.dfy` holds the Arduino `String` operations the firmware uses: `startsWith`, `substring`, `indexOf`, `toInt` and `String(n)`. `wrappers.dfy` holds `Option`.

Where the code and its comments or documentation disagree, the model follows the code:
- **Tare commands.** A child latches the scale number of every Tare frame, whatever its `id` says: the receive path has no identity filter (src/espnow.cpp:127-132, `Espnow.BroadcastTareLatchedByEveryChild`).
- **`espnowSendTare`.** It is declared and called with one parameter but defined with two (`nodeId`, `whichScale`). The model has the two-parameter definition (`Espnow.EspNow.SendTare`). The web layer stops at the classified `TareNode(nodeId)` command.
- **`KNOWN_SSID`.** It is defined both in `include/config.h` (three networks) and in `src/connect-wifi.cpp` (two networks). The model uses the list of `src/connect-wifi.cpp`, the one its matching loop was written against. The matching functions take the list as a parameter, so their properties hold for either list.
- **The `children` field.** `notifyClients` sends `children` as an array of `{id, weight, name}` objects. `data/script.js` reads it as an object from id to value. Both ends are modelled as written: `Webpage.Update` on one side, and on the other the `(key, value)` pairs the script's `processChildren` iterates.

## Model

| member | source | states |
|---|---|---|
| EspnowFrame.Code | include/espnow.h:9-13 | Weight, Tare and Ack have codes 1, 2 and 3 |
| EspnowFrame.TypeOf | include/espnow.h:9-13 | a type byte names a message type iff it is 1..3, and then it is that type's code |
| EspnowFrame.CodesDistinct | include/espnow.h:9-13 | the three codes are pairwise distinct, and reading a code back gives the same type |
| EspnowFrame.LittleEndian32 | include/espnow.h:21 | a 32-bit field occupies four bytes in memory |
| EspnowFrame.LittleEndian32RoundTrip | include/espnow.h:21 | the four bytes of a 32-bit field read back as the same value |
| EspnowFrame.FromLittleEndian32Inverse | include/espnow.h:19 | any four bytes are the image of the 32-bit value they denote |
| EspnowFrame.Encode | include/espnow.h:16-22 | the record is 36 bytes: `type` at 0, `id` at 1, `name` at 8..32, with padding aligning `value` to 4 |
| EspnowFrame.Decode | src/espnow.cpp:106-107 | only a buffer of exactly 36 bytes is interpreted, and it yields a well-formed record |
| EspnowFrame.DecodeEncode | src/espnow.cpp:165 | the record the sender casts to bytes is the record the receiver casts back, field for field |
| EspnowFrame.EncodeDecode | src/espnow.cpp:107 | re-encoding a decoded buffer reproduces every byte except the two padding bytes |
| Numeric.ToUint8 | src/webpage.cpp:180 | `(uint8_t)x` is `x` in 0..255 and congruent to `x` modulo 256 otherwise |
| Numeric.Elapsed | src/espnow.cpp:243 | the unsigned difference of two 32-bit clock readings is the plain difference, or the wrapped difference when the clock wrapped |
| Numeric.ElapsedAdvances | src/webpage.cpp:145 | adding the wrapped difference to the earlier reading, modulo 2^32, gives the later reading |
| Numeric.FAdd | src/espnow.cpp:249 | a float sum is finite iff both operands are, and is then their sum; NaN absorbs |
| Numeric.FDivCount | src/espnow.cpp:251 | dividing by a positive count keeps NaN and otherwise divides exactly |
| Numeric.FromInt | src/espnow.cpp:184 | a byte stored in the float `value` field is exact |
| Numeric.FloatToUint8 | src/espnow.cpp:132 | `(uint8_t)f` truncates toward zero for values in 0..255 |
| Numeric.FloatToUint8FromInt | src/espnow.cpp:132 | a scale number sent as a float arrives as the same byte |
| ArduinoString.Substring | src/webpage.cpp:179 | `substring(from)` is the suffix from `from`, or empty past the end |
| ArduinoString.IndexOf | src/webpage.cpp:200 | `indexOf(c)` is the first position of `c`, or -1 when it does not occur |
| ArduinoString.DigitChar | src/pitbuttons.cpp:134 | every digit value has a digit character that reads back as the value |
| ArduinoString.Decimal | src/pitbuttons.cpp:134 | `String(n)` is a non-empty run of digits |
| ArduinoString.DecimalValue | src/pitbuttons.cpp:134 | the digits `String(n)` writes denote `n` |
| ArduinoString.DigitRunOfDigits | src/webpage.cpp:180 | `toInt` reads a digit string up to the first non-digit that follows it |
| ArduinoString.DecimalRoundTrip | src/webpage.cpp:180 | `String(n).toInt()` is `n`, also when text that starts with a non-digit follows |
| ArduinoString.DecimalInjective | src/pitbuttons.cpp:134 | distinct numbers render as distinct strings |
| Config.ConfigFor | include/config.h:46-71 | DEVICE_ID 0 is the parent "LaunchScale"; 1..4 are the children Yellow, Grey, Purple, Black; any other id is rejected |
| Config.TareButtonPin | include/config.h:73-78 | as written, the tare button pin is 14 for every DEVICE_ID |
| Config.IntendedTareButtonPin | include/config.h:73-78 | as intended, the pin is 14 on the parent and 15 on every child |
| Config.TareButtonPinChildDiffers | include/config.h:74 | for a child build, the pin as written (14) differs from the intended one (15) |
| Config.ParentIsNotBroadcast | include/config.h:81 | the parent's address is not the broadcast address the tare commands go to |
| Espnow.Initial | src/espnow.cpp:7-15 | at start-up the registry, pending tare, buffer and outbox are empty; a child's id is its MAC's last octet |
| Espnow.Receive | src/espnow.cpp:105-136 | a wrong length changes nothing; on a parent a Weight frame sets exactly `childWeights[id]` and any other type changes nothing; on a child a Tare frame latches `(uint8_t)value` whatever the id, and any other type changes nothing |
| Espnow.WeightOf | src/espnow.cpp:199-205 | the lookup is NaN for an id never heard from and the stored weight otherwise |
| Espnow.TakePendingTare | src/espnow.cpp:216-220 | reading returns the latched scale number and leaves 0 behind |
| Espnow.Buffer | src/espnow.cpp:227-233 | a sample is appended only on a child holding fewer than 100 samples; nothing else changes |
| Espnow.SendAveragedIfReady | src/espnow.cpp:235-283 | when not due, nothing changes; when due, exactly one Weight frame with the node's id, the mean of the buffer and the current time goes to the parent, the buffer empties and the send time is taken |
| Espnow.SendImmediate | src/espnow.cpp:138-170 | a child sends one Weight frame to the parent; a parent sends nothing |
| Espnow.BroadcastTare | src/espnow.cpp:172-197 | the parent broadcasts one Tare frame carrying the target id and the scale number; a child sends nothing |
| Espnow.SumOfFinite | src/espnow.cpp:247-250 | without NaN samples the float sum is the exact sum |
| Espnow.SumWithNaN | src/espnow.cpp:247-250 | one NaN sample makes the sum NaN |
| Espnow.MeanIsAverage | src/espnow.cpp:246-251 | the averaged weight is the arithmetic mean of finite samples, and NaN when any sample is NaN |
| Espnow.BufferAllAppends | src/espnow.cpp:227-233 | on a child with room, buffering a list appends exactly that list and changes nothing else |
| Espnow.BufferAllBounded | src/espnow.cpp:228 | a child never holds more than 100 samples, and buffering sends nothing |
| Espnow.BufferAllKeepsClock | src/espnow.cpp:227-233 | buffering changes neither the send time nor the role |
| Espnow.MeanOfSamplesSinceLastSend | src/espnow.cpp:243-262 | the next averaged frame carries the mean of exactly the samples buffered since the previous send |
| Espnow.AtMostOneSendPerInterval | src/espnow.cpp:243 | within 1000 ms of a send nothing more is sent, however many samples arrive |
| Espnow.ReadAndClear | src/espnow.cpp:216-220 | a pending command is delivered once; an immediate second read returns 0 |
| Espnow.AveragedWeightReachesParent | src/espnow.cpp:119 | the averaged frame a child sends lands in the parent's registry under the child's id |
| Espnow.BroadcastTareLatchedByEveryChild | src/espnow.cpp:127-132 | every child that receives the parent's tare broadcast latches the scale number, whatever its own id |
| Espnow.LastWriteWinsScenario | src/espnow.cpp:119 | two weights from child 2: the later one is stored and child 3 stays unknown |
| Espnow.AverageScenario | src/espnow.cpp:246-251 | samples 10, 12 and 11 average to 11 |
| Espnow.EspNow.constructor | src/espnow.cpp:17-55 | the object starts in the initial state for its role |
| Espnow.EspNow.OnRecv | src/espnow.cpp:105-136 | `espnowOnRecv` performs `Receive` on the module state |
| Espnow.EspNow.GetChildWeight | src/espnow.cpp:199-205 | NaN for an unknown id, the stored weight otherwise |
| Espnow.EspNow.ForEachChildWeight | src/espnow.cpp:207-214 | every stored (id, weight) pair is visited once, in ascending id order, and nothing when there is no callback |
| Espnow.EspNow.GetPendingTareCommand | src/espnow.cpp:216-220 | returns the latched number and clears it |
| Espnow.EspNow.BufferWeight | src/espnow.cpp:227-233 | the array write and index increment perform `Buffer` |
| Espnow.EspNow.SendAveragedWeightIfReady | src/espnow.cpp:235-283 | the summing loop and send perform `SendAveragedIfReady` |
| Espnow.EspNow.SendWeight | src/espnow.cpp:138-170 | performs `SendImmediate` |
| Espnow.EspNow.SendTare | src/espnow.cpp:172-197 | performs `BroadcastTare` |
| Webpage.ClassifyTare | src/webpage.cpp:166-204 | on a parent "tare" sends no frame but still notifies the clients, "tare:child:N..." and other "tare:N" reach node `(uint8_t)toInt` of the text after the prefix; on a child every tare form is one local tare; anything else is not a tare command |
| Webpage.TareNodeMessage | src/webpage.cpp:186-191 | the browser's "tare:" + n reaches node n mod 256 on a parent |
| Webpage.TareChildMessage | src/webpage.cpp:177-184 | "tare:child:N" and "tare:child:N:S" both reach node N mod 256 |
| Webpage.ChildPrefixMustComeFirst | src/webpage.cpp:177-188 | were "tare:" tested first, "tare:child:N" would name node 0, so the longer prefix is tested first |
| Webpage.ChildIgnoresIndex | src/webpage.cpp:199-202 | a child performs one local tare for any "tare:..." message, whatever number it names |
| Webpage.NameFor | src/webpage.cpp:122-123 | a name is reported only when it is known and non-empty |
| Webpage.SelectedEntries | src/webpage.cpp:116-125 | each entry is an id in 1..hi, in ascending order, with its stored finite weight and its name |
| Webpage.SelectedComplete | src/webpage.cpp:116-125 | every id in 1..hi with a finite stored weight has an entry |
| Webpage.ParentUpdateChildren | src/webpage.cpp:116-125 | the parent's update has an entry for id exactly when the id is in 1..5 and its weight is known and not NaN |
| Webpage.UpdateFor | src/webpage.cpp:107-141 | a parent sends the child list; a child sends its own weight, or null when it is NaN |
| Webpage.BroadcastsSpaced | src/webpage.cpp:143-149 | a broadcast is due exactly when at least 2500 ms have passed since the last one, across clock wrap-around |
| Webpage.RecordSent | src/webpage.cpp:98-102 | a change is reported and recorded iff the id is new or its weight differs (NaN always differs) |
| Webpage.RecordSentTwice | src/webpage.cpp:98-102 | recording a number twice reports a change only the first time; a NaN is reported every time |
| Webpage.WebPage.constructor | src/webpage.cpp:15-18 | nothing broadcast or recorded yet, and no document attached |
| Webpage.WebPage.ChildEntries | src/webpage.cpp:116-125 | the selection loop builds exactly the entries for ids 1..5 |
| Webpage.WebPage.NotifyClients | src/webpage.cpp:107-141 | one update for the node's role is sent to all clients; nothing else changes |
| Webpage.WebPage.WebBroadcastLoop | src/webpage.cpp:143-149 | when due, the broadcast time is taken and one update is sent; otherwise nothing changes |
| Webpage.WebPage.AddChildToJson | src/webpage.cpp:93-104 | with a document attached, the weight is written under the id's decimal key and the delta tracker is updated; without one, nothing changes |
| Webpage.WebPage.OnEvent | src/webpage.cpp:152-206 | a connect sends one update; a data message goes to the pit-lane handler, is classified, and sends one update when it is a tare form; a disconnect, pong or error changes nothing; no event touches the attached document, its children or the change flag |
| PitButtons.LaneEntries | src/pitbuttons.cpp:197-199 | one `{"teamName":...,"countdown":...}` entry per lane, in lane order |
| PitButtons.QuotedWithCommas | src/pitbuttons.cpp:153 | the read loop's text ends with a comma whenever some name was read |
| PitButtons.QuotedAll | src/pitbuttons.cpp:153 | each name quoted, in order |
| PitButtons.StripLastComma | src/pitbuttons.cpp:157 | dropping the last comma of the appended names leaves them joined by commas |
| PitButtons.TeamNamesAsWrittenWhenNonEmpty | src/pitbuttons.cpp:144-158 | with at least one name, the message as written is the JSON array of the names |
| PitButtons.TeamNamesAsWrittenWhenEmpty | src/pitbuttons.cpp:156-158 | with no name, the message as written loses its `[` |
| PitButtons.TeamKeyInjective | src/pitbuttons.cpp:134 | distinct positions get distinct "team<N>" keys |
| PitButtons.GetString | src/pitbuttons.cpp:150 | a missing key reads as "" |
| PitButtons.GetInt | src/pitbuttons.cpp:166 | a missing key reads as 0 |
| PitButtons.SavedContents | src/pitbuttons.cpp:132-138 | after saving, the store holds exactly team1..teamK with the K names in order |
| PitButtons.LoadFromStored | src/pitbuttons.cpp:148-155 | the read loop returns the names stored under consecutive keys up to the first missing or empty one |
| PitButtons.SaveThenLoad | src/pitbuttons.cpp:132-155 | saving a list of non-empty names and reading them back returns the list |
| PitButtons.SaveThenLoadStopsAtEmpty | src/pitbuttons.cpp:151 | reading stops at the first empty name; later names are not returned |
| PitButtons.AnnounceSwap | src/pitbuttons.cpp:37-45 | the lane's countdown starts at `countdownTimer`, other lanes are unchanged, and the swap message is sent |
| PitButtons.UpdateTeam | src/pitbuttons.cpp:98-103 | only lane `toInt(teamId[4..]) - 1` gets the new name, its countdown is kept, and the new table is sent |
| PitButtons.UpdateThenGetTimer | src/pitbuttons.cpp:164-178 | a stored countdown length is what the next reload yields and reports |
| PitButtons.LaneSwitch | src/pitbuttons.cpp:184-190 | one pass of the lane loop keeps the lane table four lanes long |
| PitButtons.Switches | src/pitbuttons.cpp:182-192 | the first n passes of the loop keep the lane table four lanes long |
| PitButtons.SwitchesEffect | src/pitbuttons.cpp:181-192 | after the loop, a lane pressed while idle has its countdown started and its trigger time taken; every other lane is unchanged |
| PitButtons.StartedLanes | src/pitbuttons.cpp:186 | the lane table with the countdown of every triggered lane so far started stays four lanes long |
| PitButtons.SwitchesMessages | src/pitbuttons.cpp:181-192 | after what was sent before, the loop sends, for each triggered lane in lane order, the lane table with every triggered lane up to it started and then the swap announcement with its lane number; so two messages per triggered lane |
| PitButtons.RunningLaneUntouched | src/pitbuttons.cpp:185 | a lane with a running countdown is never re-triggered |
| PitButtons.SaveThenAskForTeamNames | src/pitbuttons.cpp:72-75 | saving non-empty names and then asking for them sends the reply built from the same list, as the firmware builds it; with at least one name that reply is the list as a JSON array |
| PitButtons.AskForTeamNamesWithNoneStored | src/pitbuttons.cpp:142-161 | with no name stored under "team1", asking for team names sends `{"type":"updateTeamNames","teamNames":]}`, not the JSON array `[]` |
| PitButtons.PitBoard.constructor | src/pitbuttons.cpp:13-21 | the lanes start as "Lane 1".."Lane 4" with no countdown; stored Preferences are kept |
| PitButtons.PitBoard.ButtonUpdateText | src/pitbuttons.cpp:195-202 | the concatenation loop builds the entries joined by commas, without a trailing comma |
| PitButtons.PitBoard.NotifyButtonClients | src/pitbuttons.cpp:195-205 | the lane table is sent; nothing else changes |
| PitButtons.PitBoard.AnnouncePilotSwap | src/pitbuttons.cpp:37-45 | performs `AnnounceSwap` on the array |
| PitButtons.PitBoard.PilotSwap | src/pitbuttons.cpp:90-95 | the team id is the lane number; announce, then send the table |
| PitButtons.PitBoard.Update | src/pitbuttons.cpp:98-103 | performs `UpdateTeam` on the array |
| PitButtons.PitBoard.UpdateCustomMessages | src/pitbuttons.cpp:105-111 | both texts are replaced and sent back |
| PitButtons.PitBoard.GetCustomMessages | src/pitbuttons.cpp:113-117 | the current texts are sent; nothing else changes |
| PitButtons.PitBoard.SaveTeamNamesInPreferences | src/pitbuttons.cpp:120-140 | a parse error changes nothing; otherwise the namespace is cleared and team1..teamK written |
| PitButtons.PitBoard.TeamNamesText | src/pitbuttons.cpp:144-158 | the read loop and the unconditional removal of the last character build the message as written for the stored names, which is their JSON array whenever at least one name is stored |
| PitButtons.PitBoard.GetTeamNamesFromPreferences | src/pitbuttons.cpp:142-162 | the message as written for the stored names is sent; nothing else changes |
| PitButtons.PitBoard.GetCountdownTimer | src/pitbuttons.cpp:164-171 | the countdown length is reloaded (0 when never stored) and sent |
| PitButtons.PitBoard.UpdateCountdownTimer | src/pitbuttons.cpp:174-179 | the countdown length is used and stored under "timer" |
| PitButtons.PitBoard.CheckLaneSwitches | src/pitbuttons.cpp:181-193 | the loop over the lanes performs `Switches` over all four lanes |
| PitButtons.PitBoard.HandleWebSocketMessage | src/pitbuttons.cpp:49-86 | only a whole text frame is handled, a parse error or unknown type changes nothing, and the `type` field picks the handler |
| Settings.SelectName | src/settings.cpp:26-28 | slot 2 for `which == 2`, slot 1 for any other value |
| Settings.SelectColor | src/settings.cpp:30-32 | slot 2 for `which == 2`, slot 1 for any other value |
| Settings.WithName | src/settings.cpp:34-36 | writes slot 2 for `which == 2`, else slot 1 |
| Settings.WithColor | src/settings.cpp:38-40 | writes slot 2 for `which == 2`, else slot 1 |
| Settings.SetThenGet | src/settings.cpp:26-40 | getting the slot just set returns the new value; the other slot and the other kind of setting are unchanged |
| Settings.Fields | src/settings.cpp:43-47 | the saved document has exactly the four keys |
| Settings.Load | src/settings.cpp:11-24 | only the keys present in the file overwrite values; a missing, unopenable or garbled file changes nothing |
| Settings.SaveThenLoad | src/settings.cpp:42-53 | what was saved is what the next start-up loads |
| Settings.LoadOnlyName2 | src/settings.cpp:20-23 | a file holding only `name2` changes only that value |
| Settings.SettingsStore.constructor | src/settings.cpp:5-8 | the defaults "Scale 1", "Scale 2", "#0077cc", "#cc5500" |
| Settings.SettingsStore.Init | src/settings.cpp:11-24 | performs `Load` with the stored file |
| Settings.SettingsStore.GetName | src/settings.cpp:26-28 | the selected name slot |
| Settings.SettingsStore.GetColor | src/settings.cpp:30-32 | the selected colour slot |
| Settings.SettingsStore.SetName | src/settings.cpp:34-36 | performs `WithName` |
| Settings.SettingsStore.SetColor | src/settings.cpp:38-40 | performs `WithColor` |
| Settings.SettingsStore.Save | src/settings.cpp:42-53 | a writable file receives the four values and the result is true; otherwise nothing is written and the result is false |
| Settings.SettingsStore.AsJson | src/settings.cpp:55-64 | the four values under their keys |
| Settings.SettingsStore.ResetDefaults | src/settings.cpp:66-72 | the defaults are restored in RAM and saved |
| ChildGraphs.ToNumber | data/script.js:65 | `Number(v)` is finite exactly for null (0) and numbers |
| ChildGraphs.SampleTests | data/script.js:94 | a recorded sample is exactly a finite number; the first-value test also admits null |
| ChildGraphs.NewGraph | data/script.js:62-65 | a new graph is seen now, with one point iff the first value passes the first-value test, and empty otherwise |
| ChildGraphs.NullSeedsZero | data/script.js:65 | a null first value seeds a point at 0, though `processChildren` records null as NaN |
| ChildGraphs.DropBefore | data/script.js:101-102 | the trim leaves a suffix of the series |
| ChildGraphs.DropBeforeRemovesOnlyOld | data/script.js:170-173 | the trim removes only leading points older than the cutoff; the first kept point is not older |
| ChildGraphs.DropBeforeKeepsLast | data/script.js:102 | a newest point at or after the cutoff survives the trim |
| ChildGraphs.DropBeforeIdempotent | data/script.js:170-173 | trimming twice at the same cutoff is trimming once |
| ChildGraphs.TrimSeries | data/script.js:102 | the shift loop computes the trim |
| ChildGraphs.Record | data/script.js:94-102 | a sample sets `lastSeen` to now and anything else leaves it; the newest point is the value, or NaN |
| ChildGraphs.RecordAppendsThenTrims | data/script.js:94-102 | the recorded series is a suffix of the old series plus the new point |
| ChildGraphs.RecordValue | data/script.js:94-102 | the push, `lastSeen` update and trim compute `Record` |
| ChildGraphs.Without | data/script.js:83 | deleting a key keeps exactly the other keys, without repeats |
| ChildGraphs.WithoutAbsent | data/script.js:83 | deleting an absent key leaves the key order as it was |
| ChildGraphs.WithoutAt | data/script.js:83 | deleting the key at position p cuts out that position, every other key keeping its place in insertion order |
| ChildGraphs.WithoutKeepsOrder | data/script.js:83 | `Map.delete` keeps the insertion order of the other keys, whether or not the key was present |
| ChildGraphs.FirstOldest | data/script.js:37-38 | the scan settles on the entry with the smallest `lastSeen`, the first one among equals |
| ChildGraphs.Remove | data/script.js:78-85 | an absent id changes nothing; otherwise only that entry goes |
| ChildGraphs.Evict | data/script.js:35-40 | with four entries one is removed, so fewer than four remain |
| ChildGraphs.Create | data/script.js:30-76 | an existing id changes nothing; a new id gets a new graph as the last key, and the registry stays within four entries |
| ChildGraphs.CreateBelowCap | data/script.js:73 | below four entries a new id is appended and nothing else changes |
| ChildGraphs.CreateAtCapEvictsOldest | data/script.js:35-40 | at four entries, the first least recently seen entry goes, the others stay as they were, and the size stays four |
| ChildGraphs.ProcessEntry | data/script.js:89-103 | one value keeps the registry well formed |
| ChildGraphs.ProcessAll | data/script.js:90 | processing all entries keeps the registry well formed |
| ChildGraphs.Process | data/script.js:88 | a message without children changes nothing |
| ChildGraphs.ProcessEntryRecords | data/script.js:91-99 | after one value the child is registered, its newest point is the value or NaN, and `lastSeen` moves to now exactly for a sample |
| ChildGraphs.StaleKeys | data/script.js:109-110 | the collected ids are exactly the keys not seen for more than five minutes |
| ChildGraphs.RemoveAll | data/script.js:111 | removing a list of ids keeps exactly the other entries, unchanged |
| ChildGraphs.SweepRemovesExactlyStale | data/script.js:106-112 | the sweep removes exactly the entries with `now - lastSeen` over five minutes and keeps the others as they were |
| ChildGraphs.TrimAllKeepsEntries | data/script.js:169-173 | trimming every series keeps every entry and its `lastSeen` |
| ChildGraphs.TrimKeys | data/script.js:170-173 | visiting the graphs in key order keeps exactly the same ids |
| ChildGraphs.TrimKeysTrimsListed | data/script.js:170-173 | with each id listed once, every listed series is trimmed exactly once and unlisted ones are untouched |
| ChildGraphs.TrimEach | data/script.js:169-173 | the loop over the graphs computes the trim of every series and keeps the registry well formed |
| ChildGraphs.ChildGraphRegistry.constructor | data/script.js:138-147 | no graphs, a five-minute window, not parent mode |
| ChildGraphs.ChildGraphRegistry.OldestIndex | data/script.js:37-38 | the running-minimum scan finds `FirstOldest` |
| ChildGraphs.ChildGraphRegistry.RemoveChildGraph | data/script.js:78-85 | performs `Remove` |
| ChildGraphs.ChildGraphRegistry.MakeRoom | data/script.js:35-40 | performs `Evict` |
| ChildGraphs.ChildGraphRegistry.CreateChildGraph | data/script.js:30-76 | performs `Create` and returns the child's graph |
| ChildGraphs.ChildGraphRegistry.ProcessChildren | data/script.js:87-104 | performs `Process` with the current window |
| ChildGraphs.ChildGraphRegistry.ProcessOne | data/script.js:91-102 | one child's value: create its graph if needed, then record the value, as `ProcessEntry` |
| ChildGraphs.ChildGraphRegistry.TrimAllGraphs | data/script.js:169-173 | performs `TrimAll` at `now - WINDOW_MS` |
| ChildGraphs.ChildGraphRegistry.OnMessage | data/script.js:157-177 | the mode flag follows "parent"/"child", then the children are processed and every series trimmed |
| ChildGraphs.ChildGraphRegistry.StaleIds | data/script.js:109-110 | the first pass collects `StaleKeys` |
| ChildGraphs.ChildGraphRegistry.SweepStale | data/script.js:106-112 | performs `Sweep` |
| ConnectWifi.KnownIndex | src/connect-wifi.cpp:72-79 | the first index of the SSID on the known list, or none when it is not there |
| ConnectWifi.MatchFrom | src/connect-wifi.cpp:69-82 | the first position from `i` on whose SSID is known, and that SSID's first index on the list |
| ConnectWifi.FirstMatch | src/connect-wifi.cpp:69-82 | none iff no visible SSID is known; otherwise the first visible known SSID, in scan order, and its first index on the list |
| ConnectWifi.ScanOrderWins | src/connect-wifi.cpp:69-82 | with both known networks visible, the one the scan reports first is chosen |
| ConnectWifi.MatchIgnoresLaterDuplicates | src/connect-wifi.cpp:81 | networks reported after the first match do not change the choice |
| ConnectWifi.WifiLink.constructor | src/connect-wifi.cpp:11 | no networks seen, nothing joined, no access point |
| ConnectWifi.WifiLink.ScanForWifi | src/connect-wifi.cpp:51-56 | the scan count and the SSIDs are recorded and the count returned |
| ConnectWifi.WifiLink.CreateWifi | src/connect-wifi.cpp:110-117 | the access point is opened and "DRW.local" returned |
| ConnectWifi.WifiLink.ConnectToWifi | src/connect-wifi.cpp:58-108 | on a match, that known network is joined and its SSID returned; otherwise the access point is opened and "No WiFi found, creating our own" returned |
| ConnectWifi.WifiLink.InitWifi | src/connect-wifi.cpp:27-49 | a count of at most 0 opens the access point without matching; otherwise the search runs and "Connected to: " plus its result is the message; joining leaves the access point as it was, and finding nothing leaves the joined network as it was |

## Left out

- **Radio and network I/O.** The following are not modelled: `esp_now_init`, peer registration, callback registration, `readMacAddress`, `espnowPrintPeers`, `espnowOnSend` and `espnowLoop`, which only log or do nothing. A send is an append to an outbox. `ws.textAll` is an append to the list of messages sent. The AsyncWebServer set-up in `initwebservers`, the mDNS start-up in `initMDNS` and all Serial logging are not modelled either.
- **Concurrency.** `espnowOnRecv` runs in the radio driver's context. It is modelled as an ordinary sequential method.
- **Clocks.** `millis()` and `Date.now()` become a `now` argument. In `data/script.js`, the several clock readings taken while one message is handled are one reading.
- **Floats.** Single-precision floats are a number or NaN, with exact real arithmetic. Rounding, infinities and negative zero are not modelled. The wire codec carries the float's 32-bit pattern, and the map from bit pattern to float is not modelled.
- **`Numeric.FloatToUint8`.** Casting a float outside 0..255 to `uint8_t` is undefined in C. The model yields 0 there, and its contract states only the defined range.
- **`toInt`.** `String.toInt` overflow past `long` is not modelled; the value is the mathematical one.
- **The `name` field of `ESPNowData`.** The send builders never write it, so its bytes and the two padding bytes are indeterminate. The model writes zeros and the decoder ignores the padding.
- **`espnowGetChildName`.** It is declared but has no definition, so the child names are a parameter map.
- **`scaleRead` and `scaleTare`.** `scaleRead` is declared `void` yet its result is used; the child's own weight is a parameter. The local tare in `onEvent` is reported as the `TareLocal` command, not performed on a scale.
- **The parent's tare path.** The call to `espnowSendTare` in `onEvent` does not match its definition, so the web layer stops at the `TareNode(nodeId)` command. `Espnow.EspNow.SendTare` models the definition.
- **`Webpage.WebPage.AddChildToJson`.** `globalDoc` is never set, so as written the function does nothing. The model keeps the guard as `docAttached`, which nothing sets. The JSON document is a map from key to weight.
- **ArduinoJson.** Serialisation and parsing are not modelled:
  - a parsed message is a `Doc` record of the fields read, or `None` for a parse error;
  - `onEvent`'s update is an `Update` value, not serialised text;
  - the settings file is the map of keys it holds.
- **The `/tare` and `/settings` HTTP handlers.** They are route glue and are not modelled.
- **`sendCalibrationResult`.** Not modelled.
- **`cleanupWebClients`.** Not modelled.
- **The OLED call in `announcePilotSwap`.** Not modelled.
- **JSON escaping.** The pit-lane messages insert team names and custom texts without escaping, and the model reproduces this as written. A name containing `"` yields invalid JSON.
- **`PitButtons.PitBoard.Update`, `PitButtons.PitBoard.PilotSwap` and `PitButtons.PitBoard.AnnouncePilotSwap`.** These require the lane to be in range. The source writes out of the array's bounds otherwise, which is undefined behaviour.
- **The child's "tare:N" parse.** The child parses `N` and never uses it, so the model does not keep the number.
- **`Settings.SettingsStore.Save`.** Its result is modelled as whether the file could be opened for writing. A successful write of a non-empty document always reports more than zero bytes.
- **`data/script.js` DOM and storage work.** Not modelled:
  - the DOM cards, canvases, name and colour inputs, `localStorage` persistence and `drawAll`;
  - the window selectors that change `WINDOW_MS`;
  - the tare and calibrate buttons.

  A graph is its series and `lastSeen`. A JSON value is `undefined`, `null` or what `Number()` makes of it.
- **`data/script.js` key handling.** `createChildGraph` tests the raw id but stores under `String(id)`. Ids are modelled as the string keys `processChildren` passes, for which the two agree.
- **`data/pitbuttons-script.js`.** Not modelled; it is browser UI.
- **The blocking wait in `connectToWifi`.** The wait for the connection is not modelled; joining is immediate. `KNOWN_PASSWORD` is not modelled.

## Findings

| source | as written | input that shows it | evidently intended | confidence | as-written member | corrected member |
|---|---|---|---|---|---|---|
| include/config.h:74-78 | `#ifdef ESPNOW_IS_PARENT` tests whether the macro is defined, and every `DEVICE_ID` branch defines it (as 0 or 1), so the pin is 14 everywhere | DEVICE_ID 1: pin 14 (`Config.TareButtonPinChildDiffers`) | 14 on the parent only, 15 on the children, as the comments beside each define say | high, not executed | Config.TareButtonPin | Config.IntendedTareButtonPin |
| src/pitbuttons.cpp:156-158 | the last character is dropped unconditionally to remove the trailing comma; with no stored name that character is the `[` | no team names stored: the message is `{"type":"updateTeamNames","teamNames":]}` (`PitButtons.TeamNamesAsWrittenWhenEmpty`) | `{"type":"updateTeamNames","teamNames":[]}`, a JSON array of the stored names | high, not executed | PitButtons.TeamNamesMessageAsWritten | PitButtons.TeamNamesMessage |
