/** The pit-lane button board of `src/pitbuttons.cpp`: four lanes, each with a
    team name and a pilot-swap countdown, the WebSocket messages built as
    JSON text by concatenation, and the team names and countdown length kept
    in two Preferences namespaces (modelled as maps). Messages pushed to the
    browsers are collected in `sent`. */
module PitButtons {
  import opened Wrappers
  import opened Numeric
  import opened ArduinoString

  /** `NUM_LANES` */
  const NUM_LANES: nat := 4

  /** `ButtonState`: the team on a lane and its countdown (0 when idle). */
  datatype ButtonState = ButtonState(teamName: string, countdown: int)

  /** The lanes at power-up: "Lane 1".."Lane 4", no countdown running. */
  const INITIAL_LANES: seq<ButtonState> :=
    [ButtonState("Lane 1", 0), ButtonState("Lane 2", 0), ButtonState("Lane 3", 0), ButtonState("Lane 4", 0)]

  // ---------------------------------------------------------------------
  // The text of the messages

  /** The items of `xs` separated by `sep`, built left to right. */
  function Join(xs: seq<string>, sep: string): string
  {
    if xs == [] then ""
    else if |xs| == 1 then xs[0]
    else Join(xs[..|xs| - 1], sep) + sep + xs[|xs| - 1]
  }

  /** Appending to a string in two steps or in one gives the same string. */
  lemma AppendAssoc(a: string, b: string, c: string)
    ensures (a + b) + c == a + (b + c)
  {
  }

  /** What the comma-separating loop has written after `n` items: the first
      `n` items joined, plus the comma that follows every item but the last. */
  function JoinedSoFar(xs: seq<string>, n: nat): string
    requires n <= |xs|
  {
    Join(xs[..n], ",") + (if 0 < n < |xs| then "," else "")
  }

  /** One more iteration of the loop: the item, then a comma unless it was the last. */
  lemma JoinedSoFarStep(prefix: string, xs: seq<string>, n: nat)
    requires n < |xs|
    ensures prefix + JoinedSoFar(xs, n + 1) ==
      if n + 1 < |xs| then prefix + JoinedSoFar(xs, n) + xs[n] + "," else prefix + JoinedSoFar(xs, n) + xs[n]
  {
    JoinStep(xs, n, ",");
  }

  /** Adding the item at position `k` to the join of the items before it. */
  lemma JoinStep(xs: seq<string>, k: nat, sep: string)
    requires k < |xs|
    ensures Join(xs[..k + 1], sep) == if k == 0 then xs[0] else Join(xs[..k], sep) + sep + xs[k]
  {
    assert xs[..k + 1][..k] == xs[..k];
  }

  /** Text between double quotes, inserted as is: nothing is escaped. */
  function Quote(s: string): string
  {
    "\"" + s + "\""
  }

  /** `{"type":"pilotSwap","team":<lane>}` */
  function PilotSwapMessage(lane: int): string
  {
    "{\"type\":\"pilotSwap\",\"team\":" + IntString(lane) + "}"
  }

  /** `{"teamName":"<name>","countdown":<n>}` for one lane. */
  function LaneEntry(b: ButtonState): string
  {
    "{\"teamName\":" + Quote(b.teamName) + ",\"countdown\":" + IntString(b.countdown) + "}"
  }

  function LaneEntries(lanes: seq<ButtonState>): (r: seq<string>)
    ensures |r| == |lanes| && forall i :: 0 <= i < |lanes| ==> r[i] == LaneEntry(lanes[i])
  {
    seq(|lanes|, i requires 0 <= i < |lanes| => LaneEntry(lanes[i]))
  }

  const BUTTON_UPDATE_PREFIX: string := "{\"type\":\"update\",\"data\":["
  const MESSAGE_END: string := "]}"

  /** The message of `notifyButtonClients`: one entry per lane, comma separated. */
  function ButtonUpdateMessage(lanes: seq<ButtonState>): string
  {
    BUTTON_UPDATE_PREFIX + Join(LaneEntries(lanes), ",") + MESSAGE_END
  }

  /** The message sent after the custom announcement texts change or are asked for. */
  function CustomMessagesMessage(before: string, after: string): string
  {
    "{\"type\":\"updateCustomMessages\",\"customMessageBefore\":" + Quote(before)
    + ",\"customMessageAfter\":" + Quote(after) + "}"
  }

  /** `{"type":"timerUpdate","timerValue":<t>}` */
  function TimerMessage(t: int): string
  {
    "{\"type\":\"timerUpdate\",\"timerValue\":" + IntString(t) + "}"
  }

  const TEAM_NAMES_PREFIX: string := "{\"type\":\"updateTeamNames\",\"teamNames\":["

  /** Each name quoted and followed by a comma, the way the read loop appends them. */
  function QuotedWithCommas(names: seq<string>): (r: string)
    ensures names != [] ==> |r| > 0 && r[|r| - 1] == ','
  {
    if names == [] then "" else QuotedWithCommas(names[..|names| - 1]) + Quote(names[|names| - 1]) + ","
  }

  function QuotedAll(names: seq<string>): (r: seq<string>)
    ensures |r| == |names| && forall i :: 0 <= i < |names| ==> r[i] == Quote(names[i])
  {
    seq(|names|, i requires 0 <= i < |names| => Quote(names[i]))
  }

  /** The list of team names as a JSON array of strings: `[` names `]`. */
  function TeamNamesMessage(names: seq<string>): string
  {
    TEAM_NAMES_PREFIX + Join(QuotedAll(names), ",") + MESSAGE_END
  }

  /** The message `getTeamNamesFromPreferences` builds, as written: after the
      loop the last character is dropped unconditionally to remove the
      trailing comma. With no names that character is the `[`. */
  function TeamNamesMessageAsWritten(names: seq<string>): string
  {
    var body := TEAM_NAMES_PREFIX + QuotedWithCommas(names);
    body[..|body| - 1] + MESSAGE_END
  }

  /** Dropping the last comma of the appended names leaves them joined by commas. */
  lemma {:induction false} StripLastComma(names: seq<string>)
    requires names != []
    ensures var q := QuotedWithCommas(names); q[..|q| - 1] == Join(QuotedAll(names), ",")
  {
    var init := names[..|names| - 1];
    var last := names[|names| - 1];
    var q := QuotedWithCommas(names);
    assert q == QuotedWithCommas(init) + Quote(last) + ",";
    assert q[..|q| - 1] == QuotedWithCommas(init) + Quote(last);
    var qs := QuotedAll(names);
    assert qs[..|qs| - 1] == QuotedAll(init);
    if init != [] {
      StripLastComma(init);
      var qi := QuotedWithCommas(init);
      assert qi == qi[..|qi| - 1] + ",";
    }
  }

  /** With at least one name the message as written is the JSON array the
      browser expects. */
  lemma TeamNamesAsWrittenWhenNonEmpty(names: seq<string>)
    requires names != []
    ensures TeamNamesMessageAsWritten(names) == TeamNamesMessage(names)
  {
    StripLastComma(names);
    var q := QuotedWithCommas(names);
    assert (TEAM_NAMES_PREFIX + q)[..|TEAM_NAMES_PREFIX + q| - 1] == TEAM_NAMES_PREFIX + q[..|q| - 1];
  }

  /** With no stored name the message as written loses its `[`:
      `{"type":"updateTeamNames","teamNames":]}` instead of `...:[]}`. */
  lemma TeamNamesAsWrittenWhenEmpty()
    ensures TeamNamesMessageAsWritten([]) == "{\"type\":\"updateTeamNames\",\"teamNames\":]}"
    ensures TeamNamesMessage([]) == "{\"type\":\"updateTeamNames\",\"teamNames\":[]}"
    ensures TeamNamesMessageAsWritten([]) != TeamNamesMessage([])
  {
    assert QuotedAll([]) == [];
    assert |TeamNamesMessageAsWritten([])| != |TeamNamesMessage([])|;
  }

  // ---------------------------------------------------------------------
  // The Preferences namespaces

  /** The key of the i-th team name: "team1", "team2", ... */
  function TeamKey(i: nat): string
  {
    "team" + Decimal(i)
  }

  /** Different positions use different keys. */
  lemma TeamKeyInjective(i: nat, j: nat)
    requires TeamKey(i) == TeamKey(j)
    ensures i == j
  {
    assert TeamKey(i)[4..] == Decimal(i);
    assert TeamKey(j)[4..] == Decimal(j);
    DecimalInjective(i, j);
  }

  /** `getString(key, "")` */
  function GetString(prefs: map<string, string>, key: string): (r: string)
    ensures key in prefs ==> r == prefs[key]
    ensures key !in prefs ==> r == ""
  {
    if key in prefs then prefs[key] else ""
  }

  /** `getInt(key, 0)` */
  function GetInt(prefs: map<string, int>, key: string): (r: int)
    ensures key in prefs ==> r == prefs[key]
    ensures key !in prefs ==> r == 0
  {
    if key in prefs then prefs[key] else 0
  }

  /** The store after `clear()` and writing `names[k]` under "team<k+1>". */
  function Saved(names: seq<string>): map<string, string>
  {
    if names == [] then map[] else Saved(names[..|names| - 1])[TeamKey(|names|) := names[|names| - 1]]
  }

  /** The saved store holds exactly the keys team1..teamN, with the names in order. */
  lemma {:induction false} SavedContents(names: seq<string>, j: nat)
    ensures 1 <= j <= |names| ==> TeamKey(j) in Saved(names) && Saved(names)[TeamKey(j)] == names[j - 1]
    ensures (j == 0 || j > |names|) ==> TeamKey(j) !in Saved(names)
  {
    if names != [] {
      var init := names[..|names| - 1];
      SavedContents(init, j);
      if TeamKey(j) == TeamKey(|names|) {
        TeamKeyInjective(j, |names|);
      }
    }
  }

  /** The names read back from position `i + 1` on: team<i+1>, team<i+2>, ...
      up to the first key that is missing or holds the empty string. A key
      once read is dropped from the map, which bounds the reading. */
  function LoadFrom(prefs: map<string, string>, i: nat): seq<string>
    decreases |prefs|
  {
    var key := TeamKey(i + 1);
    if GetString(prefs, key) == "" then []
    else [prefs[key]] + LoadFrom(prefs - {key}, i + 1)
  }

  /** If the store holds `names[i..]` under team<i+1>..team<n> and nothing
      under team<n+1>, reading from position `i + 1` returns exactly them. */
  lemma {:induction false} LoadFromStored(prefs: map<string, string>, names: seq<string>, i: nat)
    requires i <= |names|
    requires forall k :: 0 <= k < |names| ==> names[k] != ""
    requires forall j: nat :: i < j <= |names| ==> GetString(prefs, TeamKey(j)) == names[j - 1]
    requires GetString(prefs, TeamKey(|names| + 1)) == ""
    decreases |names| - i
    ensures LoadFrom(prefs, i) == names[i..]
  {
    if i < |names| {
      var key := TeamKey(i + 1);
      var rest := prefs - {key};
      forall j: nat | i + 1 < j <= |names| + 1
        ensures GetString(rest, TeamKey(j)) == GetString(prefs, TeamKey(j))
      {
        if TeamKey(j) == key {
          TeamKeyInjective(j, i + 1);
        }
      }
      LoadFromStored(rest, names, i + 1);
      assert names[i..] == [names[i]] + names[i + 1..];
    }
  }

  /** The state of the read loop after `i` names: `loaded` holds them, `rest`
      is the store without the keys already read, and reading on from `rest`
      gives the remaining names. */
  ghost predicate LoadInvariant(prefs: map<string, string>, rest: map<string, string>, i: nat, loaded: seq<string>)
  {
    && i == |loaded|
    && loaded + LoadFrom(rest, i) == LoadFrom(prefs, 0)
    && forall j: nat :: j > i ==> GetString(rest, TeamKey(j)) == GetString(prefs, TeamKey(j))
  }

  /** Reading one more non-empty name keeps the loop state and shrinks `rest`. */
  lemma LoadStep(prefs: map<string, string>, rest: map<string, string>, i: nat, loaded: seq<string>)
    requires LoadInvariant(prefs, rest, i, loaded)
    requires GetString(prefs, TeamKey(i + 1)) != ""
    ensures TeamKey(i + 1) in rest && |rest - {TeamKey(i + 1)}| < |rest|
    ensures LoadInvariant(prefs, rest - {TeamKey(i + 1)}, i + 1, loaded + [GetString(prefs, TeamKey(i + 1))])
  {
    var key := TeamKey(i + 1);
    var rest' := rest - {key};
    assert GetString(rest, key) != "";
    forall j: nat | j > i + 1
      ensures GetString(rest', TeamKey(j)) == GetString(prefs, TeamKey(j))
    {
      if TeamKey(j) == key {
        TeamKeyInjective(j, i + 1);
      }
    }
    assert loaded + [rest[key]] + LoadFrom(rest', i + 1) == loaded + LoadFrom(rest, i);
  }

  /** When the next name is missing or empty, everything has been read. */
  lemma LoadDone(prefs: map<string, string>, rest: map<string, string>, i: nat, loaded: seq<string>)
    requires LoadInvariant(prefs, rest, i, loaded)
    requires GetString(prefs, TeamKey(i + 1)) == ""
    ensures loaded == LoadFrom(prefs, 0)
  {
    assert GetString(rest, TeamKey(i + 1)) == "";
    assert loaded + [] == loaded;
  }

  /** Appending one quoted name and a comma to the text built so far. */
  lemma AppendQuoted(prefix: string, loaded: seq<string>, name: string)
    ensures prefix + QuotedWithCommas(loaded) + ("\"" + name + "\",") == prefix + QuotedWithCommas(loaded + [name])
  {
    assert (loaded + [name])[..|loaded|] == loaded;
  }

  /** Saving a list of non-empty team names and reading them back returns the list. */
  lemma SaveThenLoad(names: seq<string>)
    requires forall k :: 0 <= k < |names| ==> names[k] != ""
    ensures LoadFrom(Saved(names), 0) == names
  {
    forall j: nat | 0 < j <= |names|
      ensures GetString(Saved(names), TeamKey(j)) == names[j - 1]
    {
      SavedContents(names, j);
    }
    SavedContents(names, |names| + 1);
    LoadFromStored(Saved(names), names, 0);
  }

  /** Reading stops at the first empty name: what comes after it is not returned. */
  lemma SaveThenLoadStopsAtEmpty(names: seq<string>, k: nat)
    requires k < |names| && names[k] == ""
    requires forall m :: 0 <= m < k ==> names[m] != ""
    ensures LoadFrom(Saved(names), 0) == names[..k]
  {
    var prefix := names[..k];
    forall j: nat | 0 < j <= k + 1
      ensures GetString(Saved(names), TeamKey(j)) == if j <= k then prefix[j - 1] else ""
    {
      SavedContents(names, j);
    }
    LoadFromStored(Saved(names), prefix, 0);
    assert prefix[0..] == prefix;
  }

  // ---------------------------------------------------------------------
  // The state as a value, and what each operation does to it

  /** All of the module's state: the lanes, the countdown length, the time each
      lane was last triggered, the custom announcement texts, the two
      Preferences namespaces and the messages sent so far. */
  datatype PitState = PitState(
    lanes: seq<ButtonState>,
    countdownTimer: int,
    triggerTimes: seq<uint32>,
    customBefore: string,
    customAfter: string,
    teamPrefs: map<string, string>,
    timerPrefs: map<string, int>,
    sent: seq<string>)

  predicate WellSized(s: PitState)
  {
    |s.lanes| == NUM_LANES && |s.triggerTimes| == NUM_LANES
  }

  /** `notifyButtonClients` */
  function NotifyButtons(s: PitState): PitState
  {
    s.(sent := s.sent + [ButtonUpdateMessage(s.lanes)])
  }

  /** `announcePilotSwap(lane)` for a lane number 1..4: the lane's countdown
      starts and the swap is announced. */
  function AnnounceSwap(s: PitState, lane: int): (t: PitState)
    requires WellSized(s) && 1 <= lane <= NUM_LANES
    ensures WellSized(t)
    ensures t.lanes[lane - 1] == s.lanes[lane - 1].(countdown := s.countdownTimer)
    ensures forall k :: 0 <= k < NUM_LANES && k != lane - 1 ==> t.lanes[k] == s.lanes[k]
    ensures t.sent == s.sent + [PilotSwapMessage(lane)]
    ensures t == s.(lanes := t.lanes, sent := t.sent)
  {
    s.(lanes := s.lanes[lane - 1 := s.lanes[lane - 1].(countdown := s.countdownTimer)],
       sent := s.sent + [PilotSwapMessage(lane)])
  }

  /** The lane index `update` computes from a team id "team<N>": N - 1. */
  function UpdateIndex(teamId: string): int
  {
    ToInt(Substring(teamId, 4)) - 1
  }

  /** `update(teamId, teamName)`: the lane's name changes, then every client is told. */
  function UpdateTeam(s: PitState, teamId: string, teamName: string): (t: PitState)
    requires WellSized(s) && 0 <= UpdateIndex(teamId) < NUM_LANES
    ensures WellSized(t)
    ensures t.lanes[UpdateIndex(teamId)].teamName == teamName
    ensures t.lanes[UpdateIndex(teamId)].countdown == s.lanes[UpdateIndex(teamId)].countdown
    ensures forall k :: 0 <= k < NUM_LANES && k != UpdateIndex(teamId) ==> t.lanes[k] == s.lanes[k]
    ensures t.sent == s.sent + [ButtonUpdateMessage(t.lanes)]
  {
    var i := UpdateIndex(teamId);
    NotifyButtons(s.(lanes := s.lanes[i := s.lanes[i].(teamName := teamName)]))
  }

  /** `saveTeamNamesInPreferences` with the outcome of parsing the message: a
      parse error changes nothing, otherwise the namespace is cleared and the
      names written (a message without the array saves none). */
  function SaveTeams(s: PitState, parsed: Option<seq<string>>): PitState
  {
    if parsed.None? then s else s.(teamPrefs := Saved(parsed.value))
  }

  /** `getTeamNamesFromPreferences`, as written: the stored names in the
      message whose last character before `]}` is dropped unconditionally. */
  function LoadTeams(s: PitState): PitState
  {
    s.(sent := s.sent + [TeamNamesMessageAsWritten(LoadFrom(s.teamPrefs, 0))])
  }

  const TIMER_KEY: string := "timer"

  /** `getCountdownTimer`: reload the countdown length (0 when never stored) and send it. */
  function GetTimer(s: PitState): PitState
  {
    var t := GetInt(s.timerPrefs, TIMER_KEY);
    s.(countdownTimer := t, sent := s.sent + [TimerMessage(t)])
  }

  /** `updateCountdownTimer(t)`: use and store the new countdown length. */
  function UpdateTimer(s: PitState, t: int): PitState
  {
    s.(countdownTimer := t, timerPrefs := s.timerPrefs[TIMER_KEY := t])
  }

  /** A stored countdown length is what the next reload yields and reports. */
  lemma UpdateThenGetTimer(s: PitState, t: int)
    ensures GetTimer(UpdateTimer(s, t)).countdownTimer == t
    ensures GetTimer(UpdateTimer(s, t)).sent == s.sent + [TimerMessage(t)]
  {
  }

  /** Whether lane `k` is triggered: pressed while no countdown is running. */
  predicate Triggers(s: PitState, pressed: seq<bool>, k: nat)
    requires WellSized(s) && |pressed| == NUM_LANES && k < NUM_LANES
  {
    pressed[k] && s.lanes[k].countdown == 0
  }

  /** One iteration of the `checkLaneSwitches` loop, for lane index `k`. */
  function LaneSwitch(s: PitState, pressed: seq<bool>, now: uint32, k: nat): (t: PitState)
    requires WellSized(s) && |pressed| == NUM_LANES && k < NUM_LANES
    ensures WellSized(t)
  {
    if Triggers(s, pressed, k) then
      var started := s.(lanes := s.lanes[k := s.lanes[k].(countdown := s.countdownTimer)],
                        triggerTimes := s.triggerTimes[k := now]);
      AnnounceSwap(NotifyButtons(started), k + 1)
    else s
  }

  /** The first `n` iterations of the `checkLaneSwitches` loop. */
  function Switches(s: PitState, pressed: seq<bool>, now: uint32, n: nat): (t: PitState)
    requires WellSized(s) && |pressed| == NUM_LANES && n <= NUM_LANES
    ensures WellSized(t)
  {
    if n == 0 then s else LaneSwitch(Switches(s, pressed, now, n - 1), pressed, now, n - 1)
  }

  /** After the loop over all lanes: a lane pressed while idle has its countdown
      started and its trigger time set to `now`; every other lane is as before.
      The countdown length, the names and the stores do not change. */
  lemma {:induction false} SwitchesEffect(s: PitState, pressed: seq<bool>, now: uint32, n: nat)
    requires WellSized(s) && |pressed| == NUM_LANES && n <= NUM_LANES
    ensures var t := Switches(s, pressed, now, n);
      && t.countdownTimer == s.countdownTimer
      && t.teamPrefs == s.teamPrefs && t.timerPrefs == s.timerPrefs
      && t.customBefore == s.customBefore && t.customAfter == s.customAfter
      && (forall k :: 0 <= k < n && Triggers(s, pressed, k) ==>
            t.lanes[k] == s.lanes[k].(countdown := s.countdownTimer) && t.triggerTimes[k] == now)
      && (forall k :: 0 <= k < NUM_LANES && (k >= n || !Triggers(s, pressed, k)) ==>
            t.lanes[k] == s.lanes[k] && t.triggerTimes[k] == s.triggerTimes[k])
  {
    if n > 0 {
      SwitchesEffect(s, pressed, now, n - 1);
    }
  }

  /** The lane table once each lane below `n` that triggers has its countdown started. */
  function StartedLanes(s: PitState, pressed: seq<bool>, n: nat): (lanes: seq<ButtonState>)
    requires WellSized(s) && |pressed| == NUM_LANES && n <= NUM_LANES
    ensures |lanes| == NUM_LANES
  {
    seq(NUM_LANES, k requires 0 <= k < NUM_LANES =>
      if k < n && Triggers(s, pressed, k) then s.lanes[k].(countdown := s.countdownTimer) else s.lanes[k])
  }

  /** The messages of the first `n` lanes, in lane order: for each triggered
      lane, the lane table with every triggered lane up to it started, then
      the swap announcement for its lane number. */
  function SwitchMessages(s: PitState, pressed: seq<bool>, n: nat): seq<string>
    requires WellSized(s) && |pressed| == NUM_LANES && n <= NUM_LANES
  {
    if n == 0 then []
    else SwitchMessages(s, pressed, n - 1)
         + (if Triggers(s, pressed, n - 1)
            then [ButtonUpdateMessage(StartedLanes(s, pressed, n)), PilotSwapMessage(n)]
            else [])
  }

  /** Every message a lane switch sends: none for a lane that is not triggered,
      and two (the lane table, then the swap announcement) for each triggered
      lane, in lane order, after what was sent before. */
  lemma {:induction false} SwitchesMessages(s: PitState, pressed: seq<bool>, now: uint32, n: nat)
    requires WellSized(s) && |pressed| == NUM_LANES && n <= NUM_LANES
    ensures Switches(s, pressed, now, n).sent == s.sent + SwitchMessages(s, pressed, n)
    ensures |Switches(s, pressed, now, n).sent| == |s.sent| + 2 * TriggeredCount(s, pressed, n)
  {
    if n > 0 {
      SwitchesMessages(s, pressed, now, n - 1);
      SwitchesEffect(s, pressed, now, n - 1);
      var t := Switches(s, pressed, now, n - 1);
      assert Triggers(t, pressed, n - 1) <==> Triggers(s, pressed, n - 1);
      if Triggers(s, pressed, n - 1) {
        StartedLanesStep(s, pressed, now, n);
      }
    }
  }

  /** Starting lane `n - 1` in the table left by the first `n - 1` iterations
      gives the table with every triggered lane below `n` started. */
  lemma StartedLanesStep(s: PitState, pressed: seq<bool>, now: uint32, n: nat)
    requires WellSized(s) && |pressed| == NUM_LANES && 0 < n <= NUM_LANES
    requires Triggers(s, pressed, n - 1)
    ensures var t := Switches(s, pressed, now, n - 1);
      t.lanes[n - 1 := t.lanes[n - 1].(countdown := t.countdownTimer)] == StartedLanes(s, pressed, n)
  {
    SwitchesEffect(s, pressed, now, n - 1);
    var t := Switches(s, pressed, now, n - 1);
    var lanes := t.lanes[n - 1 := t.lanes[n - 1].(countdown := t.countdownTimer)];
    forall k | 0 <= k < NUM_LANES
      ensures lanes[k] == StartedLanes(s, pressed, n)[k]
    {
    }
  }

  /** How many of the first `n` lanes trigger. */
  function TriggeredCount(s: PitState, pressed: seq<bool>, n: nat): nat
    requires WellSized(s) && |pressed| == NUM_LANES && n <= NUM_LANES
  {
    if n == 0 then 0 else TriggeredCount(s, pressed, n - 1) + (if Triggers(s, pressed, n - 1) then 1 else 0)
  }

  /** A lane with a running countdown is never re-triggered, however it is pressed. */
  lemma RunningLaneUntouched(s: PitState, pressed: seq<bool>, now: uint32, k: nat)
    requires WellSized(s) && |pressed| == NUM_LANES && k < NUM_LANES
    requires s.lanes[k].countdown != 0
    ensures Switches(s, pressed, now, NUM_LANES).lanes[k] == s.lanes[k]
  {
    SwitchesEffect(s, pressed, now, NUM_LANES);
  }

  /** The fields of the JSON document `handleWebSocketMessage` reads, as the
      JSON library hands them over (an absent `teamNames` array is empty). */
  datatype Doc = Doc(
    msgType: string,
    teamId: string,
    teamName: string,
    buttonId: string,
    customMessageBefore: string,
    customMessageAfter: string,
    teamNames: seq<string>,
    timerValue: int)

  /** The lane writes `pilotSwap` and `update` make land inside the table;
      the firmware does not check, and writes out of bounds otherwise. */
  predicate LaneInRange(doc: Doc)
  {
    && (doc.msgType == "pilotSwap" ==> 1 <= ToInt(doc.teamId) <= NUM_LANES)
    && (doc.msgType == "update" ==> 0 <= UpdateIndex(doc.teamId) < NUM_LANES)
  }

  /** `handleWebSocketMessage`: only a complete single-frame text message is
      looked at; a JSON parse error (`None`) changes nothing; otherwise the
      `type` field picks the handler and an unknown type changes nothing. */
  function Handle(s: PitState, wholeTextFrame: bool, doc: Option<Doc>): PitState
    requires WellSized(s)
    requires wholeTextFrame && doc.Some? ==> LaneInRange(doc.value)
  {
    if !wholeTextFrame || doc.None? then s
    else
      var d := doc.value;
      if d.msgType == "pilotSwap" then NotifyButtons(AnnounceSwap(s, ToInt(d.teamId)))
      else if d.msgType == "update" then UpdateTeam(s, d.teamId, d.teamName)
      else if d.msgType == "updateCustomMessages" then
        s.(customBefore := d.customMessageBefore, customAfter := d.customMessageAfter,
           sent := s.sent + [CustomMessagesMessage(d.customMessageBefore, d.customMessageAfter)])
      else if d.msgType == "getCustomMessages" then
        s.(sent := s.sent + [CustomMessagesMessage(s.customBefore, s.customAfter)])
      else if d.msgType == "updateTeamNames" then SaveTeams(s, Some(d.teamNames))
      else if d.msgType == "getTeamNames" then LoadTeams(s)
      else if d.msgType == "getCountdownTimer" then GetTimer(s)
      else if d.msgType == "updateCountdownTimer" then UpdateTimer(s, d.timerValue)
      else s
  }

  /** A browser that saves team names and then asks for them gets back the
      reply built from the same list; when at least one name was saved, and
      none is empty, that reply is the list as a JSON array. */
  lemma SaveThenAskForTeamNames(s: PitState, names: seq<string>, d1: Doc, d2: Doc)
    requires WellSized(s)
    requires d1.msgType == "updateTeamNames" && d1.teamNames == names
    requires d2.msgType == "getTeamNames"
    requires forall k :: 0 <= k < |names| ==> names[k] != ""
    ensures var s1 := Handle(s, true, Some(d1));
            var s2 := Handle(s1, true, Some(d2));
            && s2.sent == s.sent + [TeamNamesMessageAsWritten(names)]
            && (names != [] ==> s2.sent == s.sent + [TeamNamesMessage(names)])
  {
    SaveThenLoad(names);
    if names != [] {
      TeamNamesAsWrittenWhenNonEmpty(names);
    }
  }

  /** Asking for team names when none is stored (or "team1" is empty) sends
      `{"type":"updateTeamNames","teamNames":]}`, which is not JSON. */
  lemma AskForTeamNamesWithNoneStored(s: PitState, d: Doc)
    requires WellSized(s)
    requires d.msgType == "getTeamNames"
    requires GetString(s.teamPrefs, TeamKey(1)) == ""
    ensures Handle(s, true, Some(d)).sent == s.sent + ["{\"type\":\"updateTeamNames\",\"teamNames\":]}"]
    ensures Handle(s, true, Some(d)).sent != s.sent + [TeamNamesMessage([])]
  {
    assert LoadFrom(s.teamPrefs, 0) == [];
    TeamNamesAsWrittenWhenEmpty();
    var sent := Handle(s, true, Some(d)).sent;
    assert sent[|s.sent|] != (s.sent + [TeamNamesMessage([])])[|s.sent|];
  }

  // ---------------------------------------------------------------------
  // The firmware's global state as an object

  /** The globals of `src/pitbuttons.cpp`: `buttonStates`, `countdownTimer`,
      `countdownTimers`, the custom texts and the two Preferences objects. */
  class PitBoard {
    const buttonStates: array<ButtonState>
    var countdownTimer: int
    const countdownTimers: array<uint32>
    var customAnnounceMessageBefore: string
    var customAnnounceMessageAfter: string
    var teamPrefs: map<string, string>
    var timerPrefs: map<string, int>
    var sent: seq<string>

    ghost predicate Valid()
      reads this
    {
      buttonStates.Length == NUM_LANES && countdownTimers.Length == NUM_LANES
    }

    ghost function View(): (s: PitState)
      reads this, buttonStates, countdownTimers
      requires Valid()
      ensures WellSized(s)
    {
      PitState(buttonStates[..], countdownTimer, countdownTimers[..], customAnnounceMessageBefore,
               customAnnounceMessageAfter, teamPrefs, timerPrefs, sent)
    }

    /** Power-up and `initpitbuttons`: the lanes are named "Lane 1".."Lane 4"
        and idle; the two Preferences namespaces keep what was stored before. */
    constructor (storedTeams: map<string, string>, storedTimer: map<string, int>)
      ensures Valid() && fresh(buttonStates) && fresh(countdownTimers)
      ensures View() == PitState(INITIAL_LANES, 0, [0, 0, 0, 0], "", "", storedTeams, storedTimer, [])
    {
      buttonStates := new ButtonState[NUM_LANES](i requires 0 <= i < NUM_LANES => INITIAL_LANES[i]);
      countdownTimers := new uint32[NUM_LANES](_ => 0);
      countdownTimer := 0;
      customAnnounceMessageBefore := "";
      customAnnounceMessageAfter := "";
      teamPrefs := storedTeams;
      timerPrefs := storedTimer;
      sent := [];
      new;
      assert buttonStates[..] == INITIAL_LANES;
      assert countdownTimers[..] == [0, 0, 0, 0];
    }

    /** The string loop of `notifyButtonClients`: the lane entries separated
        by commas, with none after the last. */
    method ButtonUpdateText() returns (message: string)
      requires Valid()
      ensures message == ButtonUpdateMessage(buttonStates[..])
    {
      message := BUTTON_UPDATE_PREFIX;
      ghost var entries := LaneEntries(buttonStates[..]);
      var lane := 0;
      while lane < NUM_LANES
        invariant 0 <= lane <= NUM_LANES
        invariant message == BUTTON_UPDATE_PREFIX + JoinedSoFar(entries, lane)
      {
        JoinedSoFarStep(BUTTON_UPDATE_PREFIX, entries, lane);
        message := message + LaneEntry(buttonStates[lane]);
        if lane < NUM_LANES - 1 {
          message := message + ",";
        }
        lane := lane + 1;
      }
      assert entries[..NUM_LANES] == entries;
      message := message + MESSAGE_END;
    }

    /** `notifyButtonClients`: the lane table goes to every client. */
    method NotifyButtonClients()
      requires Valid()
      modifies this
      ensures Valid() && View() == NotifyButtons(old(View()))
    {
      var message := ButtonUpdateText();
      sent := sent + [message];
    }

    /** `announcePilotSwap(lane)` for a lane number 1..4. */
    method AnnouncePilotSwap(lane: int)
      requires Valid() && 1 <= lane <= NUM_LANES
      modifies this, buttonStates
      ensures Valid() && View() == AnnounceSwap(old(View()), lane)
    {
      var message := PilotSwapMessage(lane);
      buttonStates[lane - 1] := buttonStates[lane - 1].(countdown := countdownTimer);
      sent := sent + [message];
    }

    /** `pilotSwap(teamId, buttonId)`: the team id is the lane number. */
    method PilotSwap(teamId: string, buttonId: string)
      requires Valid() && 1 <= ToInt(teamId) <= NUM_LANES
      modifies this, buttonStates
      ensures Valid() && View() == NotifyButtons(AnnounceSwap(old(View()), ToInt(teamId)))
    {
      var lane := ToInt(teamId);
      AnnouncePilotSwap(lane);
      NotifyButtonClients();
    }

    /** `update(teamId, teamName)` for a team id "team<N>" with N in 1..4. */
    method Update(teamId: string, teamName: string)
      requires Valid() && 0 <= UpdateIndex(teamId) < NUM_LANES
      modifies this, buttonStates
      ensures Valid() && View() == UpdateTeam(old(View()), teamId, teamName)
    {
      var lane := ToInt(Substring(teamId, 4)) - 1;
      buttonStates[lane] := buttonStates[lane].(teamName := teamName);
      NotifyButtonClients();
    }

    /** `updateCustomMessages(before, after)` */
    method UpdateCustomMessages(before: string, after: string)
      requires Valid()
      modifies this
      ensures Valid()
      ensures View() == old(View()).(customBefore := before, customAfter := after,
                                     sent := old(sent) + [CustomMessagesMessage(before, after)])
    {
      customAnnounceMessageBefore := before;
      customAnnounceMessageAfter := after;
      sent := sent + [CustomMessagesMessage(customAnnounceMessageBefore, customAnnounceMessageAfter)];
    }

    /** `getCustomMessages` */
    method GetCustomMessages()
      requires Valid()
      modifies this
      ensures Valid()
      ensures View() == old(View()).(sent := old(sent) + [CustomMessagesMessage(customAnnounceMessageBefore, customAnnounceMessageAfter)])
    {
      sent := sent + [CustomMessagesMessage(customAnnounceMessageBefore, customAnnounceMessageAfter)];
    }

    /** `saveTeamNamesInPreferences`, given the outcome of parsing the message. */
    method SaveTeamNamesInPreferences(parsed: Option<seq<string>>)
      requires Valid()
      modifies this
      ensures Valid() && View() == SaveTeams(old(View()), parsed)
    {
      if parsed.None? {
        return;
      }
      var teamNames := parsed.value;
      var store: map<string, string> := map[];
      var i := 0;
      while i < |teamNames|
        invariant 0 <= i <= |teamNames|
        invariant store == Saved(teamNames[..i])
      {
        assert teamNames[..i + 1][..i] == teamNames[..i];
        store := store[TeamKey(i + 1) := teamNames[i]];
        i := i + 1;
      }
      assert teamNames[..i] == teamNames;
      teamPrefs := store;
    }

    /** The read loop of `getTeamNamesFromPreferences`: team1, team2, ... are
        read until a key is missing or empty, each name appended quoted and
        followed by a comma. The last character is then dropped, whether or
        not a name was appended, and `]}` closes the text. */
    method TeamNamesText() returns (teamNames: string)
      ensures teamNames == TeamNamesMessageAsWritten(LoadFrom(teamPrefs, 0))
      ensures LoadFrom(teamPrefs, 0) != [] ==> teamNames == TeamNamesMessage(LoadFrom(teamPrefs, 0))
    {
      teamNames := TEAM_NAMES_PREFIX;
      var i := 0;
      ghost var rest := teamPrefs;
      ghost var loaded: seq<string> := [];
      while true
        invariant LoadInvariant(teamPrefs, rest, i, loaded)
        invariant teamNames == TEAM_NAMES_PREFIX + QuotedWithCommas(loaded)
        decreases |rest|
      {
        var teamName := GetString(teamPrefs, TeamKey(i + 1));
        if teamName == "" {
          break;
        }
        LoadStep(teamPrefs, rest, i, loaded);
        AppendQuoted(TEAM_NAMES_PREFIX, loaded, teamName);
        teamNames := teamNames + ("\"" + teamName + "\",");
        loaded := loaded + [teamName];
        rest := rest - {TeamKey(i + 1)};
        i := i + 1;
      }
      LoadDone(teamPrefs, rest, i, loaded);
      var body := teamNames;
      assert body == TEAM_NAMES_PREFIX + QuotedWithCommas(LoadFrom(teamPrefs, 0));
      teamNames := body[..|body| - 1] + MESSAGE_END;
      if loaded != [] {
        TeamNamesAsWrittenWhenNonEmpty(loaded);
      }
    }

    /** `getTeamNamesFromPreferences`: the stored names go to every client. */
    method GetTeamNamesFromPreferences()
      requires Valid()
      modifies this
      ensures Valid() && View() == LoadTeams(old(View()))
    {
      var teamNames := TeamNamesText();
      sent := sent + [teamNames];
    }

    /** `getCountdownTimer` */
    method GetCountdownTimer()
      requires Valid()
      modifies this
      ensures Valid() && View() == GetTimer(old(View()))
    {
      countdownTimer := GetInt(timerPrefs, TIMER_KEY);
      sent := sent + [TimerMessage(countdownTimer)];
    }

    /** `updateCountdownTimer(timer)` */
    method UpdateCountdownTimer(timer: int)
      requires Valid()
      modifies this
      ensures Valid() && View() == UpdateTimer(old(View()), timer)
    {
      countdownTimer := timer;
      timerPrefs := timerPrefs[TIMER_KEY := countdownTimer];
    }

    /** `checkLaneSwitches` with `pressed[k]` for the lane pin reading HIGH and
        `now` for `millis()`. */
    method CheckLaneSwitches(pressed: seq<bool>, now: uint32)
      requires Valid() && |pressed| == NUM_LANES
      modifies this, buttonStates, countdownTimers
      ensures Valid() && View() == Switches(old(View()), pressed, now, NUM_LANES)
    {
      var lane := 0;
      while lane < NUM_LANES
        invariant 0 <= lane <= NUM_LANES
        invariant Valid() && View() == Switches(old(View()), pressed, now, lane)
      {
        if pressed[lane] {
          if buttonStates[lane].countdown == 0 {
            buttonStates[lane] := buttonStates[lane].(countdown := countdownTimer);
            countdownTimers[lane] := now;
            NotifyButtonClients();
            AnnouncePilotSwap(lane + 1);
          }
        }
        lane := lane + 1;
      }
    }

    /** `handleWebSocketMessage`: `wholeTextFrame` says the frame is a complete
        single-frame text message, `doc` is the parsed document (`None` on a
        parse error). */
    method HandleWebSocketMessage(wholeTextFrame: bool, doc: Option<Doc>)
      requires Valid()
      requires wholeTextFrame && doc.Some? ==> LaneInRange(doc.value)
      modifies this, buttonStates
      ensures Valid() && View() == Handle(old(View()), wholeTextFrame, doc)
    {
      if !(wholeTextFrame && doc.Some?) {
        return;
      }
      var d := doc.value;
      var msgType := d.msgType;
      if msgType == "pilotSwap" {
        PilotSwap(d.teamId, d.buttonId);
      } else if msgType == "update" {
        Update(d.teamId, d.teamName);
      } else if msgType == "updateCustomMessages" {
        UpdateCustomMessages(d.customMessageBefore, d.customMessageAfter);
      } else if msgType == "getCustomMessages" {
        GetCustomMessages();
      } else if msgType == "updateTeamNames" {
        SaveTeamNamesInPreferences(Some(d.teamNames));
      } else if msgType == "getTeamNames" {
        GetTeamNamesFromPreferences();
      } else if msgType == "getCountdownTimer" {
        GetCountdownTimer();
      } else if msgType == "updateCountdownTimer" {
        UpdateCountdownTimer(d.timerValue);
      }
    }
  }
}
