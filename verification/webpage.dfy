/** The web layer of `src/webpage.cpp`: the WebSocket tare-command classifier,
    the choice of children in the parent's periodic update, the 2500 ms
    broadcast gate and the delta tracker of sent child weights. Messages to
    the browsers are collected in a list instead of being serialised. */
module Webpage {
  import opened Wrappers
  import opened Numeric
  import opened ArduinoString
  import Espnow
  import PitButtons

  /** The kinds of event the WebSocket server reports to `onEvent`. */
  datatype WsEvent = Connect | Disconnect | Data | Pong | Error

  /** What one incoming WebSocket text message asks of the tare logic. */
  datatype TareCommand =
    | NotATareCommand          // no tare branch matches; nothing happens
    | TareAllIgnored           // parent got "tare": no frame is sent, clients are notified
    | TareNode(nodeId: uint8)  // parent: send a tare command to this node
    | TareLocal                // child: tare the local scale once

  const TARE: string := "tare"
  const TARE_PREFIX: string := "tare:"
  const TARE_CHILD_PREFIX: string := "tare:child:"

  /** Whether the message is one of the tare forms at all. */
  predicate IsTareMessage(msg: string)
  {
    msg == TARE || StartsWith(msg, TARE_PREFIX)
  }

  /** The tare branch of `onEvent` for a data message `msg`, by role. The longer
      prefix "tare:child:" is tested before "tare:", and the node number is
      `toInt()` of the rest narrowed to `uint8_t`. A child ignores the number. */
  function ClassifyTare(isParent: bool, msg: string): (c: TareCommand)
    ensures c.NotATareCommand? <==> !IsTareMessage(msg)
    ensures c.TareLocal? <==> !isParent && IsTareMessage(msg)
    ensures c.TareAllIgnored? <==> isParent && msg == TARE
    ensures isParent && StartsWith(msg, TARE_CHILD_PREFIX) ==>
      c == TareNode(ToUint8(ToInt(msg[|TARE_CHILD_PREFIX|..])))
    ensures isParent && StartsWith(msg, TARE_PREFIX) && !StartsWith(msg, TARE_CHILD_PREFIX) ==>
      c == TareNode(ToUint8(ToInt(msg[|TARE_PREFIX|..])))
  {
    if isParent then
      if msg == TARE then TareAllIgnored
      else if StartsWith(msg, TARE_CHILD_PREFIX) then TareNode(ToUint8(ToInt(Substring(msg, 11))))
      else if StartsWith(msg, TARE_PREFIX) then TareNode(ToUint8(ToInt(Substring(msg, 5))))
      else NotATareCommand
    else
      if msg == TARE then TareLocal
      else if StartsWith(msg, TARE_PREFIX) then TareLocal
      else NotATareCommand
  }

  /** Every recognised tare message is followed by a fresh update to the clients. */
  predicate NotifiesClients(c: TareCommand)
  {
    !c.NotATareCommand?
  }

  /** The message the browser sends for node `n`, "tare:" + n, reaches node
      `n mod 256` on the parent. */
  lemma TareNodeMessage(n: nat)
    ensures ClassifyTare(true, TARE_PREFIX + Decimal(n)) == TareNode(ToUint8(n))
  {
    var d := Decimal(n);
    var msg := TARE_PREFIX + d;
    assert StartsWith(msg, TARE_PREFIX) by {
      assert msg[..|TARE_PREFIX|] == TARE_PREFIX;
    }
    assert !StartsWith(msg, TARE_CHILD_PREFIX) by {
      assert msg[5] == d[0] && IsDigit(d[0]);
    }
    assert msg[|TARE_PREFIX|..] == d + "";
    DecimalRoundTrip(n, "");
  }

  /** "tare:child:N" and "tare:child:N:S" both reach node `N mod 256`: the
      scale suffix stops `toInt()` and is dropped. */
  lemma TareChildMessage(n: nat, suffix: string)
    requires suffix == [] || suffix[0] == ':'
    ensures ClassifyTare(true, TARE_CHILD_PREFIX + Decimal(n) + suffix) == TareNode(ToUint8(n))
  {
    var msg := TARE_CHILD_PREFIX + Decimal(n) + suffix;
    assert msg[..|TARE_CHILD_PREFIX|] == TARE_CHILD_PREFIX;
    assert msg[|TARE_CHILD_PREFIX|..] == Decimal(n) + suffix;
    DecimalRoundTrip(n, suffix);
  }

  /** Were "tare:" tested first, "tare:child:N" would name node 0 ("child..."
      has no leading digit): the order of the tests is what makes the long form work. */
  lemma ChildPrefixMustComeFirst(n: nat)
    ensures ToUint8(ToInt((TARE_CHILD_PREFIX + Decimal(n))[|TARE_PREFIX|..])) == 0
  {
    var rest := (TARE_CHILD_PREFIX + Decimal(n))[|TARE_PREFIX|..];
    assert rest[0] == 'c';
    assert SkipSpace(rest) == rest;
    assert DigitRun(rest) == "";
  }

  /** A child tares its own scale exactly once for any "tare:..." message, whatever number it names. */
  lemma ChildIgnoresIndex(rest: string)
    ensures ClassifyTare(false, TARE_PREFIX + rest) == TareLocal
  {
    assert (TARE_PREFIX + rest)[..|TARE_PREFIX|] == TARE_PREFIX;
  }

  /** One element of the parent's `children` array: `id`, `weight` and, when
      known, `name`. */
  datatype ChildEntry = ChildEntry(id: uint8, weight: real, name: Option<string>)

  /** What one `notifyClients` call sends: the parent's child list, or the
      child's own reading (`null` for NaN). */
  datatype Update =
    | ParentUpdate(children: seq<ChildEntry>)
    | ChildUpdate(weight: Option<real>)

  /** Lowest and highest child id the parent reports. */
  const FIRST_CHILD: nat := 1
  const LAST_CHILD: nat := 5

  /** The name reported for a child: `espnowGetChildName` is declared but not
      defined in the firmware, so the names are a parameter; an id without an
      entry yields no pointer and an empty name is omitted. */
  function NameFor(names: map<uint8, string>, id: uint8): (r: Option<string>)
    ensures r.Some? <==> id in names && names[id] != ""
    ensures r.Some? ==> r.value == names[id]
  {
    if id in names && names[id] != "" then Some(names[id]) else None
  }

  /** The entries for ids `1..hi`, in ascending order, skipping ids whose weight is NaN. */
  function Selected(weights: map<uint8, Float32>, names: map<uint8, string>, hi: nat): seq<ChildEntry>
    requires hi <= LAST_CHILD
  {
    if hi < FIRST_CHILD then []
    else
      var w := Espnow.WeightOf(weights, hi);
      Selected(weights, names, hi - 1)
      + (if w.Finite? then [ChildEntry(hi, w.value, NameFor(names, hi))] else [])
  }

  /** Each entry is an id in `1..hi` with its known weight and its name when
      non-empty, and the ids ascend. */
  predicate EntriesFor(weights: map<uint8, Float32>, names: map<uint8, string>, r: seq<ChildEntry>, hi: int)
  {
    && (forall i :: 0 <= i < |r| ==>
          FIRST_CHILD <= r[i].id <= hi
          && Espnow.WeightOf(weights, r[i].id) == Finite(r[i].weight)
          && r[i].name == NameFor(names, r[i].id))
    && (forall i, j :: 0 <= i < j < |r| ==> r[i].id < r[j].id)
  }

  lemma {:induction false} SelectedEntries(weights: map<uint8, Float32>, names: map<uint8, string>, hi: nat)
    requires hi <= LAST_CHILD
    ensures EntriesFor(weights, names, Selected(weights, names, hi), hi)
  {
    if hi >= FIRST_CHILD {
      SelectedEntries(weights, names, hi - 1);
      var init := Selected(weights, names, hi - 1);
      var w := Espnow.WeightOf(weights, hi);
      if w.Finite? {
        var e := ChildEntry(hi, w.value, NameFor(names, hi));
        assert Selected(weights, names, hi) == init + [e];
        EntriesExtend(weights, names, init, e, hi);
      }
    }
  }

  /** Appending an entry for `hi` after entries for ids below `hi`. */
  lemma EntriesExtend(weights: map<uint8, Float32>, names: map<uint8, string>, init: seq<ChildEntry>, e: ChildEntry, hi: nat)
    requires FIRST_CHILD <= hi && e.id == hi
    requires Espnow.WeightOf(weights, e.id) == Finite(e.weight) && e.name == NameFor(names, e.id)
    requires EntriesFor(weights, names, init, hi - 1)
    ensures EntriesFor(weights, names, init + [e], hi)
  {
  }

  /** Every id in `1..hi` whose weight is known has an entry. */
  lemma {:induction false} SelectedComplete(weights: map<uint8, Float32>, names: map<uint8, string>, hi: nat, id: uint8)
    requires FIRST_CHILD <= id <= hi <= LAST_CHILD
    requires Espnow.WeightOf(weights, id).Finite?
    ensures exists i :: 0 <= i < |Selected(weights, names, hi)| && Selected(weights, names, hi)[i].id == id
  {
    var r := Selected(weights, names, hi);
    var init := Selected(weights, names, hi - 1);
    if id == hi {
      assert r[|init|].id == id;
    } else {
      SelectedComplete(weights, names, hi - 1, id);
      var k :| 0 <= k < |init| && init[k].id == id;
      assert r[k].id == id;
    }
  }

  /** The children of the parent's update: ids 1..5 in ascending order, exactly
      those whose weight is not NaN. */
  lemma ParentUpdateChildren(weights: map<uint8, Float32>, names: map<uint8, string>, id: uint8)
    ensures var r := Selected(weights, names, LAST_CHILD);
      (exists i :: 0 <= i < |r| && r[i].id == id)
        <==> FIRST_CHILD <= id <= LAST_CHILD && id in weights && weights[id].Finite?
  {
    SelectedEntries(weights, names, LAST_CHILD);
    if FIRST_CHILD <= id <= LAST_CHILD && id in weights && weights[id].Finite? {
      SelectedComplete(weights, names, LAST_CHILD, id);
    }
  }

  /** The update `notifyClients` builds on a node of the given role. */
  function UpdateFor(isParent: bool, weights: map<uint8, Float32>, names: map<uint8, string>, localWeight: Float32): (u: Update)
    ensures u.ParentUpdate? <==> isParent
    ensures !isParent ==> (u.weight.Some? <==> localWeight.Finite?)
    ensures !isParent && localWeight.Finite? ==> u.weight.value == localWeight.value
  {
    if isParent then ParentUpdate(Selected(weights, names, LAST_CHILD))
    else ChildUpdate(if localWeight.Finite? then Some(localWeight.value) else None)
  }

  /** `BROADCAST_INTERVAL` in milliseconds. */
  const BROADCAST_INTERVAL: uint32 := 2500

  /** Whether `webBroadcastLoop` at clock reading `now` notifies the clients. */
  predicate BroadcastDue(lastBroadcast: uint32, now: uint32)
  {
    Elapsed(now, lastBroadcast) >= BROADCAST_INTERVAL
  }

  /** After a broadcast at `t0`, the next one comes no sooner than 2500 ms
      later, also across the 32-bit roll-over of the clock. */
  lemma BroadcastsSpaced(t0: uint32, t1: uint32)
    ensures BroadcastDue(t0, t1) <==> (t0 <= t1 && t1 - t0 >= 2500) || (t1 < t0 && UINT32_LIMIT - t0 + t1 >= 2500)
  {
  }

  /** The delta test of `addChildToJson`: the first weight for an id, or one
      that compares unequal to the last sent (NaN compares unequal to
      everything), is recorded and marks the data as changed. */
  function RecordSent(last: map<uint8, Float32>, childId: uint8, weight: Float32): (r: (map<uint8, Float32>, bool))
    ensures r.1 <==> childId !in last || FNotEqual(last[childId], weight)
    ensures r.1 ==> r.0 == last[childId := weight]
    ensures !r.1 ==> r.0 == last
  {
    if childId !in last || FNotEqual(last[childId], weight) then (last[childId := weight], true)
    else (last, false)
  }

  /** Recording a number twice reports a change only the first time; a NaN
      reports a change every time. */
  lemma RecordSentTwice(last: map<uint8, Float32>, childId: uint8, weight: Float32)
    ensures var once := RecordSent(last, childId, weight).0;
      RecordSent(once, childId, weight).1 <==> weight == NaN
  {
    var once := RecordSent(last, childId, weight).0;
    assert childId in once && once[childId] == weight;
  }

  /** The static state of `src/webpage.cpp`, with the messages pushed to the
      browsers collected in `sent`. `docAttached` stands for `globalDoc`
      being non-null: nothing in the firmware ever sets it. */
  class WebPage {
    var lastBroadcast: uint32
    var lastSentWeights: map<uint8, Float32>
    var dataChanged: bool
    var docAttached: bool
    var docChildren: map<string, Float32>
    var sent: seq<Update>

    constructor ()
      ensures lastBroadcast == 0 && lastSentWeights == map[] && !dataChanged
      ensures !docAttached && docChildren == map[] && sent == []
    {
      lastBroadcast := 0;
      lastSentWeights := map[];
      dataChanged := false;
      docAttached := false;
      docChildren := map[];
      sent := [];
    }

    /** The child-selection loop of `notifyClients`: ids 1..5 asked of the
        radio layer one by one, NaN ones skipped. */
    method ChildEntries(radio: Espnow.EspNow, names: map<uint8, string>) returns (entries: seq<ChildEntry>)
      ensures entries == Selected(radio.childWeights, names, LAST_CHILD)
    {
      entries := [];
      var i := FIRST_CHILD;
      while i <= LAST_CHILD
        invariant FIRST_CHILD <= i <= LAST_CHILD + 1
        invariant entries == Selected(radio.childWeights, names, i - 1)
      {
        var childWeight := radio.GetChildWeight(i);
        if childWeight.Finite? {
          entries := entries + [ChildEntry(i, childWeight.value, NameFor(names, i))];
        }
        i := i + 1;
      }
    }

    /** `notifyClients`: one update to every client. On a child `localWeight`
        is the scale reading. */
    method NotifyClients(radio: Espnow.EspNow, names: map<uint8, string>, localWeight: Float32)
      modifies this
      ensures sent == old(sent) + [UpdateFor(radio.isParent, radio.childWeights, names, localWeight)]
      ensures lastBroadcast == old(lastBroadcast) && lastSentWeights == old(lastSentWeights)
      ensures dataChanged == old(dataChanged) && docAttached == old(docAttached) && docChildren == old(docChildren)
    {
      var u: Update;
      if radio.isParent {
        var children := ChildEntries(radio, names);
        u := ParentUpdate(children);
      } else if localWeight.Finite? {
        u := ChildUpdate(Some(localWeight.value));
      } else {
        u := ChildUpdate(None);
      }
      sent := sent + [u];
    }

    /** `webBroadcastLoop` with `now` for `millis()`. */
    method WebBroadcastLoop(now: uint32, radio: Espnow.EspNow, names: map<uint8, string>, localWeight: Float32)
      modifies this
      ensures BroadcastDue(old(lastBroadcast), now) ==>
        lastBroadcast == now && sent == old(sent) + [UpdateFor(radio.isParent, radio.childWeights, names, localWeight)]
      ensures !BroadcastDue(old(lastBroadcast), now) ==> lastBroadcast == old(lastBroadcast) && sent == old(sent)
      ensures lastSentWeights == old(lastSentWeights) && dataChanged == old(dataChanged)
      ensures docAttached == old(docAttached) && docChildren == old(docChildren)
    {
      if Elapsed(now, lastBroadcast) >= BROADCAST_INTERVAL {
        lastBroadcast := now;
        NotifyClients(radio, names, localWeight);
      }
    }

    /** `addChildToJson`: with a document attached, writes the weight under
        the decimal id and records it if it changed; without one (always, as
        written) it does nothing. */
    method AddChildToJson(childId: uint8, weight: Float32)
      modifies this
      ensures old(docAttached) ==>
        docChildren == old(docChildren)[IntString(childId) := weight]
        && (lastSentWeights, dataChanged) ==
           (RecordSent(old(lastSentWeights), childId, weight).0,
            old(dataChanged) || RecordSent(old(lastSentWeights), childId, weight).1)
      ensures !old(docAttached) ==>
        docChildren == old(docChildren) && lastSentWeights == old(lastSentWeights) && dataChanged == old(dataChanged)
      ensures docAttached == old(docAttached) && lastBroadcast == old(lastBroadcast) && sent == old(sent)
    {
      if docAttached {
        docChildren := docChildren[IntString(childId) := weight];
        if childId !in lastSentWeights || FNotEqual(lastSentWeights[childId], weight) {
          dataChanged := true;
          lastSentWeights := lastSentWeights[childId := weight];
        }
      }
    }

    /** `onEvent`: a new client gets an update at once. A data message goes
        first to the pit-button handler (`wholeTextFrame` and `doc` describe it
        as that handler sees it), then is classified as a tare command; every
        recognised one is followed by an update. Any other event does nothing.
        The command is returned. */
    method OnEvent(event: WsEvent, msg: string, wholeTextFrame: bool, doc: Option<PitButtons.Doc>,
                   radio: Espnow.EspNow, pit: PitButtons.PitBoard, names: map<uint8, string>, localWeight: Float32)
      returns (cmd: TareCommand)
      requires pit.Valid()
      requires event.Data? && wholeTextFrame && doc.Some? ==> PitButtons.LaneInRange(doc.value)
      modifies this, pit, pit.buttonStates
      ensures !event.Data? ==> cmd == NotATareCommand && pit.View() == old(pit.View())
      ensures event.Data? ==> cmd == ClassifyTare(radio.isParent, msg)
      ensures event.Data? ==> pit.View() == PitButtons.Handle(old(pit.View()), wholeTextFrame, doc)
      ensures pit.Valid()
      ensures sent == old(sent) + (if event.Connect? || NotifiesClients(cmd)
                                   then [UpdateFor(radio.isParent, radio.childWeights, names, localWeight)] else [])
      ensures lastBroadcast == old(lastBroadcast) && lastSentWeights == old(lastSentWeights)
      ensures dataChanged == old(dataChanged) && docAttached == old(docAttached) && docChildren == old(docChildren)
    {
      cmd := NotATareCommand;
      if event.Connect? {
        NotifyClients(radio, names, localWeight);
      } else if event.Data? {
        pit.HandleWebSocketMessage(wholeTextFrame, doc);
        cmd := ClassifyTare(radio.isParent, msg);
        if cmd != NotATareCommand {
          NotifyClients(radio, names, localWeight);
        }
      }
    }
  }
}
