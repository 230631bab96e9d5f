/** The ESP-NOW protocol state of one node: the parent's registry of child
    weights, the child's one-slot pending tare command, the child's sample
    buffer with its interval-gated averaged send, and the role-guarded send
    builders. Radio sends are appended to an outbox; time is an argument. */
module Espnow {
  import opened Wrappers
  import opened Numeric
  import opened EspnowFrame
  import Config

  /** Capacity of `weightBuffer`. */
  const BUFFER_CAPACITY: nat := 100

  /** `ESPNOW_SEND_INTERVAL`: minimum milliseconds between averaged sends. */
  const ESPNOW_SEND_INTERVAL: uint32 := 1000

  /** The record the firmware fills in and reads, `value` seen as a float. */
  type Message = Frame<Float32>

  /** One call of `esp_now_send`: destination and the record handed over. */
  datatype Outgoing = Outgoing(dest: Config.MacAddress, frame: Message)

  /** The send builders never write `name`; its bytes are indeterminate in the
      source. The model fills them with zeros. */
  const UNSET_NAME: seq<uint8> := [0, 0, 0, 0, 0, 0, 0, 0, 0, 0, 0, 0, 0, 0, 0, 0, 0, 0, 0, 0, 0, 0, 0, 0]

  /** Everything the protocol layer holds, as one value. */
  datatype State = State(
    isParent: bool,
    nodeId: uint8,
    childWeights: map<uint8, Float32>,
    pendingTare: uint8,
    lastSendTime: uint32,
    buffered: seq<Float32>,
    outbox: seq<Outgoing>)

  /** The state right after start-up. A child's id is the last octet of its own
      MAC address; the parent's id keeps its static initial value 0. */
  function Initial(isParent: bool, macLastOctet: uint8): (s: State)
    ensures s.childWeights == map[] && s.pendingTare == 0 && s.buffered == [] && s.outbox == []
    ensures s.nodeId == if isParent then 0 else macLastOctet
  {
    State(isParent, if isParent then 0 else macLastOctet, map[], 0, 0, [], [])
  }

  /** The two maps differ at most at `key`. */
  ghost predicate AgreeExcept(m: map<uint8, Float32>, m': map<uint8, Float32>, key: uint8)
  {
    forall k :: k != key ==> (k in m <==> k in m') && (k in m ==> m[k] == m'[k])
  }

  /** Everything but the parent's registry and the child's pending command is untouched. */
  predicate SameExceptRegistryAndTare(s: State, t: State)
  {
    t.isParent == s.isParent && t.nodeId == s.nodeId && t.lastSendTime == s.lastSendTime
    && t.buffered == s.buffered && t.outbox == s.outbox
  }

  /** `espnowOnRecv(mac, data, len)` with `payload` the record `data` is cast to. */
  function Receive(s: State, len: int, payload: Message): (t: State)
    ensures SameExceptRegistryAndTare(s, t)
    ensures len != FRAME_SIZE ==> t == s
    ensures s.isParent ==> t.pendingTare == s.pendingTare
    ensures !s.isParent ==> t.childWeights == s.childWeights
    ensures s.isParent && len == FRAME_SIZE && payload.msgType == Code(Weight) ==>
      payload.id in t.childWeights && t.childWeights[payload.id] == payload.value
      && AgreeExcept(s.childWeights, t.childWeights, payload.id)
    ensures s.isParent && payload.msgType != Code(Weight) ==> t == s
    ensures !s.isParent && len == FRAME_SIZE && payload.msgType == Code(Tare) ==>
      t.pendingTare == FloatToUint8(payload.value)
    ensures !s.isParent && payload.msgType != Code(Tare) ==> t == s
  {
    if len != FRAME_SIZE then s
    else if s.isParent then
      // a Weight frame is stored; an Ack is only logged; other types are ignored
      if payload.msgType == Code(Weight) then s.(childWeights := s.childWeights[payload.id := payload.value])
      else s
    else
      // the child latches any Tare frame, whatever its id
      if payload.msgType == Code(Tare) then s.(pendingTare := FloatToUint8(payload.value))
      else s
  }

  /** The lookup `espnowGetChildWeight` performs on the registry: NaN means
      "no data for this node". */
  function WeightOf(weights: map<uint8, Float32>, childId: uint8): (w: Float32)
    ensures childId !in weights ==> w == NaN
    ensures childId in weights ==> w == weights[childId]
  {
    if childId in weights then weights[childId] else NaN
  }

  /** `espnowGetPendingTareCommand`: the latched scale number (0 when none) and
      the state with the slot cleared. */
  function TakePendingTare(s: State): (r: (uint8, State))
    ensures r.0 == s.pendingTare
    ensures r.1 == s.(pendingTare := 0)
  {
    (s.pendingTare, s.(pendingTare := 0))
  }

  /** `espnowBufferWeight`: appends on a child while fewer than 100 samples are held. */
  function Buffer(s: State, w: Float32): (t: State)
    ensures t.buffered == if !s.isParent && |s.buffered| < BUFFER_CAPACITY then s.buffered + [w] else s.buffered
    ensures t == s.(buffered := t.buffered)
  {
    if s.isParent || |s.buffered| >= BUFFER_CAPACITY then s else s.(buffered := s.buffered + [w])
  }

  /** The float sum of the samples, accumulated left to right from 0.0. */
  function Sum(ws: seq<Float32>): Float32
  {
    if ws == [] then Finite(0.0) else FAdd(Sum(ws[..|ws| - 1]), ws[|ws| - 1])
  }

  /** The arithmetic mean `sum / count` of a non-empty sample list. */
  function Mean(ws: seq<Float32>): Float32
    requires ws != []
  {
    FDivCount(Sum(ws), |ws|)
  }

  /** Whether `espnowSendAveragedWeightIfReady` at `now` sends: a child, at least
      one interval since the last send (wrapping 32-bit difference), and at
      least one buffered sample. */
  predicate SendDue(s: State, now: uint32)
  {
    !s.isParent && Elapsed(now, s.lastSendTime) >= ESPNOW_SEND_INTERVAL && |s.buffered| > 0
  }

  /** `espnowSendAveragedWeightIfReady` at clock reading `now`. */
  function SendAveragedIfReady(s: State, now: uint32): (t: State)
    ensures !SendDue(s, now) ==> t == s
    ensures SendDue(s, now) ==>
      t == s.(lastSendTime := now, buffered := [],
              outbox := s.outbox + [Outgoing(Config.PARENT_MAC_ADDR,
                                             Frame(Code(Weight), s.nodeId, Mean(s.buffered), UNSET_NAME, now))])
  {
    if SendDue(s, now) then
      s.(lastSendTime := now, buffered := [],
         outbox := s.outbox + [Outgoing(Config.PARENT_MAC_ADDR, Frame(Code(Weight), s.nodeId, Mean(s.buffered), UNSET_NAME, now))])
    else s
  }

  /** `espnowSendWeight`: a child sends one reading at once; a parent does nothing. */
  function SendImmediate(s: State, w: Float32, now: uint32): (t: State)
    ensures s.isParent ==> t == s
    ensures !s.isParent ==> t == s.(outbox := s.outbox + [Outgoing(Config.PARENT_MAC_ADDR, Frame(Code(Weight), s.nodeId, w, UNSET_NAME, now))])
  {
    if s.isParent then s
    else s.(outbox := s.outbox + [Outgoing(Config.PARENT_MAC_ADDR, Frame(Code(Weight), s.nodeId, w, UNSET_NAME, now))])
  }

  /** `espnowSendTare(nodeId, whichScale)`: the parent broadcasts one Tare
      frame naming `nodeId`; a child does nothing. */
  function BroadcastTare(s: State, nodeId: uint8, whichScale: uint8, now: uint32): (t: State)
    ensures !s.isParent ==> t == s
    ensures s.isParent ==> t == s.(outbox := s.outbox + [Outgoing(Config.BROADCAST_MAC_ADDR, Frame(Code(Tare), nodeId, FromInt(whichScale), UNSET_NAME, now))])
  {
    if !s.isParent then s
    else s.(outbox := s.outbox + [Outgoing(Config.BROADCAST_MAC_ADDR, Frame(Code(Tare), nodeId, FromInt(whichScale), UNSET_NAME, now))])
  }

  /** The exact sum of a list of finite samples. */
  function RealSum(ws: seq<Float32>): real
    requires forall i :: 0 <= i < |ws| ==> ws[i].Finite?
  {
    if ws == [] then 0.0 else RealSum(ws[..|ws| - 1]) + ws[|ws| - 1].value
  }

  /** With no NaN among the samples the float sum is the exact sum. */
  lemma {:induction false} SumOfFinite(ws: seq<Float32>)
    requires forall i :: 0 <= i < |ws| ==> ws[i].Finite?
    ensures Sum(ws) == Finite(RealSum(ws))
  {
    if ws != [] {
      SumOfFinite(ws[..|ws| - 1]);
    }
  }

  /** One NaN sample makes the sum NaN. */
  lemma {:induction false} SumWithNaN(ws: seq<Float32>, k: nat)
    requires k < |ws| && ws[k] == NaN
    ensures Sum(ws) == NaN
  {
    if k < |ws| - 1 {
      SumWithNaN(ws[..|ws| - 1], k);
    }
  }

  /** The averaged weight is the arithmetic mean of the samples when none is
      NaN, and NaN otherwise. */
  lemma MeanIsAverage(ws: seq<Float32>)
    requires ws != []
    ensures (forall i :: 0 <= i < |ws| ==> ws[i].Finite?) ==> Mean(ws) == Finite(RealSum(ws) / |ws| as real)
    ensures (exists i :: 0 <= i < |ws| && ws[i] == NaN) ==> Mean(ws) == NaN
  {
    if forall i :: 0 <= i < |ws| ==> ws[i].Finite? {
      SumOfFinite(ws);
    } else {
      var k :| 0 <= k < |ws| && ws[k] == NaN;
      SumWithNaN(ws, k);
    }
  }

  /** Buffering each sample of `ws` in turn. */
  function BufferAll(s: State, ws: seq<Float32>): State
  {
    if ws == [] then s else Buffer(BufferAll(s, ws[..|ws| - 1]), ws[|ws| - 1])
  }

  /** On a child with room, buffering a list appends exactly that list and changes nothing else. */
  lemma {:induction false} BufferAllAppends(s: State, ws: seq<Float32>)
    requires !s.isParent && |s.buffered| + |ws| <= BUFFER_CAPACITY
    ensures BufferAll(s, ws) == s.(buffered := s.buffered + ws)
  {
    if ws != [] {
      BufferAllAppends(s, ws[..|ws| - 1]);
      assert s.buffered + ws[..|ws| - 1] + [ws[|ws| - 1]] == s.buffered + ws;
    }
  }

  /** Whatever is buffered, a child never holds more than 100 samples. */
  lemma {:induction false} BufferAllBounded(s: State, ws: seq<Float32>)
    requires |s.buffered| <= BUFFER_CAPACITY
    ensures |BufferAll(s, ws).buffered| <= BUFFER_CAPACITY
    ensures BufferAll(s, ws).outbox == s.outbox
  {
    if ws != [] {
      BufferAllBounded(s, ws[..|ws| - 1]);
    }
  }

  /** The value sent is the mean of exactly the samples buffered since the
      previous send: after an averaged send, buffering `ws` and sending again
      once the interval has passed emits one frame carrying `Mean(ws)`. */
  lemma MeanOfSamplesSinceLastSend(s: State, t0: uint32, ws: seq<Float32>, t1: uint32)
    requires SendDue(s, t0)
    requires 0 < |ws| <= BUFFER_CAPACITY
    requires Elapsed(t1, t0) >= ESPNOW_SEND_INTERVAL
    ensures var a := SendAveragedIfReady(s, t0);
            var b := SendAveragedIfReady(BufferAll(a, ws), t1);
            b.outbox == a.outbox + [Outgoing(Config.PARENT_MAC_ADDR, Frame(Code(Weight), s.nodeId, Mean(ws), UNSET_NAME, t1))]
            && b.buffered == []
  {
    var a := SendAveragedIfReady(s, t0);
    BufferAllAppends(a, ws);
    assert BufferAll(a, ws).buffered == ws;
  }

  /** At most one averaged frame per interval: once a send has happened at
      `t0`, further calls before another 1000 ms have elapsed send nothing,
      however many samples arrive in between. */
  lemma AtMostOneSendPerInterval(s: State, t0: uint32, ws: seq<Float32>, t1: uint32)
    requires SendDue(s, t0)
    requires Elapsed(t1, t0) < ESPNOW_SEND_INTERVAL
    ensures var a := BufferAll(SendAveragedIfReady(s, t0), ws);
            SendAveragedIfReady(a, t1) == a
  {
    var a := SendAveragedIfReady(s, t0);
    BufferAllBounded(a, ws);
    BufferAllKeepsClock(a, ws);
  }

  lemma {:induction false} BufferAllKeepsClock(s: State, ws: seq<Float32>)
    ensures BufferAll(s, ws).lastSendTime == s.lastSendTime
    ensures BufferAll(s, ws).isParent == s.isParent
  {
    if ws != [] {
      BufferAllKeepsClock(s, ws[..|ws| - 1]);
    }
  }

  /** Reading the pending command clears it, so an immediate second read
      returns 0: each command is delivered at most once. */
  lemma ReadAndClear(s: State)
    ensures TakePendingTare(TakePendingTare(s).1).0 == 0
    ensures TakePendingTare(s).0 == s.pendingTare
  {
  }

  /** A weight the child sends reaches the parent's registry under the child's id. */
  lemma AveragedWeightReachesParent(child: State, now: uint32, parent: State)
    requires SendDue(child, now) && parent.isParent
    ensures var c := SendAveragedIfReady(child, now);
            var f := c.outbox[|c.outbox| - 1].frame;
            WeightOf(Receive(parent, FRAME_SIZE, f).childWeights, child.nodeId) == Mean(child.buffered)
  {
  }

  /** A tare the parent broadcasts is latched by ANY child receiving it, with
      the requested scale number, whatever the child's own id: the receive
      path does not compare the frame's id with its own. */
  lemma BroadcastTareLatchedByEveryChild(parent: State, nodeId: uint8, whichScale: uint8, now: uint32, child: State)
    requires parent.isParent && !child.isParent
    ensures var p := BroadcastTare(parent, nodeId, whichScale, now);
            var f := p.outbox[|p.outbox| - 1].frame;
            Receive(child, FRAME_SIZE, f).pendingTare == whichScale
  {
    FloatToUint8FromInt(whichScale);
  }

  /** Two Weight frames from child 2 on a fresh parent: the later value wins and
      child 3 stays unknown. */
  lemma LastWriteWinsScenario()
    ensures var s0 := Initial(true, 0);
            var s1 := Receive(s0, FRAME_SIZE, Frame(Code(Weight), 2, Finite(55.5), UNSET_NAME, 10));
            var s2 := Receive(s1, FRAME_SIZE, Frame(Code(Weight), 2, Finite(56.0), UNSET_NAME, 20));
            WeightOf(s2.childWeights, 2) == Finite(56.0) && WeightOf(s2.childWeights, 3) == NaN
  {
  }

  /** Samples 10, 12 and 11 average to 11. */
  lemma AverageScenario()
    ensures Mean([Finite(10.0), Finite(12.0), Finite(11.0)]) == Finite(11.0)
  {
    var ws := [Finite(10.0), Finite(12.0), Finite(11.0)];
    assert ws[..2] == [Finite(10.0), Finite(12.0)];
    assert ws[..2][..1] == [Finite(10.0)];
    assert [Finite(10.0)][..0] == [];
    assert RealSum(ws) == 33.0;
    MeanIsAverage(ws);
  }

  /** The module-level state of `src/espnow.cpp` as one object: `childWeights`,
      `nodeId`, `pendingTareCommand`, `lastSendTime`, `weightBuffer` and
      `bufferIndex`, with the radio's sends collected in `outbox`. */
  class EspNow {
    const isParent: bool
    const nodeId: uint8
    var childWeights: map<uint8, Float32>
    var pendingTareCommand: uint8
    var lastSendTime: uint32
    const weightBuffer: array<Float32>
    var bufferIndex: int
    var outbox: seq<Outgoing>

    ghost predicate Valid()
      reads this
    {
      weightBuffer.Length == BUFFER_CAPACITY && 0 <= bufferIndex <= BUFFER_CAPACITY
    }

    /** The abstract state; the buffered samples are `weightBuffer[0..bufferIndex)`. */
    ghost function View(): State
      reads this, weightBuffer
      requires Valid()
    {
      State(isParent, nodeId, childWeights, pendingTareCommand, lastSendTime, weightBuffer[..bufferIndex], outbox)
    }

    /** `espnowInit` without the radio bring-up: the role comes from the build
        configuration, a child takes `mac[5]` as its id. */
    constructor (isParent: bool, macLastOctet: uint8)
      ensures Valid() && fresh(weightBuffer)
      ensures View() == Initial(isParent, macLastOctet)
    {
      this.isParent := isParent;
      this.nodeId := if isParent then 0 else macLastOctet;
      childWeights := map[];
      pendingTareCommand := 0;
      lastSendTime := 0;
      weightBuffer := new Float32[BUFFER_CAPACITY](_ => Finite(0.0));
      bufferIndex := 0;
      outbox := [];
    }

    /** `espnowOnRecv`: `len` is the received length, `payload` the record the
        bytes are cast to (only looked at when `len` is the record size). */
    method OnRecv(len: int, payload: Message)
      requires Valid()
      modifies this
      ensures Valid() && View() == Receive(old(View()), len, payload)
    {
      if len == FRAME_SIZE {
        if isParent {
          if payload.msgType == Code(Weight) {
            childWeights := childWeights[payload.id := payload.value];
          } else if payload.msgType == Code(Ack) {
            // acknowledgement: logged only
          }
        } else {
          if payload.msgType == Code(Tare) {
            pendingTareCommand := FloatToUint8(payload.value);
          }
        }
      }
    }

    /** `espnowGetChildWeight`: the stored weight, or NaN for an id never heard from. */
    function GetChildWeight(childId: uint8): (w: Float32)
      reads this
      ensures childId !in childWeights ==> w == NaN
      ensures childId in childWeights ==> w == childWeights[childId]
    {
      WeightOf(childWeights, childId)
    }

    /** `espnowForEachChildWeight`: visits every stored (id, weight) pair once,
        in ascending id order (the order of `std::map`); with no callback
        nothing is visited. */
    method ForEachChildWeight(hasCallback: bool) returns (visits: seq<(uint8, Float32)>)
      ensures !hasCallback ==> visits == []
      ensures hasCallback ==> forall i :: 0 <= i < |visits| ==>
        visits[i].0 in childWeights && childWeights[visits[i].0] == visits[i].1
      ensures hasCallback ==> forall id :: id in childWeights ==> (id, childWeights[id]) in visits
      ensures forall i, j :: 0 <= i < j < |visits| ==> visits[i].0 < visits[j].0
    {
      visits := [];
      var k := 0;
      while k < UINT8_LIMIT
        invariant 0 <= k <= UINT8_LIMIT
        invariant !hasCallback ==> visits == []
        invariant forall i :: 0 <= i < |visits| ==>
          visits[i].0 < k && visits[i].0 in childWeights && childWeights[visits[i].0] == visits[i].1
        invariant hasCallback ==> forall id: uint8 :: id < k && id in childWeights ==> (id, childWeights[id]) in visits
        invariant forall i, j :: 0 <= i < j < |visits| ==> visits[i].0 < visits[j].0
      {
        if k in childWeights && hasCallback {
          visits := visits + [(k, childWeights[k])];
        }
        k := k + 1;
      }
    }

    /** `espnowGetPendingTareCommand`: returns the latched scale number and clears it. */
    method GetPendingTareCommand() returns (cmd: uint8)
      requires Valid()
      modifies this
      ensures Valid() && (cmd, View()) == TakePendingTare(old(View()))
    {
      cmd := pendingTareCommand;
      pendingTareCommand := 0;
    }

    /** `espnowBufferWeight`: no-op on a parent or when 100 samples are held. */
    method BufferWeight(weight: Float32)
      requires Valid()
      modifies this, weightBuffer
      ensures Valid() && View() == Buffer(old(View()), weight)
    {
      if isParent || bufferIndex >= BUFFER_CAPACITY {
        return;
      }
      weightBuffer[bufferIndex] := weight;
      bufferIndex := bufferIndex + 1;
      assert weightBuffer[..bufferIndex] == old(weightBuffer[..bufferIndex]) + [weight];
    }

    /** `espnowSendAveragedWeightIfReady` with `now` for `millis()`: sums the
        buffer, divides by the count, empties the buffer and sends one frame. */
    method SendAveragedWeightIfReady(now: uint32)
      requires Valid()
      modifies this
      ensures Valid() && View() == SendAveragedIfReady(old(View()), now)
    {
      if isParent {
        return;
      }
      if Elapsed(now, lastSendTime) >= ESPNOW_SEND_INTERVAL && bufferIndex > 0 {
        lastSendTime := now;
        var sum := Finite(0.0);
        var i := 0;
        while i < bufferIndex
          invariant 0 <= i <= bufferIndex
          invariant sum == Sum(weightBuffer[..i])
        {
          assert weightBuffer[..i + 1][..i] == weightBuffer[..i];
          sum := FAdd(sum, weightBuffer[i]);
          i := i + 1;
        }
        assert weightBuffer[..i] == old(View()).buffered;
        var average := FDivCount(sum, bufferIndex);
        bufferIndex := 0;
        var data := Frame(Code(Weight), nodeId, average, UNSET_NAME, now);
        outbox := outbox + [Outgoing(Config.PARENT_MAC_ADDR, data)];
      }
    }

    /** `espnowSendWeight` with `now` for `millis()`. */
    method SendWeight(weight: Float32, now: uint32)
      requires Valid()
      modifies this
      ensures Valid() && View() == SendImmediate(old(View()), weight, now)
    {
      if isParent {
        return;
      }
      var data := Frame(Code(Weight), nodeId, weight, UNSET_NAME, now);
      outbox := outbox + [Outgoing(Config.PARENT_MAC_ADDR, data)];
    }

    /** `espnowSendTare(nodeId, whichScale)` with `now` for `millis()`. */
    method SendTare(targetId: uint8, whichScale: uint8, now: uint32)
      requires Valid()
      modifies this
      ensures Valid() && View() == BroadcastTare(old(View()), targetId, whichScale, now)
    {
      if !isParent {
        return;
      }
      var data := Frame(Code(Tare), targetId, FromInt(whichScale), UNSET_NAME, now);
      outbox := outbox + [Outgoing(Config.BROADCAST_MAC_ADDR, data)];
    }
  }
}
