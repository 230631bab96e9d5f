/** The browser's child-graph registry of `data/script.js`: a `Map` from a
    child's id to its graph (a time series and the time it was last seen),
    capped at four entries, filled from the `children` object of each
    WebSocket message, trimmed to a time window and swept of stale entries.
    The canvas, the name and colour inputs and local storage are not part of
    this model; a graph is its series and its `lastSeen` time. */
module ChildGraphs {
  import opened Wrappers
  import opened Numeric

  /** `MAX_CHILD_GRAPHS` */
  const MAX_CHILD_GRAPHS: nat := 4
  /** `CHILD_TIMEOUT_MS`: five minutes. */
  const CHILD_TIMEOUT_MS: int := 5 * 60 * 1000
  /** The initial value of `WINDOW_MS`: five minutes. */
  const DEFAULT_WINDOW_MS: int := 5 * 60 * 1000

  /** A value of the parsed JSON message, as far as the registry looks at it:
      `undefined`, `null`, or any other value, represented by what `Number()`
      makes of it (NaN for objects and non-numeric strings). */
  datatype JsValue = Undefined | Null | Other(num: Float32)

  /** JavaScript's `Number(v)`. */
  function ToNumber(v: JsValue): (r: Float32)
    ensures r.Finite? <==> v.Null? || (v.Other? && v.num.Finite?)
    ensures v.Null? ==> r == Finite(0.0)
  {
    match v
    case Undefined => NaN
    case Null => Finite(0.0)
    case Other(x) => x
  }

  /** JavaScript's global `isNaN(v)`, which converts with `Number()` first. */
  predicate IsNaN(v: JsValue)
  {
    ToNumber(v).NaN?
  }

  /** The test `processChildren` applies to a value before recording it. */
  predicate IsSample(v: JsValue)
  {
    !(v.Null? || v.Undefined? || IsNaN(v))
  }

  /** The test `createChildGraph` applies to its first value. */
  predicate SeedsSeries(v: JsValue)
  {
    !v.Undefined? && !IsNaN(v)
  }

  /** A recorded sample is exactly an ordinary number; the first-value test
      also lets `null` through, since `isNaN(null)` is false. */
  lemma SampleTests(v: JsValue)
    ensures IsSample(v) <==> v.Other? && v.num.Finite?
    ensures SeedsSeries(v) <==> IsSample(v) || v.Null?
  {
  }

  /** One point `{t, v}` of a series. */
  datatype Point = Point(t: int, v: Float32)

  /** A child's graph: its series and `lastSeen`. */
  datatype Graph = Graph(data: seq<Point>, lastSeen: int)

  /** The graph `createChildGraph` makes at time `now`: seen now, and a series
      seeded with the first value when that value passes the first-value test. */
  function NewGraph(firstValue: JsValue, now: int): (g: Graph)
    ensures g.lastSeen == now
    ensures SeedsSeries(firstValue) ==> g.data == [Point(now, ToNumber(firstValue))]
    ensures !SeedsSeries(firstValue) ==> g.data == []
  {
    var data := if firstValue != Undefined && !IsNaN(firstValue) then [Point(now, ToNumber(firstValue))] else [];
    Graph(data, now)
  }

  /** A `null` first value seeds the series with a point at 0, although the
      same value is recorded as NaN by `processChildren`. */
  lemma NullSeedsZero(now: int)
    ensures NewGraph(Null, now).data == [Point(now, Finite(0.0))]
    ensures !IsSample(Null)
  {
  }

  /** The window trim: points are shifted off the front while the first one
      is older than the cutoff; what is left is a suffix of the series. */
  function DropBefore(data: seq<Point>, cutoff: int): (r: seq<Point>)
    ensures |r| <= |data| && r == data[|data| - |r|..]
    decreases |data|
  {
    if |data| > 0 && data[0].t < cutoff then DropBefore(data[1..], cutoff) else data
  }

  /** Trimming removes only the leading points older than the cutoff: every
      removed point is older, and the first kept point (if any) is not. */
  lemma {:induction false} DropBeforeRemovesOnlyOld(data: seq<Point>, cutoff: int)
    ensures var k := |data| - |DropBefore(data, cutoff)|;
      && (forall i :: 0 <= i < k ==> data[i].t < cutoff)
      && (k < |data| ==> data[k].t >= cutoff)
    decreases |data|
  {
    if |data| > 0 && data[0].t < cutoff {
      DropBeforeRemovesOnlyOld(data[1..], cutoff);
      var k := |data| - |DropBefore(data, cutoff)|;
      forall i | 0 <= i < k
        ensures data[i].t < cutoff
      {
        if i > 0 {
          assert data[i] == data[1..][i - 1];
        }
      }
    }
  }

  /** A point at or after the cutoff at the end of the series survives the trim. */
  lemma {:induction false} DropBeforeKeepsLast(data: seq<Point>, cutoff: int)
    ensures |data| > 0 && data[|data| - 1].t >= cutoff ==>
      var r := DropBefore(data, cutoff); |r| > 0 && r[|r| - 1] == data[|data| - 1]
    decreases |data|
  {
    if |data| > 0 && data[|data| - 1].t >= cutoff && data[0].t < cutoff {
      assert |data| > 1;
      DropBeforeKeepsLast(data[1..], cutoff);
    }
  }

  /** Trimming twice at the same cutoff is trimming once. */
  lemma {:induction false} DropBeforeIdempotent(data: seq<Point>, cutoff: int)
    ensures DropBefore(DropBefore(data, cutoff), cutoff) == DropBefore(data, cutoff)
    decreases |data|
  {
    if |data| > 0 && data[0].t < cutoff {
      DropBeforeIdempotent(data[1..], cutoff);
    }
  }

  /** The trim loop itself, on the array it shifts. */
  method TrimSeries(data: seq<Point>, cutoff: int) returns (r: seq<Point>)
    ensures r == DropBefore(data, cutoff)
  {
    r := data;
    while |r| > 0 && r[0].t < cutoff
      invariant DropBefore(r, cutoff) == DropBefore(data, cutoff)
      decreases |r|
    {
      r := r[1..];
    }
  }

  /** The push, the `lastSeen` update and the trim that `processChildren`
      applies to a child's graph for one value: a sample
      refreshes `lastSeen`, anything else is recorded as NaN and does not. */
  function Record(g: Graph, val: JsValue, now: int, windowMs: int): (g': Graph)
    ensures IsSample(val) ==> g'.lastSeen == now
    ensures !IsSample(val) ==> g'.lastSeen == g.lastSeen
    ensures windowMs >= 0 ==> |g'.data| > 0 && g'.data[|g'.data| - 1] == Point(now, if IsSample(val) then ToNumber(val) else NaN)
  {
    var sample := !(val.Null? || val.Undefined? || IsNaN(val));
    var p := Point(now, if sample then ToNumber(val) else NaN);
    var full := g.data + [p];
    DropBeforeKeepsLast(full, now - windowMs);
    Graph(DropBefore(full, now - windowMs), if sample then now else g.lastSeen)
  }

  /** The series after recording is a suffix of the series with the new point
      appended: nothing is reordered. */
  lemma RecordAppendsThenTrims(g: Graph, val: JsValue, now: int, windowMs: int)
    ensures var full := g.data + [Point(now, if IsSample(val) then ToNumber(val) else NaN)];
      var d := Record(g, val, now, windowMs).data;
      |d| <= |full| && d == full[|full| - |d|..]
  {
  }

  /** The body of `processChildren`'s loop after the lookup, on the child's graph. */
  method RecordValue(g: Graph, val: JsValue, now: int, windowMs: int) returns (g': Graph)
    ensures g' == Record(g, val, now, windowMs)
  {
    var data := g.data;
    var lastSeen := g.lastSeen;
    if val.Null? || val.Undefined? || IsNaN(val) {
      data := data + [Point(now, NaN)];
    } else {
      data := data + [Point(now, ToNumber(val))];
      lastSeen := now;
    }
    data := TrimSeries(data, now - windowMs);
    g' := Graph(data, lastSeen);
  }

  /** The `childGraphs` map: its keys in insertion order (the order in which
      `forEach` visits them) and the graph under each key. */
  datatype Registry = Registry(keys: seq<string>, graphs: map<string, Graph>)

  ghost predicate Distinct(ks: seq<string>)
  {
    forall i, j :: 0 <= i < j < |ks| ==> ks[i] != ks[j]
  }

  /** Keys listed once each, exactly the map's keys, and no more than four. */
  ghost predicate WellFormed(r: Registry)
  {
    && Distinct(r.keys)
    && (forall k :: k in r.graphs <==> k in r.keys)
    && |r.keys| <= MAX_CHILD_GRAPHS
  }

  /** The key order after `Map.delete(k)`. */
  function Without(ks: seq<string>, k: string): (r: seq<string>)
    ensures forall x :: x in r <==> x in ks && x != k
    ensures |r| <= |ks| && (k in ks ==> |r| < |ks|)
    ensures Distinct(ks) ==> Distinct(r)
  {
    if ks == [] then []
    else
      assert Distinct(ks) ==> Distinct(ks[1..]) && ks[0] !in ks[1..];
      if ks[0] == k then Without(ks[1..], k)
      else [ks[0]] + Without(ks[1..], k)
  }

  /** Deleting an absent key leaves the list as it was. */
  lemma {:induction false} WithoutAbsent(ks: seq<string>, k: string)
    requires k !in ks
    ensures Without(ks, k) == ks
  {
    if ks != [] {
      WithoutAbsent(ks[1..], k);
      assert ks == [ks[0]] + ks[1..];
    }
  }

  /** In a list without repeats, deleting the key found at position `p` cuts
      out that position and keeps every other key in its place. */
  lemma {:induction false} WithoutAt(ks: seq<string>, k: string, p: nat)
    requires Distinct(ks) && p < |ks| && ks[p] == k
    ensures Without(ks, k) == ks[..p] + ks[p + 1..]
  {
    assert Distinct(ks[1..]);
    if p == 0 {
      assert k !in ks[1..];
      WithoutAbsent(ks[1..], k);
    } else {
      assert ks[0] != k;
      WithoutAt(ks[1..], k, p - 1);
      assert ks[..p] == [ks[0]] + ks[1..][..p - 1];
      assert ks[p + 1..] == ks[1..][p..];
    }
  }

  /** `Map.delete(k)` keeps the insertion order of the other keys. */
  lemma WithoutKeepsOrder(ks: seq<string>, k: string)
    ensures k !in ks ==> Without(ks, k) == ks
    ensures Distinct(ks) && k in ks ==>
      exists p :: 0 <= p < |ks| && ks[p] == k && Without(ks, k) == ks[..p] + ks[p + 1..]
  {
    if k !in ks {
      WithoutAbsent(ks, k);
    } else if Distinct(ks) {
      var p :| 0 <= p < |ks| && ks[p] == k;
      WithoutAt(ks, k, p);
    }
  }

  /** The eviction scan, which keeps a running minimum of `lastSeen` that
      starts at infinity and moves only on a strictly smaller value, as the
      index of the key it settles on: the entry with the smallest `lastSeen`,
      the first one among equals. */
  function FirstOldest(ks: seq<string>, graphs: map<string, Graph>): (i: nat)
    requires |ks| > 0
    requires forall k :: k in ks ==> k in graphs
    ensures i < |ks|
    ensures forall j :: 0 <= j < |ks| ==> graphs[ks[i]].lastSeen <= graphs[ks[j]].lastSeen
    ensures forall j :: 0 <= j < i ==> graphs[ks[i]].lastSeen < graphs[ks[j]].lastSeen
    decreases |ks|
  {
    if |ks| == 1 then 0
    else
      var j := FirstOldest(ks[..|ks| - 1], graphs);
      if graphs[ks[|ks| - 1]].lastSeen < graphs[ks[j]].lastSeen then |ks| - 1 else j
  }

  /** `removeChildGraph(id)`: an absent id changes nothing. */
  function Remove(r: Registry, id: string): (r': Registry)
    requires WellFormed(r)
    ensures WellFormed(r')
    ensures id !in r.graphs ==> r' == r
    ensures forall k :: k in r'.graphs <==> k in r.graphs && k != id
    ensures forall k :: k in r'.graphs ==> r'.graphs[k] == r.graphs[k]
    ensures id in r.graphs ==> |r'.keys| < |r.keys|
  {
    if id !in r.graphs then r else Registry(Without(r.keys, id), r.graphs - {id})
  }

  /** The "enforce max" step of `createChildGraph`: with four entries or more,
      the least recently seen one goes. */
  function Evict(r: Registry): (r': Registry)
    requires WellFormed(r)
    ensures WellFormed(r') && |r'.keys| < MAX_CHILD_GRAPHS
  {
    if |r.keys| >= MAX_CHILD_GRAPHS then Remove(r, r.keys[FirstOldest(r.keys, r.graphs)]) else r
  }

  /** `createChildGraph(id, firstValue)` at time `now`. */
  function Create(r: Registry, id: string, firstValue: JsValue, now: int): (r': Registry)
    requires WellFormed(r)
    ensures WellFormed(r') && id in r'.graphs
    ensures id in r.graphs ==> r' == r
    ensures id !in r.graphs ==> r'.graphs[id] == NewGraph(firstValue, now) && r'.keys[|r'.keys| - 1] == id
  {
    if id in r.graphs then r
    else
      var r1 := Evict(r);
      Registry(r1.keys + [id], r1.graphs[id := NewGraph(firstValue, now)])
  }

  /** Below the cap a new id is appended and nothing else changes. */
  lemma CreateBelowCap(r: Registry, id: string, firstValue: JsValue, now: int)
    requires WellFormed(r) && id !in r.graphs && |r.keys| < MAX_CHILD_GRAPHS
    ensures Create(r, id, firstValue, now) == Registry(r.keys + [id], r.graphs[id := NewGraph(firstValue, now)])
  {
  }

  /** At the cap a new id replaces the first least recently seen entry: that
      entry goes, every other one stays as it was, and the size stays four. */
  lemma CreateAtCapEvictsOldest(r: Registry, id: string, firstValue: JsValue, now: int)
    requires WellFormed(r) && id !in r.graphs && |r.keys| == MAX_CHILD_GRAPHS
    ensures var victim := r.keys[FirstOldest(r.keys, r.graphs)];
      var r' := Create(r, id, firstValue, now);
      && victim !in r'.graphs
      && (forall k :: k in r.graphs && k != victim ==> k in r'.graphs && r'.graphs[k] == r.graphs[k])
      && (forall k :: k in r.graphs ==> r.graphs[victim].lastSeen <= r.graphs[k].lastSeen)
      && |r'.keys| == MAX_CHILD_GRAPHS
  {
    var victim := r.keys[FirstOldest(r.keys, r.graphs)];
    var r1 := Remove(r, victim);
    assert Create(r, id, firstValue, now) == Registry(r1.keys + [id], r1.graphs[id := NewGraph(firstValue, now)]);
    OldestIsLeastRecent(r);
    RemoveDropsOne(r, victim);
  }

  /** The entry `FirstOldest` picks was seen no later than any other entry. */
  lemma OldestIsLeastRecent(r: Registry)
    requires WellFormed(r) && |r.keys| > 0
    ensures var victim := r.keys[FirstOldest(r.keys, r.graphs)];
      forall k :: k in r.graphs ==> r.graphs[victim].lastSeen <= r.graphs[k].lastSeen
  {
    var victim := r.keys[FirstOldest(r.keys, r.graphs)];
    forall k | k in r.graphs
      ensures r.graphs[victim].lastSeen <= r.graphs[k].lastSeen
    {
      var j :| 0 <= j < |r.keys| && r.keys[j] == k;
    }
  }

  /** Removing a present key shortens the key list by exactly one. */
  lemma RemoveDropsOne(r: Registry, id: string)
    requires WellFormed(r) && id in r.graphs
    ensures |Remove(r, id).keys| == |r.keys| - 1
  {
    var r1 := Remove(r, id);
    var survivors := set k | k in r.keys && k != id;
    DistinctCard(r.keys);
    assert (set k | k in r.keys) == survivors + {id};
    DistinctCard(r1.keys);
    assert (set k | k in r1.keys) == survivors;
  }

  /** The number of distinct keys of a list without repeats is its length. */
  lemma {:induction false} DistinctCard(ks: seq<string>)
    requires Distinct(ks)
    ensures |set k | k in ks| == |ks|
  {
    if ks != [] {
      var last := ks[|ks| - 1];
      var init := ks[..|ks| - 1];
      assert Distinct(init);
      DistinctCard(init);
      assert (set k | k in ks) == (set k | k in init) + {last};
      assert last !in init;
    }
  }

  /** One iteration of `processChildren`'s `forEach`: create or find the
      child's graph, then record the value in it. */
  function ProcessEntry(r: Registry, k: string, val: JsValue, now: int, windowMs: int): (r': Registry)
    requires WellFormed(r)
    ensures WellFormed(r')
  {
    var r1 := Create(r, k, val, now);
    Registry(r1.keys, r1.graphs[k := Record(r1.graphs[k], val, now, windowMs)])
  }

  /** `processChildren` over the entries of `obj.children`, in key order. */
  function ProcessAll(r: Registry, children: seq<(string, JsValue)>, now: int, windowMs: int): (r': Registry)
    requires WellFormed(r)
    ensures WellFormed(r')
    decreases |children|
  {
    if children == [] then r
    else
      var last := children[|children| - 1];
      ProcessEntry(ProcessAll(r, children[..|children| - 1], now, windowMs), last.0, last.1, now, windowMs)
  }

  /** One more entry processed after the first `i`. */
  lemma ProcessAllStep(r: Registry, cs: seq<(string, JsValue)>, i: nat, now: int, windowMs: int)
    requires WellFormed(r) && i < |cs|
    ensures ProcessAll(r, cs[..i + 1], now, windowMs)
         == ProcessEntry(ProcessAll(r, cs[..i], now, windowMs), cs[i].0, cs[i].1, now, windowMs)
  {
    assert cs[..i + 1][..i] == cs[..i];
  }

  /** `processChildren(obj)`: a message without `children` changes nothing. */
  function Process(r: Registry, children: Option<seq<(string, JsValue)>>, now: int, windowMs: int): (r': Registry)
    requires WellFormed(r)
    ensures WellFormed(r')
    ensures children.None? ==> r' == r
  {
    if children.None? then r else ProcessAll(r, children.value, now, windowMs)
  }

  /** After one value for child `k`, the child is registered, its newest point
      is that value (or NaN), and `lastSeen` moved to `now` exactly when the
      value was a sample. */
  lemma ProcessEntryRecords(r: Registry, k: string, val: JsValue, now: int, windowMs: int)
    requires WellFormed(r) && windowMs >= 0
    ensures var g := ProcessEntry(r, k, val, now, windowMs).graphs[k];
      && |g.data| > 0
      && g.data[|g.data| - 1] == Point(now, if IsSample(val) then ToNumber(val) else NaN)
      && (IsSample(val) ==> g.lastSeen == now)
      && (!IsSample(val) && k in r.graphs ==> g.lastSeen == r.graphs[k].lastSeen)
      && (!IsSample(val) && k !in r.graphs ==> g.lastSeen == now)
  {
  }

  /** The stale test of the periodic sweep. */
  predicate Stale(g: Graph, now: int)
  {
    now - g.lastSeen > CHILD_TIMEOUT_MS
  }

  /** The ids the sweep's `forEach` collects into `toRemove`, in key order. */
  function StaleKeys(ks: seq<string>, graphs: map<string, Graph>, now: int): (r: seq<string>)
    requires forall k :: k in ks ==> k in graphs
    ensures forall x :: x in r <==> x in ks && Stale(graphs[x], now)
    decreases |ks|
  {
    if ks == [] then []
    else
      var last := ks[|ks| - 1];
      StaleKeys(ks[..|ks| - 1], graphs, now) + (if Stale(graphs[last], now) then [last] else [])
  }

  /** The sweep's second pass: `removeChildGraph` for each collected id, in order. */
  function RemoveAll(r: Registry, ids: seq<string>): (r': Registry)
    requires WellFormed(r)
    ensures WellFormed(r')
    ensures forall k :: k in r'.graphs <==> k in r.graphs && k !in ids
    ensures forall k :: k in r'.graphs ==> r'.graphs[k] == r.graphs[k]
    decreases |ids|
  {
    if ids == [] then r
    else Remove(RemoveAll(r, ids[..|ids| - 1]), ids[|ids| - 1])
  }

  /** The periodic sweep. */
  function Sweep(r: Registry, now: int): (r': Registry)
    requires WellFormed(r)
  {
    RemoveAll(r, StaleKeys(r.keys, r.graphs, now))
  }

  /** The sweep removes exactly the entries not seen for more than five
      minutes and leaves the others as they were. */
  lemma SweepRemovesExactlyStale(r: Registry, now: int)
    requires WellFormed(r)
    ensures var r' := Sweep(r, now);
      && WellFormed(r')
      && (forall k :: k in r'.graphs <==> k in r.graphs && !Stale(r.graphs[k], now))
      && (forall k :: k in r'.graphs ==> r'.graphs[k] == r.graphs[k])
  {
  }

  function TrimGraph(g: Graph, cutoff: int): Graph
  {
    g.(data := DropBefore(g.data, cutoff))
  }

  /** The trim of the graphs under the keys `ks`, visited in order. */
  function TrimKeys(graphs: map<string, Graph>, ks: seq<string>, cutoff: int): (m: map<string, Graph>)
    ensures m.Keys == graphs.Keys
  {
    if ks == [] then graphs
    else
      var m := TrimKeys(graphs, ks[..|ks| - 1], cutoff);
      var k := ks[|ks| - 1];
      if k in m then m[k := TrimGraph(m[k], cutoff)] else m
  }

  /** One more key visited: its graph, when present, is trimmed. */
  lemma TrimKeysStep(graphs: map<string, Graph>, ks: seq<string>, i: nat, cutoff: int)
    requires i < |ks|
    ensures var m := TrimKeys(graphs, ks[..i], cutoff);
      TrimKeys(graphs, ks[..i + 1], cutoff) == if ks[i] in m then m[ks[i] := TrimGraph(m[ks[i]], cutoff)] else m
  {
    assert ks[..i + 1][..i] == ks[..i];
  }

  /** The trim of every series that follows each message. */
  function TrimAll(r: Registry, cutoff: int): (r': Registry)
  {
    Registry(r.keys, TrimKeys(r.graphs, r.keys, cutoff))
  }

  /** With each key listed once, every listed graph is trimmed once and the
      others are left alone. */
  lemma {:induction false} TrimKeysTrimsListed(graphs: map<string, Graph>, ks: seq<string>, cutoff: int)
    requires Distinct(ks)
    ensures forall k :: k in graphs ==>
      TrimKeys(graphs, ks, cutoff)[k] == if k in ks then TrimGraph(graphs[k], cutoff) else graphs[k]
  {
    if ks != [] {
      var init := ks[..|ks| - 1];
      var last := ks[|ks| - 1];
      assert Distinct(init);
      TrimKeysTrimsListed(graphs, init, cutoff);
      assert last !in init;
      forall k | k in graphs
        ensures TrimKeys(graphs, ks, cutoff)[k] == if k in ks then TrimGraph(graphs[k], cutoff) else graphs[k]
      {
        assert k in ks <==> k in init || k == last;
      }
    }
  }

  /** Replacing the graphs of a well-formed registry by a map with the same
      keys keeps it well formed. */
  lemma SameKeysWellFormed(r: Registry, r': Registry)
    requires WellFormed(r) && r'.keys == r.keys && r'.graphs.Keys == r.graphs.Keys
    ensures WellFormed(r')
  {
    forall k
      ensures k in r'.graphs <==> k in r'.keys
    {
      assert k in r'.graphs <==> k in r.graphs.Keys;
    }
  }

  /** Trimming all series keeps every entry and its `lastSeen`, and each
      series keeps a suffix without points older than the cutoff ahead of it. */
  lemma TrimAllKeepsEntries(r: Registry, cutoff: int)
    requires WellFormed(r)
    ensures var r' := TrimAll(r, cutoff);
      && WellFormed(r')
      && r'.graphs.Keys == r.graphs.Keys
      && (forall k :: k in r.graphs ==>
            && r'.graphs[k].lastSeen == r.graphs[k].lastSeen
            && r'.graphs[k].data == DropBefore(r.graphs[k].data, cutoff))
  {
    TrimKeysTrimsListed(r.graphs, r.keys, cutoff);
    SameKeysWellFormed(r, TrimAll(r, cutoff));
  }

  /** The trim loop run over every graph after each message, in key order. */
  method TrimEach(r: Registry, cutoff: int) returns (r': Registry)
    requires WellFormed(r)
    ensures r' == TrimAll(r, cutoff) && r'.keys == r.keys && WellFormed(r')
  {
    var keys := r.keys;
    var trimmed := r.graphs;
    var i := 0;
    while i < |keys|
      invariant 0 <= i <= |keys|
      invariant trimmed == TrimKeys(r.graphs, keys[..i], cutoff)
    {
      var k := keys[i];
      assert k in trimmed;
      TrimKeysStep(r.graphs, keys, i, cutoff);
      var data := TrimSeries(trimmed[k].data, cutoff);
      trimmed := trimmed[k := trimmed[k].(data := data)];
      i := i + 1;
    }
    assert keys[..i] == keys;
    r' := Registry(keys, trimmed);
    TrimAllKeepsEntries(r, cutoff);
  }

  /** The script's registry state: `childGraphs`, `WINDOW_MS` and `isParentMode`. */
  class ChildGraphRegistry {
    var keys: seq<string>
    var graphs: map<string, Graph>
    var windowMs: int
    var isParentMode: bool

    function View(): Registry
      reads this
    {
      Registry(keys, graphs)
    }

    ghost predicate Valid()
      reads this
    {
      WellFormed(View())
    }

    /** The page's initial state: no graphs, a five-minute window. */
    constructor ()
      ensures Valid() && View() == Registry([], map[])
      ensures windowMs == DEFAULT_WINDOW_MS && !isParentMode
    {
      keys := [];
      graphs := map[];
      windowMs := DEFAULT_WINDOW_MS;
      isParentMode := false;
    }

    /** The eviction scan, with `Infinity` as the absent running minimum. */
    method OldestIndex() returns (idx: nat)
      requires Valid() && |keys| > 0
      ensures idx == FirstOldest(keys, graphs)
    {
      var oldestTime: Option<int> := None;
      idx := 0;
      var i := 0;
      while i < |keys|
        invariant 0 <= i <= |keys|
        invariant i == 0 ==> oldestTime.None?
        invariant i > 0 ==> idx == FirstOldest(keys[..i], graphs) && oldestTime == Some(graphs[keys[idx]].lastSeen)
      {
        assert keys[..i + 1][..i] == keys[..i];
        var g := graphs[keys[i]];
        if oldestTime.None? || g.lastSeen < oldestTime.value {
          oldestTime := Some(g.lastSeen);
          idx := i;
        }
        i := i + 1;
      }
      assert keys[..i] == keys;
    }

    /** `removeChildGraph(id)` */
    method RemoveChildGraph(id: string)
      requires Valid()
      modifies this
      ensures Valid() && View() == Remove(old(View()), id)
      ensures windowMs == old(windowMs) && isParentMode == old(isParentMode)
    {
      if id !in graphs {
        return;
      }
      keys := Without(keys, id);
      graphs := graphs - {id};
    }

    /** The "enforce max" step of `createChildGraph`. */
    method MakeRoom()
      requires Valid()
      modifies this
      ensures Valid() && View() == Evict(old(View()))
      ensures windowMs == old(windowMs) && isParentMode == old(isParentMode)
    {
      if |keys| >= MAX_CHILD_GRAPHS {
        var oldest := OldestIndex();
        RemoveChildGraph(keys[oldest]);
      }
    }

    /** `createChildGraph(id, firstValue)`, returning the child's graph. */
    method CreateChildGraph(id: string, firstValue: JsValue, now: int) returns (g: Graph)
      requires Valid()
      modifies this
      ensures Valid() && View() == Create(old(View()), id, firstValue, now)
      ensures id in graphs && g == graphs[id]
      ensures windowMs == old(windowMs) && isParentMode == old(isParentMode)
    {
      if id in graphs {
        return graphs[id];
      }
      MakeRoom();
      g := Graph([], now);
      if firstValue != Undefined && !IsNaN(firstValue) {
        g := g.(data := g.data + [Point(now, ToNumber(firstValue))]);
      }
      assert g == NewGraph(firstValue, now);
      keys := keys + [id];
      graphs := graphs[id := g];
    }

    /** `processChildren(obj)`, with `obj.children` as its entries in key order. */
    method ProcessChildren(children: Option<seq<(string, JsValue)>>, now: int)
      requires Valid()
      modifies this
      ensures Valid() && View() == Process(old(View()), children, now, windowMs)
      ensures windowMs == old(windowMs) && isParentMode == old(isParentMode)
    {
      if children.None? {
        return;
      }
      var cs := children.value;
      var w := windowMs;
      ghost var start := View();
      var i := 0;
      while i < |cs|
        invariant 0 <= i <= |cs|
        invariant Valid() && View() == ProcessAll(start, cs[..i], now, w)
        invariant windowMs == w && isParentMode == old(isParentMode)
      {
        ProcessAllStep(start, cs, i, now, w);
        ProcessOne(cs[i].0, cs[i].1, now);
        i := i + 1;
      }
      assert cs[..i] == cs;
    }

    /** The body of the `forEach` over the children: create the graph if
        needed, then record the value in it. */
    method ProcessOne(k: string, v: JsValue, now: int)
      requires Valid()
      modifies this
      ensures Valid() && View() == ProcessEntry(old(View()), k, v, now, windowMs)
      ensures windowMs == old(windowMs) && isParentMode == old(isParentMode)
    {
      ghost var created := Create(View(), k, v, now);
      var g := CreateChildGraph(k, v, now);
      assert View() == created;
      g := RecordValue(g, v, now, windowMs);
      graphs := graphs[k := g];
      assert View() == Registry(created.keys, created.graphs[k := Record(created.graphs[k], v, now, windowMs)]);
    }

    /** The trim loop run over every graph after each message. */
    method TrimAllGraphs(now: int)
      requires Valid()
      modifies this
      ensures Valid() && View() == TrimAll(old(View()), now - windowMs)
      ensures windowMs == old(windowMs) && isParentMode == old(isParentMode)
    {
      var trimmed := TrimEach(View(), now - windowMs);
      graphs := trimmed.graphs;
    }

    /** One WebSocket message: the mode flag, the children, then the trim. */
    method OnMessage(mode: Option<string>, children: Option<seq<(string, JsValue)>>, now: int)
      requires Valid()
      modifies this
      ensures Valid()
      ensures View() == TrimAll(Process(old(View()), children, now, windowMs), now - windowMs)
      ensures isParentMode == if mode == Some("parent") then true else if mode == Some("child") then false else old(isParentMode)
      ensures windowMs == old(windowMs)
    {
      if mode == Some("parent") {
        isParentMode := true;
      } else if mode == Some("child") {
        isParentMode := false;
      }
      ProcessChildren(children, now);
      TrimAllGraphs(now);
    }

    /** The sweep's first pass: the ids of the graphs not seen for more than
        five minutes, in key order. */
    method StaleIds(now: int) returns (toRemove: seq<string>)
      requires Valid()
      ensures toRemove == StaleKeys(keys, graphs, now)
    {
      toRemove := [];
      var i := 0;
      while i < |keys|
        invariant 0 <= i <= |keys|
        invariant toRemove == StaleKeys(keys[..i], graphs, now)
      {
        assert keys[..i + 1][..i] == keys[..i];
        if now - graphs[keys[i]].lastSeen > CHILD_TIMEOUT_MS {
          toRemove := toRemove + [keys[i]];
        }
        i := i + 1;
      }
      assert keys[..i] == keys;
    }

    /** The periodic sweep of stale graphs. */
    method SweepStale(now: int)
      requires Valid()
      modifies this
      ensures Valid() && View() == Sweep(old(View()), now)
      ensures windowMs == old(windowMs) && isParentMode == old(isParentMode)
    {
      var toRemove := StaleIds(now);
      var j := 0;
      while j < |toRemove|
        invariant 0 <= j <= |toRemove|
        invariant Valid() && View() == RemoveAll(old(View()), toRemove[..j])
        invariant windowMs == old(windowMs) && isParentMode == old(isParentMode)
      {
        assert toRemove[..j + 1][..j] == toRemove[..j];
        RemoveChildGraph(toRemove[j]);
        j := j + 1;
      }
      assert toRemove[..j] == toRemove;
    }
  }
}
