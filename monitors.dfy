/** The two server-message monitors. `process_msg` runs on the network
    thread: it routes a decoded message by its `"type"`, switches the monitor
    on and defers the property update to the `Timer` queue; the deferred
    closure then runs on Blender's main thread and writes the screen's
    property group. Blender float properties declared with `min=0, max=100`
    clamp what is assigned to them (`Json.ToPercent`). */
module Monitors {
  import opened Wrappers
  import opened Json
  import opened Deferred

  type Msg = map<string, Json>

  /** `msg.get("type", None)` is `None`: the key is missing or holds `null`. */
  predicate NoType(msg: Msg) {
    "type" !in msg || msg["type"] == JNull
  }

  const CrystoolsType: string := "crystools.monitor"
  const CupPrefix: string := "cup."

  // ---------------------------------------------------------------- Crystools

  /** The data a Crystools message defers, if the monitor takes it. */
  function CrystoolsRoute(msg: Msg): (r: Option<Json>)
    ensures r.Some? <==> "type" in msg && msg["type"] == JStr(CrystoolsType)
    ensures "data" !in msg && r.Some? ==> r.value == JObj(map[])
  {
    if NoType(msg) then None
    else if msg["type"] != JStr(CrystoolsType) then None
    else Some(Get(msg, "data", JObj(map[])))
  }

  class CrystoolsMonitor {
    var enable: bool

    constructor ()
      ensures !enable
    {
      enable := false;
    }

    /** `CrystoolsMonitor.process_msg`: a message of any other type is
        refused and changes nothing; an accepted one switches the monitor on
        and defers exactly one update carrying `msg.get("data", {})`. */
    method ProcessMsg(msg: Msg, timer: TimerQueue) returns (accepted: bool)
      modifies this, timer
      ensures accepted <==> CrystoolsRoute(msg).Some?
      ensures enable == (old(enable) || accepted)
      ensures timer.pending == old(timer.pending)
                + (if accepted then [CrystoolsUpdate(CrystoolsRoute(msg).value)] else [])
    {
      if "type" !in msg || msg["type"] == JNull {
        return false;
      }
      if msg["type"] != JStr(CrystoolsType) {
        return false;
      }
      enable := true;
      var data := Get(msg, "data", JObj(map[]));
      timer.Put(CrystoolsUpdate(data));
      return true;
    }
  }

  /** One `CrystoolsMonitorGPUProp` item. */
  datatype GpuUsage = GpuUsage(gpu: real, vram: real)

  const NewGpu := GpuUsage(0.0, 0.0)

  /** The `CrystoolsMonitorProp` group as the deferred update sees it. */
  datatype Crystools = Crystools(enabled: bool, cpu: real, ram: real, hdd: real, gpus: seq<GpuUsage>)

  /** `prop = data.get(key, 0)` on a float property. */
  function Percent(data: Json, key: string): (r: Result<real>)
    ensures r.Ok? ==> 0.0 <= r.value <= 100.0
    ensures data.JObj? && key !in data.fields ==> r == Ok(0.0)
    ensures !data.JObj? ==> r == Raise(AttributeError)
  {
    match GetOn(data, key, JNum(0.0))
    case Raise(e) => Raise(e)
    case Ok(v) => ToPercent(v)
  }

  /** What iterating over `gpus` yields, for a value `len()` accepts: the
      list's items, or strings (a string's characters, a dict's keys, whose
      text does not matter since `.get` on any string raises). */
  function Items(v: Json): (r: seq<Json>)
    requires Len(v).Ok?
    ensures |r| == Len(v).value
    ensures v.JArr? ==> r == v.items
    ensures !v.JArr? ==> forall k :: 0 <= k < |r| ==> r[k].JStr?
  {
    match v
    case JArr(items) => items
    case JStr(s) => seq(|s|, k requires 0 <= k < |s| => JStr([s[k]]))
    case JObj(fields) => seq(|fields|, k => JStr([]))
  }

  /** The usage one GPU dict reports, the reference the loop is checked against. */
  function Reading(g: Json): (r: Result<GpuUsage>)
    ensures r.Ok? ==> g.JObj?
    ensures g.JObj? && "gpu_utilization" !in g.fields && "vram_used_percent" !in g.fields
            ==> r == Ok(NewGpu)
  {
    match Percent(g, "gpu_utilization")
    case Raise(e) => Raise(e)
    case Ok(a) =>
      match Percent(g, "vram_used_percent")
      case Raise(e) => Raise(e)
      case Ok(b) => Ok(GpuUsage(a, b))
  }

  /** `p.gpus.add()` until there are `n` items; nothing is ever removed. */
  function Grow(gpus: seq<GpuUsage>, n: nat): (r: seq<GpuUsage>)
    ensures |r| == if |gpus| < n then n else |gpus|
    ensures forall k :: 0 <= k < |gpus| ==> r[k] == gpus[k]
    ensures forall k :: |gpus| <= k < |r| ==> r[k] == NewGpu
  {
    if |gpus| < n then gpus + seq(n - |gpus|, k => NewGpu) else gpus
  }

  /** The body of the enumerate loop for item `i`: the `gpu` field is written
      before the `vram` lookup can raise. */
  function SetEntry(e: GpuUsage, g: Json): (GpuUsage, Result<()>) {
    match Percent(g, "gpu_utilization")
    case Raise(err) => (e, Raise(err))
    case Ok(a) =>
      match Percent(g, "vram_used_percent")
      case Raise(err) => (e.(gpu := a), Raise(err))
      case Ok(b) => (GpuUsage(a, b), Ok(()))
  }

  /** The enumerate loop from item `i` on. */
  function OverwriteFrom(gpus: seq<GpuUsage>, items: seq<Json>, i: nat): (seq<GpuUsage>, Result<()>)
    requires i <= |items| <= |gpus|
    decreases |items| - i
  {
    if i == |items| then (gpus, Ok(()))
    else
      var (e, r) := SetEntry(gpus[i], items[i]);
      if r.Raise? then (gpus[i := e], r)
      else OverwriteFrom(gpus[i := e], items, i + 1)
  }

  /** The deferred `f(data)` of the Crystools monitor; `enabledSettable` is
      whether Blender lets `p.enabled = True` through on a group that declares
      no `enabled` property. Each assignment happens in source order, so an
      exception leaves the earlier ones in place. */
  function Sync(p: Crystools, data: Json, enabledSettable: bool): (Crystools, Result<()>) {
    if !enabledSettable then (p, Raise(AttributeError))
    else
      var p1 := p.(enabled := true);
      match Percent(data, "cpu_utilization")
      case Raise(e) => (p1, Raise(e))
      case Ok(cpu) =>
        var p2 := p1.(cpu := cpu);
        match Percent(data, "ram_used_percent")
        case Raise(e) => (p2, Raise(e))
        case Ok(ram) =>
          var p3 := p2.(ram := ram);
          match Percent(data, "hdd_used_percent")
          case Raise(e) => (p3, Raise(e))
          case Ok(hdd) =>
            var p4 := p3.(hdd := hdd);
            match GetOn(data, "gpus", JArr([]))
            case Raise(e) => (p4, Raise(e))
            case Ok(gpus) =>
              match Len(gpus)
              case Raise(e) => (p4, Raise(e))
              case Ok(n) =>
                var (g, r) := OverwriteFrom(Grow(p4.gpus, n), Items(gpus), 0);
                (p4.(gpus := g), r)
  }

  /** The enumerate loop writes the readings of items `i..` and nothing else,
      and completes exactly when every one of those items reads. */
  lemma {:induction false} OverwriteFromReadings(gpus: seq<GpuUsage>, items: seq<Json>, i: nat)
    requires i <= |items| <= |gpus|
    ensures var (g, r) := OverwriteFrom(gpus, items, i);
            && |g| == |gpus|
            && (r.Ok? <==> forall k :: i <= k < |items| ==> Reading(items[k]).Ok?)
            && (r.Ok? ==> forall k :: i <= k < |items| ==> g[k] == Reading(items[k]).value)
            && (forall k :: 0 <= k < |g| && (k < i || |items| <= k) ==> g[k] == gpus[k])
    decreases |items| - i
  {
    if i < |items| {
      var (e, r) := SetEntry(gpus[i], items[i]);
      assert r.Ok? <==> Reading(items[i]).Ok?;
      assert r.Ok? ==> e == Reading(items[i]).value;
      if r.Ok? {
        OverwriteFromReadings(gpus[i := e], items, i + 1);
      }
    }
  }

  /** The GPU list never shrinks, whatever the update does. */
  lemma SyncNeverShrinks(p: Crystools, data: Json, enabledSettable: bool)
    ensures |Sync(p, data, enabledSettable).0.gpus| >= |p.gpus|
  {
    if enabledSettable && data.JObj? {
      var gpus := Get(data.fields, "gpus", JArr([]));
      if Len(gpus).Ok? {
        var grown := Grow(p.gpus, Len(gpus).value);
        OverwriteFromReadings(grown, Items(gpus), 0);
      }
    }
  }

  /** A completed update: the group is enabled, the three scalars hold the
      clamped readings (0 when missing), the GPU list has grown to at least
      one item per reported GPU, item `i` holds GPU `i`'s reading, and items
      past the reported ones are untouched. */
  lemma SyncCompleted(p: Crystools, fields: map<string, Json>, gpus: seq<Json>, enabledSettable: bool)
    requires Get(fields, "gpus", JArr([])) == JArr(gpus)
    requires Sync(p, JObj(fields), enabledSettable).1.Ok?
    ensures var q := Sync(p, JObj(fields), enabledSettable).0;
            && q.enabled
            && Ok(q.cpu) == Percent(JObj(fields), "cpu_utilization")
            && Ok(q.ram) == Percent(JObj(fields), "ram_used_percent")
            && Ok(q.hdd) == Percent(JObj(fields), "hdd_used_percent")
            && |q.gpus| == (if |p.gpus| < |gpus| then |gpus| else |p.gpus|)
            && (forall k :: 0 <= k < |gpus| ==> Ok(q.gpus[k]) == Reading(gpus[k]))
            && (forall k :: |gpus| <= k < |p.gpus| ==> q.gpus[k] == p.gpus[k])
  {
    var grown := Grow(p.gpus, |gpus|);
    OverwriteFromReadings(grown, gpus, 0);
  }

  /** Running the same update twice leaves the group as running it once. */
  lemma SyncIdempotent(p: Crystools, fields: map<string, Json>, gpus: seq<Json>, enabledSettable: bool)
    requires Get(fields, "gpus", JArr([])) == JArr(gpus)
    requires Sync(p, JObj(fields), enabledSettable).1.Ok?
    ensures var q := Sync(p, JObj(fields), enabledSettable).0;
            Sync(q, JObj(fields), enabledSettable) == (q, Ok(()))
  {
    var q := Sync(p, JObj(fields), enabledSettable).0;
    SyncCompleted(p, fields, gpus, enabledSettable);
    var grown := Grow(q.gpus, |gpus|);
    assert grown == q.gpus;
    OverwriteFromReadings(grown, gpus, 0);
    var (g, r) := OverwriteFrom(grown, gpus, 0);
    assert r.Ok? by {
      forall k | 0 <= k < |gpus| ensures Reading(gpus[k]).Ok? {
        assert Ok(q.gpus[k]) == Reading(gpus[k]);
      }
    }
    assert |g| == |q.gpus|;
    forall k | 0 <= k < |g|
      ensures g[k] == q.gpus[k]
    {
      if k < |gpus| {
        assert Ok(q.gpus[k]) == Reading(gpus[k]);
      }
    }
    assert g == q.gpus;
    var d := JObj(fields);
    assert Percent(d, "cpu_utilization") == Ok(q.cpu);
    assert Percent(d, "ram_used_percent") == Ok(q.ram);
    assert Percent(d, "hdd_used_percent") == Ok(q.hdd);
    assert q.enabled;
    assert GetOn(d, "gpus", JArr([])) == Ok(JArr(gpus));
    assert Items(JArr(gpus)) == gpus;
    assert q.(enabled := true).(cpu := q.cpu).(ram := q.ram).(hdd := q.hdd) == q;
    assert Sync(q, d, enabledSettable) == (q.(gpus := g), r);
    assert q.(gpus := g) == q;
    var u: () := r.value;
    assert u == ();
  }

  /** The `CrystoolsMonitorProp` of the screen, updated in place. */
  class CrystoolsProp {
    var enabled: bool
    var cpu: real
    var ram: real
    var hdd: real
    var gpus: seq<GpuUsage>

    function State(): Crystools
      reads this
    {
      Crystools(enabled, cpu, ram, hdd, gpus)
    }

    constructor ()
      ensures State() == Crystools(false, 0.0, 0.0, 0.0, [])
    {
      enabled, cpu, ram, hdd, gpus := false, 0.0, 0.0, 0.0, [];
    }

    /** The deferred `f(data)`. */
    method Update(data: Json, enabledSettable: bool) returns (r: Result<()>)
      modifies this
      ensures (State(), r) == Sync(old(State()), data, enabledSettable)
    {
      if !enabledSettable {
        return Raise(AttributeError);
      }
      enabled := true;
      var x := Percent(data, "cpu_utilization");
      if x.Raise? {
        return Raise(x.error);
      }
      cpu := x.value;
      x := Percent(data, "ram_used_percent");
      if x.Raise? {
        return Raise(x.error);
      }
      ram := x.value;
      x := Percent(data, "hdd_used_percent");
      if x.Raise? {
        return Raise(x.error);
      }
      hdd := x.value;
      var reported := Get(data.fields, "gpus", JArr([]));
      var n := Len(reported);
      if n.Raise? {
        return Raise(n.error);
      }
      assert Percent(data, "cpu_utilization") == Ok(cpu);
      assert Percent(data, "ram_used_percent") == Ok(ram);
      assert Percent(data, "hdd_used_percent") == Ok(hdd);
      GrowGpus(n.value);
      r := OverwriteGpus(Items(reported));
    }

    /** `for i in range(len(p.gpus), len(gpus)): p.gpus.add()`. */
    method GrowGpus(n: nat)
      modifies this
      ensures gpus == Grow(old(gpus), n)
      ensures State().(gpus := []) == old(State()).(gpus := [])
    {
      ghost var before := gpus;
      if |gpus| < n {
        var i := |gpus|;
        while i < n
          invariant State().(gpus := []) == old(State()).(gpus := [])
          invariant |before| <= i <= n
          invariant gpus == before + seq(i - |before|, k => NewGpu)
        {
          gpus := gpus + [NewGpu];
          i := i + 1;
        }
      }
    }

    /** `for i, g in enumerate(gpus)`: item `i` takes GPU `i`'s usage. */
    method OverwriteGpus(items: seq<Json>) returns (r: Result<()>)
      requires |items| <= |gpus|
      modifies this
      ensures (gpus, r) == OverwriteFrom(old(gpus), items, 0)
      ensures State().(gpus := []) == old(State()).(gpus := [])
    {
      var i := 0;
      while i < |items|
        invariant 0 <= i <= |items| <= |gpus|
        invariant OverwriteFrom(gpus, items, i) == OverwriteFrom(old(gpus), items, 0)
        invariant State().(gpus := []) == old(State()).(gpus := [])
      {
        ghost var current := gpus;
        var g := items[i];
        var a := Percent(g, "gpu_utilization");
        if a.Raise? {
          assert gpus[i := gpus[i]] == gpus;
          return Raise(a.error);
        }
        gpus := gpus[i := gpus[i].(gpu := a.value)];
        var b := Percent(g, "vram_used_percent");
        if b.Raise? {
          return Raise(b.error);
        }
        gpus := gpus[i := gpus[i].(vram := b.value)];
        assert SetEntry(current[i], g) == (GpuUsage(a.value, b.value), Ok(()));
        assert gpus == current[i := GpuUsage(a.value, b.value)];
        i := i + 1;
      }
      r := Ok(());
    }
  }

  // ---------------------------------------------------------------------- Cup

  /** The type of a message the Cup monitor takes; a `"type"` that is neither
      `None` nor a string has no `startswith` and raises. */
  function CupRoute(msg: Msg): (r: Result<Option<string>>)
    ensures r.Raise? <==> !NoType(msg) && !msg["type"].JStr?
    ensures r.Raise? ==> r.error == AttributeError
    ensures r.Ok? && r.value.Some? <==>
              "type" in msg && msg["type"].JStr? && CupPrefix <= msg["type"].s
    ensures r.Ok? && r.value.Some? ==> r.value.value == msg["type"].s
  {
    if NoType(msg) then Ok(None)
    else match msg["type"]
      case JStr(mtype) => if CupPrefix <= mtype then Ok(Some(mtype)) else Ok(None)
      case _ => Raise(AttributeError)
  }

  class CupMonitor {
    var enable: bool

    constructor ()
      ensures !enable
    {
      enable := false;
    }

    /** `CupMonitor.process_msg`: takes every `cup.*` type, switches the
        monitor on and defers one task carrying `msg.get("data", {})` and the type. */
    method ProcessMsg(msg: Msg, timer: TimerQueue) returns (r: Result<bool>)
      modifies this, timer
      ensures r.Raise? <==> CupRoute(msg).Raise?
      ensures r.Ok? ==> (r.value <==> CupRoute(msg).value.Some?)
      ensures enable == (old(enable) || r == Ok(true))
      ensures timer.pending == old(timer.pending)
                + (if r == Ok(true) then [CupUpdate(Get(msg, "data", JObj(map[])), CupRoute(msg).value.value)] else [])
    {
      if "type" !in msg || msg["type"] == JNull {
        return Ok(false);
      }
      var mtype := msg["type"];
      if !mtype.JStr? {
        return Raise(AttributeError);
      }
      if !(CupPrefix <= mtype.s) {
        return Ok(false);
      }
      enable := true;
      var data := Get(msg, "data", JObj(map[]));
      timer.Put(CupUpdate(data, mtype.s));
      return Ok(true);
    }
  }

  /** The `CupMonitorProp` integer properties. */
  datatype CupQueue = CupQueue(queueRunning: nat, queuePending: nat)

  /** `len(data.get(key, []))`. */
  function QueueLength(data: Json, key: string): (r: Result<nat>)
    ensures data.JObj? && key !in data.fields ==> r == Ok(0)
    ensures data.JObj? && key in data.fields && data.fields[key].JArr?
            ==> r == Ok(|data.fields[key].items|)
    ensures !data.JObj? ==> r == Raise(AttributeError)
  {
    match GetOn(data, key, JArr([]))
    case Raise(e) => Raise(e)
    case Ok(v) => Len(v)
  }

  /** The deferred `f(data, mtype)` of the Cup monitor: the new properties and,
      for a non-empty `cup.diff`, the value written to the diff file. */
  function CupTask(q: CupQueue, data: Json, mtype: string): (CupQueue, Result<Option<Json>>) {
    if mtype == "cup.diff" then
      if !Truthy(data) then (q, Ok(None)) else (q, Ok(Some(data)))
    else if mtype == "cup.queue" then
      match QueueLength(data, "queue_running")
      case Raise(e) => (q, Raise(e))
      case Ok(running) =>
        var q1 := q.(queueRunning := running);
        match QueueLength(data, "queue_pending")
        case Raise(e) => (q1, Raise(e))
        case Ok(pending) => (q1.(queuePending := pending), Ok(None))
    else (q, Ok(None))
  }

  /** A `cup.queue` update with list-valued (or absent) keys sets both counts
      to the list lengths, 0 for an absent key. */
  lemma CupQueueCounts(q: CupQueue, fields: map<string, Json>, running: seq<Json>, pending: seq<Json>)
    requires Get(fields, "queue_running", JArr([])) == JArr(running)
    requires Get(fields, "queue_pending", JArr([])) == JArr(pending)
    ensures CupTask(q, JObj(fields), "cup.queue") == (CupQueue(|running|, |pending|), Ok(None))
  {
  }

  /** Only `cup.queue` changes the properties; `cup.diff` with empty data and
      every other `cup.*` type do nothing at all. */
  lemma CupTaskOthersInert(q: CupQueue, data: Json, mtype: string)
    requires mtype != "cup.queue"
    ensures CupTask(q, data, mtype).0 == q
    ensures (mtype != "cup.diff" || !Truthy(data)) ==> CupTask(q, data, mtype) == (q, Ok(None))
  {
  }

  /** The `CupMonitorProp` of the screen. */
  class CupProp {
    var queueRunning: nat
    var queuePending: nat

    constructor ()
      ensures queueRunning == 0 && queuePending == 0
    {
      queueRunning, queuePending := 0, 0;
    }

    /** The deferred `f(data, mtype)`; the diff-file write is returned rather
        than performed. */
    method Run(data: Json, mtype: string) returns (r: Result<Option<Json>>)
      modifies this
      ensures (CupQueue(queueRunning, queuePending), r)
           == CupTask(CupQueue(old(queueRunning), old(queuePending)), data, mtype)
    {
      if mtype == "cup.diff" {
        if !Truthy(data) {
          return Ok(None);
        }
        return Ok(Some(data));
      } else if mtype == "cup.queue" {
        var running := QueueLength(data, "queue_running");
        if running.Raise? {
          return Raise(running.error);
        }
        queueRunning := running.value;
        var pending := QueueLength(data, "queue_pending");
        if pending.Raise? {
          return Raise(pending.error);
        }
        queuePending := pending.value;
      }
      r := Ok(None);
    }
  }
}
