/** The polling file watcher (`FSWatcher` in utils.py).

    Three class-level dicts keyed by path hold the registry: the dirty flag
    (`_watcher_path`), the last seen modification time in nanoseconds
    (`_watcher_stat`) and the optional callback (`_watcher_callback`). A scan
    thread marks changed paths dirty and pushes them on `_watcher_queue`; a
    dispatch thread pops paths and calls their callbacks; `consume_change` is
    the polling alternative that reads and clears the dirty flag.

    Each thread's loop body is one method call here. The abstract state is the
    value `WatchState`; each operation is specified by a function on it
    (`AfterRegister`, `AfterScan`, ...), the class `Watcher` implements them on
    its fields, and the lemmas at the end are about the functions. */
module FsWatcher {
  import opened Wrappers

  type Path = string

  /** Identity of a registered callable. */
  type Callback = nat

  /** What the watcher can observe of the filesystem: `st_mtime_ns` of every
      path that exists; a path that does not exist is absent. */
  type FileSystem = map<Path, int>

  datatype WatchState = WatchState(
    order: seq<Path>,                        // insertion order of `_watcher_path`
    dirty: map<Path, bool>,                  // `_watcher_path`
    stat: map<Path, int>,                    // `_watcher_stat`
    callbacks: map<Path, Option<Callback>>,  // `_watcher_callback`
    queue: seq<Option<Path>>,                // `_watcher_queue`; `None` is the stop sentinel
    running: bool)                           // `_running`

  /** The registry invariant: `order` lists each registered path once, and the
      flag and callback dicts have the same keys. `_watcher_stat` is not tied
      to the registry: unregistering leaves its entry behind. */
  ghost predicate WellFormed(s: WatchState) {
    && (forall i, j :: 0 <= i < j < |s.order| ==> s.order[i] != s.order[j])
    && (forall p :: p in s.dirty <==> p in s.order)
    && s.callbacks.Keys == s.dirty.Keys
  }

  /** The class attributes as the module defines them. */
  function Initial(): (s: WatchState)
    ensures WellFormed(s) && s.dirty == map[] && s.queue == []
  {
    WatchState([], map[], map[], map[], [], false)
  }

  predicate IsDirty(s: WatchState, p: Path) {
    p in s.dirty && s.dirty[p]
  }

  /** `order` with `p` taken out (what `dict.pop` does to the key order). */
  function Without(xs: seq<Path>, p: Path): (r: seq<Path>)
    ensures forall x :: x in r <==> x in xs && x != p
    ensures (forall i, j :: 0 <= i < j < |xs| ==> xs[i] != xs[j]) ==>
              (forall i, j :: 0 <= i < j < |r| ==> r[i] != r[j])
  {
    if xs == [] then []
    else if xs[0] == p then Without(xs[1..], p)
    else
      var rest := Without(xs[1..], p);
      assert (forall i, j :: 0 <= i < j < |xs| ==> xs[i] != xs[j]) ==> xs[0] !in xs[1..];
      [xs[0]] + rest
  }

  // ---------------------------------------------------------------------------
  // The operations, as functions of the abstract state

  /** `register(path, callback)`: a path already registered is left alone. */
  function AfterRegister(s: WatchState, p: Path, cb: Option<Callback>): WatchState {
    if p in s.dirty then s
    else s.(order := s.order + [p], dirty := s.dirty[p := false], callbacks := s.callbacks[p := cb])
  }

  /** `unregister(path)`: `KeyError` for an unknown path (nothing is changed
      before the first `pop` raises); the stored mtime is kept. */
  function AfterUnregister(s: WatchState, p: Path): Result<WatchState> {
    if p !in s.dirty || p !in s.callbacks then Raise(KeyError)
    else Ok(s.(order := Without(s.order, p), dirty := s.dirty - {p}, callbacks := s.callbacks - {p}))
  }

  /** The test one scan iteration applies to path `p`. */
  predicate Changed(s: WatchState, fs: FileSystem, p: Path) {
    && p in s.dirty && !s.dirty[p]              // `if changed: continue`
    && p in fs                                   // `if not path.exists(): continue`
    && (p !in s.stat || s.stat[p] != fs[p])      // `_watcher_stat.get(path, None) == mtime`
  }

  /** One iteration of the scan loop's `for`, on path `p`. */
  function ScanOne(s: WatchState, fs: FileSystem, p: Path): WatchState {
    if Changed(s, fs, p) then
      s.(stat := s.stat[p := fs[p]], dirty := s.dirty[p := true], queue := s.queue + [Some(p)])
    else s
  }

  /** The scan loop's `for` over the first |ps| entries of the snapshot. */
  function ScanPrefix(s: WatchState, fs: FileSystem, ps: seq<Path>): WatchState {
    if ps == [] then s
    else ScanOne(ScanPrefix(s, fs, ps[..|ps| - 1]), fs, ps[|ps| - 1])
  }

  /** One pass of the scan loop (`_loop`, without the sleep). */
  function AfterScan(s: WatchState, fs: FileSystem): WatchState {
    ScanPrefix(s, fs, s.order)
  }

  /** The paths of `ps` that pass the scan test, in order. */
  function ChangedPaths(s: WatchState, fs: FileSystem, ps: seq<Path>): seq<Path> {
    if ps == [] then []
    else ChangedPaths(s, fs, ps[..|ps| - 1]) + (if Changed(s, fs, ps[|ps| - 1]) then [ps[|ps| - 1]] else [])
  }

  function Wrap(ps: seq<Path>): (r: seq<Option<Path>>)
    ensures |r| == |ps| && forall i :: 0 <= i < |ps| ==> r[i] == Some(ps[i])
  {
    if ps == [] then [] else Wrap(ps[..|ps| - 1]) + [Some(ps[|ps| - 1])]
  }

  /** One iteration of the dispatch loop (`_run_ex`): the new state and the
      callback invoked, with its argument, if any. An empty queue is the
      `queue.Empty` timeout. */
  function AfterDispatch(s: WatchState): (WatchState, Option<(Callback, Path)>) {
    if s.queue == [] then (s, None)
    else
      var item, t := s.queue[0], s.(queue := s.queue[1..]);
      // `item.value in s.callbacks` follows from WellFormed
      if item.None? || item.value !in s.dirty || item.value !in s.callbacks then (t, None)
      else match s.callbacks[item.value]
        case None => (t, None)
        case Some(cb) => (t, Some((cb, item.value)))
  }

  /** `consume_change(path)`: clears and reports a pending change. */
  function AfterConsume(s: WatchState, p: Path): (WatchState, bool) {
    if p in s.dirty && s.dirty[p] then (s.(dirty := s.dirty[p := false]), true)
    else (s, false)
  }

  /** `_run()` (what `init()` calls): set the running flag, and report whether
      the two threads are started, which happens only when it was clear. */
  function AfterRun(s: WatchState): (WatchState, bool) {
    if s.running then (s, false) else (s.(running := true), true)
  }

  /** `stop()`: push the `None` sentinel and clear the running flag. */
  function AfterStop(s: WatchState): WatchState {
    s.(queue := s.queue + [None], running := false)
  }

  // ---------------------------------------------------------------------------
  // The class: the same operations as in-place updates of the registry fields

  class Watcher {
    var order: seq<Path>
    var dirty: map<Path, bool>
    var stat: map<Path, int>
    var callbacks: map<Path, Option<Callback>>
    var queue: seq<Option<Path>>
    var running: bool

    function State(): WatchState
      reads this
    {
      WatchState(order, dirty, stat, callbacks, queue, running)
    }

    ghost predicate Valid()
      reads this
    {
      WellFormed(State())
    }

    constructor ()
      ensures Valid() && State() == Initial()
    {
      order, dirty, stat, callbacks, queue, running := [], map[], map[], map[], [], false;
    }

    method Register(p: Path, cb: Option<Callback>)
      requires Valid()
      modifies this
      ensures Valid() && State() == AfterRegister(old(State()), p, cb)
    {
      if p in dirty {
        return;
      }
      dirty := dirty[p := false];
      callbacks := callbacks[p := cb];
      order := order + [p];
    }

    method Unregister(p: Path) returns (r: Result<()>)
      requires Valid()
      modifies this
      ensures Valid()
      ensures AfterUnregister(old(State()), p).Raise? ==> r == Raise(KeyError) && State() == old(State())
      ensures AfterUnregister(old(State()), p).Ok? ==> r == Ok(()) && State() == AfterUnregister(old(State()), p).value
    {
      if p !in dirty {
        return Raise(KeyError);
      }
      dirty := dirty - {p};
      order := Without(order, p);
      callbacks := callbacks - {p};
      r := Ok(());
    }

    /** One pass of `_loop`: a `for` over a snapshot of the registry. */
    method Scan(fs: FileSystem)
      requires Valid()
      modifies this
      ensures Valid() && State() == AfterScan(old(State()), fs)
    {
      ghost var s0 := State();
      var snapshot := order;
      var i := 0;
      while i < |snapshot|
        invariant 0 <= i <= |snapshot|
        invariant State() == ScanPrefix(s0, fs, snapshot[..i])
      {
        ScanPath(snapshot[i], fs);
        ScanPrefixSnoc(s0, fs, snapshot, i);
        i := i + 1;
      }
      assert snapshot[..i] == snapshot;
      ScanKeepsWellFormed(s0, fs);
    }

    /** The body of the scan loop's `for`, on one path of the snapshot. */
    method ScanPath(p: Path, fs: FileSystem)
      modifies this
      ensures State() == ScanOne(old(State()), fs, p)
    {
      if p in dirty && !dirty[p] && p in fs && (p !in stat || stat[p] != fs[p]) {
        stat := stat[p := fs[p]];
        dirty := dirty[p := true];
        queue := queue + [Some(p)];
      }
    }

    /** One iteration of `_run_ex`: returns the callback to invoke with its path. */
    method Dispatch() returns (call: Option<(Callback, Path)>)
      requires Valid()
      modifies this
      ensures Valid()
      ensures (State(), call) == AfterDispatch(old(State()))
    {
      if queue == [] {
        return None;
      }
      var item := queue[0];
      queue := queue[1..];
      if item.None? || item.value !in dirty {
        return None;
      }
      call := match callbacks[item.value]
        case None => None
        case Some(cb) => Some((cb, item.value));
    }

    method ConsumeChange(p: Path) returns (changed: bool)
      requires Valid()
      modifies this
      ensures Valid()
      ensures (State(), changed) == AfterConsume(old(State()), p)
    {
      if p in dirty && dirty[p] {
        dirty := dirty[p := false];
        return true;
      }
      return false;
    }

    method Run() returns (started: bool)
      requires Valid()
      modifies this
      ensures Valid() && (State(), started) == AfterRun(old(State()))
    {
      if running {
        return false;
      }
      running := true;
      return true;
    }

    method Stop()
      requires Valid()
      modifies this
      ensures Valid() && State() == AfterStop(old(State()))
    {
      queue := queue + [None];
      running := false;
    }
  }

  // ---------------------------------------------------------------------------
  // Properties of the operations

  /** A second `register` of a path leaves its flag and its first callback in place. */
  lemma RegisterIdempotent(s: WatchState, p: Path, cb: Option<Callback>, cb2: Option<Callback>)
    requires WellFormed(s)
    ensures var t := AfterRegister(s, p, cb);
      && WellFormed(t)
      && AfterRegister(t, p, cb2) == t
      && p in t.callbacks && t.callbacks[p] == (if p in s.callbacks then s.callbacks[p] else cb)
      && t.dirty[p] == (p in s.dirty && s.dirty[p])
  {
  }

  /** `unregister` raises `KeyError` exactly for an unknown path, and otherwise
      forgets the path and its callback but keeps its stored mtime. */
  lemma UnregisterKeepsStat(s: WatchState, p: Path)
    requires WellFormed(s)
    ensures AfterUnregister(s, p).Raise? <==> p !in s.dirty
    ensures AfterUnregister(s, p).Ok? ==>
      var t := AfterUnregister(s, p).value;
      && WellFormed(t)
      && p !in t.dirty && p !in t.callbacks && p !in t.order
      && t.stat == s.stat && t.queue == s.queue
      && (forall q :: q != p && q in s.dirty ==> q in t.dirty && t.dirty[q] == s.dirty[q] && t.callbacks[q] == s.callbacks[q])
  {
  }

  /** A scan only touches the flags, the stored mtimes and the queue. */
  lemma {:induction false} ScanPrefixFrame(s: WatchState, fs: FileSystem, ps: seq<Path>)
    ensures var t := ScanPrefix(s, fs, ps);
      && t.order == s.order && t.callbacks == s.callbacks && t.running == s.running
      && t.dirty.Keys == s.dirty.Keys
  {
    if ps != [] {
      ScanPrefixFrame(s, fs, ps[..|ps| - 1]);
    }
  }

  /** What a scan of the snapshot `ps` does to one path: it is marked dirty and
      gets the current mtime exactly when it is in `ps` and passes the test. */
  lemma {:induction false} ScanPrefixPath(s: WatchState, fs: FileSystem, ps: seq<Path>, p: Path)
    requires forall i, j :: 0 <= i < j < |ps| ==> ps[i] != ps[j]
    ensures var t := ScanPrefix(s, fs, ps);
      && (p in s.dirty ==> p in t.dirty && t.dirty[p] == (s.dirty[p] || (p in ps && Changed(s, fs, p))))
      && (p in t.stat <==> p in s.stat || (p in ps && Changed(s, fs, p)))
      && (p in t.stat ==> t.stat[p] == if p in ps && Changed(s, fs, p) then fs[p] else s.stat[p])
  {
    if ps != [] {
      var init, last := ps[..|ps| - 1], ps[|ps| - 1];
      assert last !in init;
      assert p in ps <==> p in init || p == last;
      ScanPrefixPath(s, fs, init, p);
      ScanPrefixPath(s, fs, init, last);
      ScanPrefixFrame(s, fs, init);
    }
  }

  /** A scan of the snapshot `ps` pushes the paths that pass the test, in order. */
  lemma {:induction false} ScanPrefixQueue(s: WatchState, fs: FileSystem, ps: seq<Path>)
    requires forall i, j :: 0 <= i < j < |ps| ==> ps[i] != ps[j]
    ensures ScanPrefix(s, fs, ps).queue == s.queue + Wrap(ChangedPaths(s, fs, ps))
  {
    if ps != [] {
      var init, last := ps[..|ps| - 1], ps[|ps| - 1];
      assert last !in init;
      ScanPrefixQueue(s, fs, init);
      ScanPrefixPath(s, fs, init, last);
      ScanPrefixFrame(s, fs, init);
      var u := ScanPrefix(s, fs, init);
      assert Changed(u, fs, last) == Changed(s, fs, last);
      QueueSnoc(s.queue, ChangedPaths(s, fs, init), last, Changed(s, fs, last));
    }
  }

  /** Pushing one more changed path extends the wrapped queue by it. */
  lemma QueueSnoc(q: seq<Option<Path>>, cs: seq<Path>, p: Path, b: bool)
    ensures q + Wrap(cs + (if b then [p] else [])) == q + Wrap(cs) + (if b then [Some(p)] else [])
  {
    if b {
      assert (cs + [p])[..|cs|] == cs;
      assert Wrap(cs + [p]) == Wrap(cs) + [Some(p)];
    } else {
      assert cs + [] == cs;
    }
  }

  /** What a scan of the snapshot `ps` does, all at once: every path of `ps`
      that passes the test is marked dirty, gets the current mtime and is
      pushed, in order; nothing else changes. */
  lemma ScanPrefixExact(s: WatchState, fs: FileSystem, ps: seq<Path>)
    requires forall i, j :: 0 <= i < j < |ps| ==> ps[i] != ps[j]
    ensures var t := ScanPrefix(s, fs, ps);
      && t.order == s.order && t.callbacks == s.callbacks && t.running == s.running
      && t.dirty.Keys == s.dirty.Keys
      && (forall p :: p in s.dirty ==> t.dirty[p] == (s.dirty[p] || (p in ps && Changed(s, fs, p))))
      && (forall p :: p in t.stat <==> p in s.stat || (p in ps && Changed(s, fs, p)))
      && (forall p :: p in t.stat ==> t.stat[p] == if p in ps && Changed(s, fs, p) then fs[p] else s.stat[p])
      && t.queue == s.queue + Wrap(ChangedPaths(s, fs, ps))
  {
    ScanPrefixFrame(s, fs, ps);
    ScanPrefixQueue(s, fs, ps);
    forall p
      ensures var t := ScanPrefix(s, fs, ps);
        && (p in s.dirty ==> p in t.dirty && t.dirty[p] == (s.dirty[p] || (p in ps && Changed(s, fs, p))))
        && (p in t.stat <==> p in s.stat || (p in ps && Changed(s, fs, p)))
        && (p in t.stat ==> t.stat[p] == if p in ps && Changed(s, fs, p) then fs[p] else s.stat[p])
    {
      ScanPrefixPath(s, fs, ps, p);
    }
  }

  /** The loop's `for` over one more path of the snapshot. */
  lemma ScanPrefixSnoc(s: WatchState, fs: FileSystem, ps: seq<Path>, i: nat)
    requires i < |ps|
    ensures ScanPrefix(s, fs, ps[..i + 1]) == ScanOne(ScanPrefix(s, fs, ps[..i]), fs, ps[i])
  {
    assert ps[..i + 1][..i] == ps[..i];
  }

  /** A scan pass keeps the registry invariant. */
  lemma ScanKeepsWellFormed(s: WatchState, fs: FileSystem)
    requires WellFormed(s)
    ensures WellFormed(AfterScan(s, fs))
  {
    ScanPrefixFrame(s, fs, s.order);
  }

  /** One scan pass, stated outright (utils.py `_loop`). */
  lemma ScanPassExact(s: WatchState, fs: FileSystem)
    requires WellFormed(s)
    ensures var t := AfterScan(s, fs);
      && WellFormed(t)
      && t.order == s.order && t.callbacks == s.callbacks && t.running == s.running
      && t.dirty.Keys == s.dirty.Keys
      && (forall p :: p in s.dirty ==> t.dirty[p] == (s.dirty[p] || Changed(s, fs, p)))
      && (forall p :: p in t.stat <==> p in s.stat || Changed(s, fs, p))
      && (forall p :: p in t.stat ==> t.stat[p] == if Changed(s, fs, p) then fs[p] else s.stat[p])
      && t.queue == s.queue + Wrap(ChangedPaths(s, fs, s.order))
  {
    ScanPrefixExact(s, fs, s.order);
  }

  /** Each path occurs in `ChangedPaths` at most once, and exactly when it passes the test. */
  lemma {:induction false} ChangedPathsCount(s: WatchState, fs: FileSystem, ps: seq<Path>, p: Path)
    requires forall i, j :: 0 <= i < j < |ps| ==> ps[i] != ps[j]
    ensures multiset(Wrap(ChangedPaths(s, fs, ps)))[Some(p)] == if p in ps && Changed(s, fs, p) then 1 else 0
  {
    if ps != [] {
      var init, last := ps[..|ps| - 1], ps[|ps| - 1];
      ChangedPathsCount(s, fs, init, p);
      var cs := ChangedPaths(s, fs, init);
      assert forall x :: x in ps <==> x in init || x == last;
      assert last !in init;
      WrapSnocCount(cs, last, Changed(s, fs, last), p);
    }
  }

  /** Appending `last` (when `b`) adds one occurrence of it. */
  lemma WrapSnocCount(cs: seq<Path>, last: Path, b: bool, p: Path)
    ensures multiset(Wrap(cs + (if b then [last] else [])))[Some(p)]
         == multiset(Wrap(cs))[Some(p)] + (if b && p == last then 1 else 0)
  {
    if b {
      assert (cs + [last])[..|cs|] == cs;
      assert Wrap(cs + [last]) == Wrap(cs) + [Some(last)];
    } else {
      assert cs + [] == cs;
    }
  }

  /** A freshly registered path whose file exists is reported on the first scan. */
  lemma FreshPathReported(s: WatchState, p: Path, cb: Option<Callback>, fs: FileSystem)
    requires WellFormed(s) && p !in s.dirty && p !in s.stat && p in fs
    ensures var t := AfterScan(AfterRegister(s, p, cb), fs);
      IsDirty(t, p) && p in t.stat && t.stat[p] == fs[p] && Some(p) in t.queue
  {
    var r := AfterRegister(s, p, cb);
    assert r.order == s.order + [p] && p !in s.order;
    assert Changed(r, fs, p);
    ScanPrefixPath(r, fs, r.order, p);
    ScanPrefixQueue(r, fs, r.order);
    ChangedPathsCount(r, fs, r.order, p);
    var w := Wrap(ChangedPaths(r, fs, r.order));
    assert Some(p) in multiset(w);
    assert Some(p) in w;
  }

  /** A path unregistered and registered again keeps its old mtime, so an
      unchanged file is NOT reported again. */
  lemma ReregisteredUnchangedNotReported(s: WatchState, p: Path, cb: Option<Callback>, fs: FileSystem)
    requires WellFormed(s) && p in s.dirty && p in s.stat && p in fs && s.stat[p] == fs[p]
    ensures AfterUnregister(s, p).Ok?
    ensures var t := AfterScan(AfterRegister(AfterUnregister(s, p).value, p, cb), fs);
      !IsDirty(t, p) && |t.queue| >= |s.queue| && Some(p) !in t.queue[|s.queue|..]
  {
    var u := AfterUnregister(s, p).value;
    var r := AfterRegister(u, p, cb);
    assert WellFormed(r);
    assert !Changed(r, fs, p);
    ScanPrefixPath(r, fs, r.order, p);
    ScanPrefixQueue(r, fs, r.order);
    ChangedPathsCount(r, fs, r.order, p);
    var t := AfterScan(r, fs);
    assert t.queue[|s.queue|..] == Wrap(ChangedPaths(r, fs, r.order));
  }

  /** A dispatch step pops one item and invokes its callback exactly when the
      item is a registered path with a callback; it changes nothing else, and
      in particular never clears the dirty flag. The stop sentinel invokes nothing. */
  lemma DispatchExact(s: WatchState)
    requires WellFormed(s)
    ensures var (t, call) := AfterDispatch(s);
      && WellFormed(t)
      && t.dirty == s.dirty && t.stat == s.stat && t.callbacks == s.callbacks && t.order == s.order
      && t.running == s.running
      && t.queue == (if s.queue == [] then [] else s.queue[1..])
      && (call.Some? <==>
            s.queue != [] && s.queue[0].Some? && s.queue[0].value in s.dirty
            && s.callbacks[s.queue[0].value].Some?)
      && (call.Some? ==> call.value == (s.callbacks[s.queue[0].value].value, s.queue[0].value))
      && (s.queue != [] && s.queue[0] == None ==> call == None)
  {
  }

  /** `consume_change` returns true and clears the flag iff the path is
      registered and dirty; otherwise it changes nothing. */
  lemma ConsumeExact(s: WatchState, p: Path)
    requires WellFormed(s)
    ensures var (t, changed) := AfterConsume(s, p);
      && WellFormed(t)
      && changed == IsDirty(s, p)
      && (changed ==> t.dirty == s.dirty[p := false] && t == s.(dirty := t.dirty))
      && (!changed ==> t == s)
      && !IsDirty(t, p)
  {
  }

  // ---------------------------------------------------------------------------
  // Coalescing over any interleaving of the operations

  datatype Op =
    | Reg(p: Path, cb: Option<Callback>)
    | Unreg(p: Path)
    | Scan(fs: FileSystem)
    | Dispatch
    | Consume(p: Path)
    | Run
    | Stop

  /** The state after one operation; a raising `unregister` changes nothing. */
  function Apply(s: WatchState, op: Op): WatchState {
    match op
    case Reg(p, cb) => AfterRegister(s, p, cb)
    case Unreg(p) => (match AfterUnregister(s, p) case Ok(t) => t case Raise(_) => s)
    case Scan(fs) => AfterScan(s, fs)
    case Dispatch => AfterDispatch(s).0
    case Consume(p) => AfterConsume(s, p).0
    case Run => AfterRun(s).0
    case Stop => AfterStop(s)
  }

  /** What one operation pushes onto `_watcher_queue`. */
  function PushedBy(s: WatchState, op: Op): seq<Option<Path>> {
    match op
    case Scan(fs) => Wrap(ChangedPaths(s, fs, s.order))
    case Stop => [None]
    case _ => []
  }

  /** Everything pushed onto the queue while `ops` run from `s`. */
  function Pushed(s: WatchState, ops: seq<Op>): seq<Option<Path>>
    decreases |ops|
  {
    if ops == [] then [] else PushedBy(s, ops[0]) + Pushed(Apply(s, ops[0]), ops[1..])
  }

  lemma ApplyPushes(s: WatchState, op: Op)
    requires WellFormed(s)
    ensures WellFormed(Apply(s, op))
    ensures Apply(s, op).queue == s.queue + PushedBy(s, op) || (op.Dispatch? && s.queue != [])
  {
    match op
    case Reg(p, cb) => RegisterIdempotent(s, p, cb, cb);
    case Unreg(p) => UnregisterKeepsStat(s, p);
    case Scan(fs) => ScanPassExact(s, fs);
    case Dispatch => WellFormedFrame(s, AfterDispatch(s).0);
    case Consume(p) => WellFormedFrame(s, AfterConsume(s, p).0);
    case Run => WellFormedFrame(s, AfterRun(s).0);
    case Stop => WellFormedFrame(s, AfterStop(s));
  }

  /** The threads are started at most once until `stop()`: a second `_run()`
      returns early, and `stop()` makes the next one start them again. Neither
      touches the registry or the queue. */
  lemma RunOnce(s: WatchState)
    ensures var (t, started) := AfterRun(s);
      && started == !s.running && t.running
      && AfterRun(t) == (t, false)
      && AfterRun(AfterStop(t)).1
      && t == s.(running := true)
  {
  }

  /** Well-formedness only depends on the order, the flags' keys and the
      callbacks' keys. */
  lemma WellFormedFrame(s: WatchState, t: WatchState)
    requires WellFormed(s)
    requires t.order == s.order && t.dirty.Keys == s.dirty.Keys && t.callbacks.Keys == s.callbacks.Keys
    ensures WellFormed(t)
  {
  }

  /** How one scan pass affects one path's flag. */
  lemma ScanFlag(s: WatchState, fs: FileSystem, p: Path)
    requires WellFormed(s)
    ensures IsDirty(AfterScan(s, fs), p) == (IsDirty(s, p) || Changed(s, fs, p))
  {
    ScanPassExact(s, fs);
  }

  /** How often one scan pass pushes one path. */
  lemma ScanPushCount(s: WatchState, fs: FileSystem, p: Path)
    requires WellFormed(s)
    ensures multiset(PushedBy(s, Scan(fs)))[Some(p)] == if Changed(s, fs, p) then 1 else 0
  {
    ChangedPathsCount(s, fs, s.order, p);
  }

  /** One operation other than unregistering `p` or a `consume_change(p)` that
      finds `p` dirty keeps `p` dirty, pushes `p` at most once, and leaves `p`
      dirty when it does push it. */
  lemma StepBound(s: WatchState, op: Op, p: Path)
    requires WellFormed(s)
    requires op != Unreg(p) && (op == Consume(p) ==> !IsDirty(s, p))
    ensures WellFormed(Apply(s, op))
    ensures IsDirty(s, p) ==> IsDirty(Apply(s, op), p)
    ensures multiset(PushedBy(s, op))[Some(p)] <= if IsDirty(s, p) then 0 else 1
    ensures multiset(PushedBy(s, op))[Some(p)] == 1 ==> IsDirty(Apply(s, op), p)
  {
    ApplyPushes(s, op);
    match op
    case Scan(fs) => ScanFlag(s, fs, p); ScanPushCount(s, fs, p);
    case Unreg(q) => UnregisterKeepsStat(s, q);
    case Stop => assert PushedBy(s, op) == [None];
    case _ =>
  }

  /** No operation of `ops`, run from `s`, unregisters `p` or is a successful
      `consume_change(p)`: every `consume_change(p)` among them finds `p` clean. */
  ghost predicate NoConsumeOf(s: WatchState, ops: seq<Op>, p: Path)
    decreases |ops|
  {
    ops == [] ||
      (&& ops[0] != Unreg(p)
       && (ops[0] == Consume(p) ==> !IsDirty(s, p))
       && NoConsumeOf(Apply(s, ops[0]), ops[1..], p))
  }

  /** Coalescing: while nobody unregisters `p` and no `consume_change(p)`
      succeeds, the watcher pushes `p` at most once, and not at all while `p`
      is already dirty. Failed `consume_change(p)` calls may occur anywhere. */
  lemma {:induction false} Coalescing(s: WatchState, ops: seq<Op>, p: Path)
    requires WellFormed(s)
    requires NoConsumeOf(s, ops, p)
    ensures multiset(Pushed(s, ops))[Some(p)] <= if IsDirty(s, p) then 0 else 1
    decreases |ops|
  {
    if ops != [] {
      StepBound(s, ops[0], p);
      Coalescing(Apply(s, ops[0]), ops[1..], p);
      assert multiset(Pushed(s, ops)) == multiset(PushedBy(s, ops[0])) + multiset(Pushed(Apply(s, ops[0]), ops[1..]));
    }
  }

  /** Between two successful `consume_change(p)` calls `p` is enqueued at most
      once: after a call that returned true, any run of operations up to the
      next successful one pushes `p` at most once. */
  lemma BetweenConsumes(s: WatchState, ops: seq<Op>, p: Path)
    requires WellFormed(s)
    requires AfterConsume(s, p).1
    requires NoConsumeOf(AfterConsume(s, p).0, ops, p)
    ensures multiset(Pushed(AfterConsume(s, p).0, ops))[Some(p)] <= 1
  {
    ConsumeExact(s, p);
    Coalescing(AfterConsume(s, p).0, ops, p);
  }
}
