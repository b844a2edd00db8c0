/** The icon preview cache (`Icon` in utils.py).

    Previews are kept per key in `PREV_DICT`; each key carries a staleness
    fingerprint: the source file's `st_mtime_ns` in `IMG_STATUS`, or a hash of
    the pixels in `PIX_STATUS`. A preview is (re)generated only when the
    fingerprint differs from the stored one. `NONE_IMAGE` names the reserved
    placeholder entry that lookups of unknown keys fall back to.

    Keys are strings already normalised by `to_str` (see PathNorm). What a
    call observes of the filesystem (the file's mtime, or that it is missing)
    and of Blender's image loading is passed in. Creating a Blender preview is
    abstracted to handing out the next icon id. Work the source defers with
    `Timer.put` is appended to a `TimerQueue`. */
module IconCache {
  import opened Wrappers
  import opened Deferred

  type Key = string

  /** A preview handle held in `PREV_DICT`. */
  datatype Preview = Preview(iconId: nat)

  /** An image `bpy.data.images.load` returned: its datablock and the hash of
      its pixels (after alpha premultiplication). */
  datatype LoadedImage = LoadedImage(image: nat, pixelHash: int)

  /** What the high-quality path observes of a source: whether the file exists,
      whether its suffix is an image suffix, and the loaded image, or `None`
      when `bpy.data.images.load` raises. */
  datatype HqSource = HqSource(present: bool, imageSuffix: bool, load: Option<LoadedImage>)

  datatype IconState = IconState(
    imgStatus: map<Key, int>,     // `IMG_STATUS`: key -> st_mtime_ns
    pixStatus: map<Key, int>,     // `PIX_STATUS`: key -> pixel hash
    previews: map<Key, Preview>,  // `PREV_DICT`
    path2bpy: map<Key, nat>,      // `PATH2BPY`: key -> image datablock
    noneImage: Key,               // `NONE_IMAGE`
    hq: bool,                     // `ENABLE_HQ_PREVIEW`
    lastIcon: nat)                // icon ids handed out so far (abstract preview creation)

  /** The class attributes as the module defines them. */
  function Initial(): IconState {
    IconState(map[], map[], map[], map[], "", false, 0)
  }

  // ---------------------------------------------------------------------------
  // The operations, as functions of the abstract state

  /** `try_mark_image`: the file exists and its mtime differs from the stored
      one (a missing entry reads as -1). Changes nothing. */
  predicate TryMarkImage(s: IconState, key: Key, mtime: Option<int>) {
    mtime.Some? && (if key in s.imgStatus then s.imgStatus[key] else -1) != mtime.value
  }

  /** `can_mark_image`: `try_mark_image`, recording the mtime when it holds. */
  function MarkImage(s: IconState, key: Key, mtime: Option<int>): (IconState, bool) {
    if TryMarkImage(s, key, mtime) then (s.(imgStatus := s.imgStatus[key := mtime.value]), true)
    else (s, false)
  }

  /** `can_mark_pixel`: the pixel hash differs from the stored one (or none is
      stored); records it when it does. */
  function MarkPixel(s: IconState, key: Key, hash: int): (IconState, bool) {
    if key in s.pixStatus && s.pixStatus[key] == hash then (s, false)
    else (s.(pixStatus := s.pixStatus[key := hash]), true)
  }

  /** A new preview under `key`, with a fresh icon id. */
  function NewPreview(s: IconState, key: Key): IconState {
    s.(previews := s.previews[key := Preview(s.lastIcon + 1)], lastIcon := s.lastIcon + 1)
  }

  /** `get_icon_id`: the key's preview, else the placeholder's, else 0. */
  function IconId(s: IconState, key: Key): nat {
    if key in s.previews then s.previews[key].iconId
    else if s.noneImage in s.previews then s.previews[s.noneImage].iconId
    else 0
  }

  /** `key in Icon` (`__contains__`). */
  predicate Contains(s: IconState, key: Key) {
    key in s.previews
  }

  /** `reg_icon_by_pixel`: a preview is created only when the pixel hash is new
      and the key has none yet. */
  function RegisterByPixel(s: IconState, key: Key, hash: int): IconState {
    var (t, marked) := MarkPixel(s, key, hash);
    if !marked || key in t.previews then t else NewPreview(t, key)
  }

  /** `reg_icon_hq`: the new state, the deferred tasks, and whether it raised. */
  function RegisterIconHq(s: IconState, key: Key, src: HqSource): (r: (IconState, seq<Task>, Result<()>))
    ensures r.2.Raise? ==> r.0 == s && r.1 == [] && r.2.error == RuntimeError
    ensures r.0.imgStatus == s.imgStatus && r.0.noneImage == s.noneImage
  {
    if key in s.previews then (s, [], Ok(()))
    else if src.present && src.imageSuffix then
      match src.load
      case None => (s, [], Raise(RuntimeError))
      case Some(img) => (RegisterByPixel(s, key, img.pixelHash), [RemoveImage(img.image)], Ok(()))
    else (s, [], Ok(()))
  }

  /** `reg_icon(path, reload)`: the new state, the deferred tasks and the icon
      id returned. `mtime` is the file's mtime, `None` when it is missing. */
  function RegisterIcon(s: IconState, key: Key, mtime: Option<int>, reload: bool, src: HqSource)
    : (IconState, seq<Task>, nat)
  {
    var (s1, marked) := MarkImage(s, key, mtime);
    if !marked then (s1, [], IconId(s1, key))
    else if s1.hq then
      var (s2, tasks, r) := RegisterIconHq(s1, key, src);
      (s2, if r.Raise? then tasks + [RetryIconHq(key)] else tasks, IconId(s2, key))
    else
      var s2 := if key in s1.previews then s1 else NewPreview(s1, key);
      (s2, if reload then [ReloadPreview(key)] else [], IconId(s2, key))
  }

  /** `reg_none(path)`: an already registered key is left alone; otherwise it
      becomes the placeholder and is registered. */
  function RegisterNone(s: IconState, key: Key, mtime: Option<int>, src: HqSource): (IconState, seq<Task>) {
    if key in s.previews then (s, [])
    else
      var (t, tasks, _) := RegisterIcon(s.(noneImage := key), key, mtime, false, src);
      (t, tasks)
  }

  /** `clear()`: empty the four maps and register the placeholder again. */
  function Cleared(s: IconState, mtime: Option<int>, src: HqSource): (IconState, seq<Task>) {
    var c := s.(imgStatus := map[], pixStatus := map[], previews := map[], path2bpy := map[]);
    var (t, tasks, _) := RegisterIcon(c, c.noneImage, mtime, false, src);
    (t, tasks)
  }

  /** `remove_mark(name)` as written: three `pop`s in a row, each raising
      `KeyError` for a missing key after the earlier ones took effect. */
  function RemoveMarkAsWritten(s: IconState, key: Key): (r: (IconState, Result<bool>))
    ensures r.1.Ok? <==> key in s.imgStatus && key in s.pixStatus && key in s.previews
    ensures r.1.Raise? ==> r.1.error == KeyError
    ensures r.1.Ok? ==> r.0 == RemoveMarkIntended(s, key)
  {
    if key !in s.imgStatus then (s, Raise(KeyError))
    else
      var s1 := s.(imgStatus := s.imgStatus - {key});
      if key !in s1.pixStatus then (s1, Raise(KeyError))
      else
        var s2 := s1.(pixStatus := s1.pixStatus - {key});
        if key !in s2.previews then (s2, Raise(KeyError))
        else (s2.(previews := s2.previews - {key}), Ok(true))
  }

  /** `remove_mark(name)` as evidently intended: evict the key from all three
      maps whatever it has (`pop(name, None)`). */
  function RemoveMarkIntended(s: IconState, key: Key): IconState {
    s.(imgStatus := s.imgStatus - {key}, pixStatus := s.pixStatus - {key}, previews := s.previews - {key})
  }

  // ---------------------------------------------------------------------------
  // The class: the same operations as in-place updates of the class dicts

  class IconRegistry {
    var imgStatus: map<Key, int>
    var pixStatus: map<Key, int>
    var previews: map<Key, Preview>
    var path2bpy: map<Key, nat>
    var noneImage: Key
    var hq: bool
    var lastIcon: nat

    function State(): IconState
      reads this
    {
      IconState(imgStatus, pixStatus, previews, path2bpy, noneImage, hq, lastIcon)
    }

    constructor ()
      ensures State() == Initial()
    {
      imgStatus, pixStatus, previews, path2bpy := map[], map[], map[], map[];
      noneImage, hq, lastIcon := "", false, 0;
    }

    /** `set_hq_preview`: the preference decides the generation strategy. */
    method SetHqPreview(enable: bool)
      modifies this
      ensures State() == old(State()).(hq := enable)
    {
      hq := enable;
    }

    method CanMarkImage(key: Key, mtime: Option<int>) returns (marked: bool)
      modifies this
      ensures (State(), marked) == MarkImage(old(State()), key, mtime)
    {
      if !TryMarkImage(State(), key, mtime) {
        return false;
      }
      imgStatus := imgStatus[key := mtime.value];
      return true;
    }

    method CanMarkPixel(key: Key, hash: int) returns (marked: bool)
      modifies this
      ensures (State(), marked) == MarkPixel(old(State()), key, hash)
    {
      if key in pixStatus && pixStatus[key] == hash {
        return false;
      }
      pixStatus := pixStatus[key := hash];
      return true;
    }

    /** `remove_mark`, corrected: the key leaves all three maps whatever it
        has (see `RemoveMarkAsWritten` for the source's three bare `pop`s). */
    method RemoveMark(key: Key) returns (removed: bool)
      modifies this
      ensures State() == RemoveMarkIntended(old(State()), key) && removed
    {
      imgStatus := imgStatus - {key};
      pixStatus := pixStatus - {key};
      previews := previews - {key};
      return true;
    }

    method RegIconByPixel(key: Key, hash: int)
      modifies this
      ensures State() == RegisterByPixel(old(State()), key, hash)
    {
      var marked := CanMarkPixel(key, hash);
      if !marked || key in previews {
        return;
      }
      previews := previews[key := Preview(lastIcon + 1)];
      lastIcon := lastIcon + 1;
    }

    method RegIconHq(key: Key, src: HqSource, timer: TimerQueue) returns (r: Result<()>)
      modifies this, timer
      ensures var (t, tasks, res) := RegisterIconHq(old(State()), key, src);
        State() == t && timer.pending == old(timer.pending) + tasks && r == res
    {
      if key in previews {
        return Ok(());
      }
      if src.present && src.imageSuffix {
        if src.load.None? {
          return Raise(RuntimeError);
        }
        var img := src.load.value;
        RegIconByPixel(key, img.pixelHash);
        timer.Put(RemoveImage(img.image));
      }
      return Ok(());
    }

    method RegIcon(key: Key, mtime: Option<int>, reload: bool, src: HqSource, timer: TimerQueue)
      returns (id: nat)
      modifies this, timer
      ensures var (t, tasks, res) := RegisterIcon(old(State()), key, mtime, reload, src);
        State() == t && timer.pending == old(timer.pending) + tasks && id == res
    {
      var marked := CanMarkImage(key, mtime);
      if !marked {
        return IconId(State(), key);
      }
      if hq {
        var r := RegIconHq(key, src, timer);
        if r.Raise? {
          timer.Put(RetryIconHq(key));
        }
        return IconId(State(), key);
      }
      if key !in previews {
        previews := previews[key := Preview(lastIcon + 1)];
        lastIcon := lastIcon + 1;
      }
      if reload {
        timer.Put(ReloadPreview(key));
      }
      return IconId(State(), key);
    }

    method RegNone(key: Key, mtime: Option<int>, src: HqSource, timer: TimerQueue)
      modifies this, timer
      ensures var (t, tasks) := RegisterNone(old(State()), key, mtime, src);
        State() == t && timer.pending == old(timer.pending) + tasks
    {
      if key in previews {
        return;
      }
      noneImage := key;
      var _ := RegIcon(noneImage, mtime, false, src, timer);
    }

    method Clear(mtime: Option<int>, src: HqSource, timer: TimerQueue)
      modifies this, timer
      ensures var (t, tasks) := Cleared(old(State()), mtime, src);
        State() == t && timer.pending == old(timer.pending) + tasks
    {
      previews := map[];
      imgStatus := map[];
      pixStatus := map[];
      path2bpy := map[];
      var _ := RegIcon(noneImage, mtime, false, src, timer);
    }
  }

  // ---------------------------------------------------------------------------
  // Properties of the operations

  /** `try_mark_image` is false for a missing file and for an unchanged mtime;
      `can_mark_image` records the mtime exactly when it is true, so two calls
      on an unchanged file give true then false. */
  lemma MarkImageTwice(s: IconState, key: Key, mtime: Option<int>)
    ensures mtime.None? ==> !TryMarkImage(s, key, mtime)
    ensures key in s.imgStatus && mtime == Some(s.imgStatus[key]) ==> !TryMarkImage(s, key, mtime)
    ensures var (t, first) := MarkImage(s, key, mtime);
      && first == TryMarkImage(s, key, mtime)
      && t.imgStatus == (if first then s.imgStatus[key := mtime.value] else s.imgStatus)
      && t == s.(imgStatus := t.imgStatus)
      && MarkImage(t, key, mtime) == (t, false)
  {
  }

  /** `can_mark_pixel` behaves the same with the pixel hash. */
  lemma MarkPixelTwice(s: IconState, key: Key, hash: int)
    ensures var (t, first) := MarkPixel(s, key, hash);
      && first == (key !in s.pixStatus || s.pixStatus[key] != hash)
      && t == s.(pixStatus := s.pixStatus[key := hash])
      && MarkPixel(t, key, hash) == (t, false)
  {
  }

  /** The placeholder fallback of `get_icon_id`. */
  lemma IconIdFallback(s: IconState, key: Key)
    ensures Contains(s, key) ==> IconId(s, key) == s.previews[key].iconId
    ensures !Contains(s, key) && s.noneImage in s.previews ==> IconId(s, key) == s.previews[s.noneImage].iconId
    ensures !Contains(s, key) && s.noneImage !in s.previews ==> IconId(s, key) == 0
  {
  }

  /** When `can_mark_image` is false, `reg_icon` returns the current id and
      changes nothing, queues nothing. */
  lemma RegisterIconUnmarked(s: IconState, key: Key, mtime: Option<int>, reload: bool, src: HqSource)
    requires !TryMarkImage(s, key, mtime)
    ensures RegisterIcon(s, key, mtime, reload, src) == (s, [], IconId(s, key))
  {
  }

  /** The low-quality path: a preview is loaded only for a key that has none,
      and a reload is deferred only when asked for. */
  lemma RegisterIconLowQuality(s: IconState, key: Key, m: int, reload: bool, src: HqSource)
    requires !s.hq && TryMarkImage(s, key, Some(m))
    ensures var (t, tasks, id) := RegisterIcon(s, key, Some(m), reload, src);
      && t.imgStatus == s.imgStatus[key := m]
      && t.pixStatus == s.pixStatus
      && (key in s.previews ==> t.previews == s.previews && id == s.previews[key].iconId)
      && (key !in s.previews ==> t.previews == s.previews[key := Preview(s.lastIcon + 1)] && id == s.lastIcon + 1)
      && tasks == (if reload then [ReloadPreview(key)] else [])
  {
  }

  /** The high-quality path: a load failure defers exactly one retry of
      `reg_icon_hq` and creates nothing; a successful load registers the pixels
      and defers the removal of the loaded image. */
  lemma RegisterIconHighQuality(s: IconState, key: Key, m: int, reload: bool, src: HqSource)
    requires s.hq && TryMarkImage(s, key, Some(m)) && key !in s.previews
    requires src.present && src.imageSuffix
    ensures var (t, tasks, id) := RegisterIcon(s, key, Some(m), reload, src);
      && t.imgStatus == s.imgStatus[key := m]
      && (src.load.None? ==> tasks == [RetryIconHq(key)] && t.previews == s.previews && t.pixStatus == s.pixStatus)
      && (src.load.Some? ==>
            tasks == [RemoveImage(src.load.value.image)]
            && t.pixStatus == s.pixStatus[key := src.load.value.pixelHash]
            && ((key in s.pixStatus && s.pixStatus[key] == src.load.value.pixelHash) ==>
                  t.previews == s.previews)
            && ((key !in s.pixStatus || s.pixStatus[key] != src.load.value.pixelHash) ==>
                  key in t.previews && id == t.previews[key].iconId == s.lastIcon + 1))
  {
  }

  /** `reg_icon` called `n` times in a row with the same observations. */
  function RegisterIconTimes(s: IconState, key: Key, mtime: Option<int>, reload: bool, src: HqSource, n: nat)
    : (IconState, seq<Task>, nat)
    requires n >= 1
    decreases n
  {
    var (t, tasks, id) := RegisterIcon(s, key, mtime, reload, src);
    if n == 1 then (t, tasks, id)
    else
      var (u, more, id2) := RegisterIconTimes(t, key, mtime, reload, src, n - 1);
      (u, tasks + more, id2)
  }

  /** With an unchanged source, repeated registration does the work of the
      first call only: same state, same deferred tasks, same icon id. */
  lemma {:induction false} RegisterIconIdempotent(s: IconState, key: Key, mtime: Option<int>, reload: bool, src: HqSource, n: nat)
    requires n >= 1
    ensures RegisterIconTimes(s, key, mtime, reload, src, n) == RegisterIcon(s, key, mtime, reload, src)
    decreases n
  {
    if n > 1 {
      var (t, tasks, id) := RegisterIcon(s, key, mtime, reload, src);
      assert !TryMarkImage(t, key, mtime);
      RegisterIconUnmarked(t, key, mtime, reload, src);
      RegisterIconIdempotent(t, key, mtime, reload, src, n - 1);
      assert IconId(t, key) == id;
      assert tasks + [] == tasks;
    }
  }

  /** `reg_none(path)`: a key without a preview becomes the placeholder, and in
      the low-quality path with a changed file every key without a preview of
      its own then gets the new preview's id. A key that already has a
      preview returns early, before `NONE_IMAGE` is assigned, so such a key
      never becomes the placeholder and the old one stays in place. */
  lemma RegisterNonePlaceholder(s: IconState, key: Key, mtime: Option<int>, src: HqSource)
    ensures var (t, tasks) := RegisterNone(s, key, mtime, src);
      && (key in s.previews ==> t == s && tasks == [] && t.noneImage == s.noneImage)
      && (key !in s.previews ==> t.noneImage == key && t.hq == s.hq && t.previews.Keys <= s.previews.Keys + {key})
      && (key !in s.previews && !s.hq && TryMarkImage(s, key, mtime) ==>
            && tasks == []
            && Contains(t, key)
            && forall k :: k !in s.previews ==> IconId(t, k) == s.lastIcon + 1)
  {
    if key !in s.previews {
      var u := s.(noneImage := key);
      assert MarkImage(u, key, mtime).0.previews == s.previews;
      if !s.hq && TryMarkImage(s, key, mtime) {
        RegisterIconLowQuality(u, key, mtime.value, false, src);
      }
    }
  }

  /** `clear()` empties every map, then registers the placeholder again; in the
      low-quality path with the placeholder file present every lookup then
      gets the placeholder's (non-zero) id. */
  lemma ClearReseeds(s: IconState, mtime: Option<int>, src: HqSource)
    ensures var (t, tasks) := Cleared(s, mtime, src);
      && t.noneImage == s.noneImage && t.hq == s.hq
      && t.path2bpy == map[]
      && t.previews.Keys <= {s.noneImage}
      && t.imgStatus.Keys <= {s.noneImage}
      && t.pixStatus.Keys <= {s.noneImage}
      && (!s.hq && mtime.Some? && mtime.value != -1 ==>
            forall k :: IconId(t, k) == s.lastIcon + 1 && IconId(t, k) != 0)
  {
  }

  /** FINDING, as written: an icon registered by the low-quality path has no
      pixel hash, so `remove_mark` raises `KeyError` at the second `pop`,
      after dropping the mtime, and the preview stays in `PREV_DICT`. */
  lemma RemoveMarkAfterLowQualityRaises(s: IconState, key: Key, m: int, src: HqSource)
    requires !s.hq && key !in s.imgStatus && key !in s.pixStatus && m != -1
    ensures var (t, _, _) := RegisterIcon(s, key, Some(m), false, src);
      var (u, r) := RemoveMarkAsWritten(t, key);
      && Contains(t, key)
      && r == Raise(KeyError)
      && Contains(u, key) && key !in u.imgStatus
  {
  }

  /** The corrected removal evicts the key everywhere and never raises; a
      later lookup falls back to the placeholder. */
  lemma RemoveMarkIntendedEvicts(s: IconState, key: Key)
    ensures var t := RemoveMarkIntended(s, key);
      && !Contains(t, key) && key !in t.imgStatus && key !in t.pixStatus
      && (forall k :: k != key ==> (k in t.previews <==> k in s.previews))
      && (key != s.noneImage ==> IconId(t, key) == (if s.noneImage in s.previews then s.previews[s.noneImage].iconId else 0))
      && TryMarkImage(t, key, Some(0))
  {
  }
}
