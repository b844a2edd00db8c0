/** The process-wide deferred queue (`Timer`): background code hands it a
    closure with its captured arguments, and the host's main thread runs the
    queued work later, in submission order. Only `put` is modelled: the queue
    is a ghost sequence of command values, one per closure the code submits. */
module Deferred {
  import opened Json

  /** One closure submitted with `Timer.put`, as a command tag plus the data it captured. */
  datatype Task =
    | ReloadPreview(key: string)                   // `Icon.PREV_DICT[path].reload`
    | RetryIconHq(key: string)                     // `(Icon.reg_icon_hq, path)`
    | RemoveImage(image: nat)                      // `(bpy.data.images.remove, img)`
    | FillTranslation(locale: string, word: string) // `(f, word)` in `_T`
    | CrystoolsUpdate(data: Json)                   // `(f, data)` in `CrystoolsMonitor.process_msg`
    | CupUpdate(data: Json, mtype: string)          // `(f, data, mtype)` in `CupMonitor.process_msg`

  class TimerQueue {
    ghost var pending: seq<Task>

    constructor ()
      ensures pending == []
    {
      pending := [];
    }

    /** `Timer.put(task)`: appends, never blocks. */
    method Put(t: Task)
      modifies this
      ensures pending == old(pending) + [t]
    {
      pending := pending + [t];
    }
  }
}
