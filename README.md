# ComfyUI-BlenderAI-node: watcher, icon cache, PNG text reader and monitors, in Dafny

This project models the non-graphical core of the Blender add-on that drives a
ComfyUI render server. It proves properties of that model.

- **File watcher** (`FSWatcher`, `fs_watcher.dfy`). Paths are registered with
  an optional callback. A scan pass compares each path's modification time
  with the one it stored before. A changed path is marked dirty and pushed on
  the change queue. A dispatch step pops the queue and picks the callback to
  run. `consume_change` reads the dirty flag and clears it. Each thread's
  loop body is one method of the class `Watcher`. Each method is specified
  by a pure step function on the value `WatchState`, and the lemmas are
  about those functions. A whole scan pass is one step of the model. Over
  any sequence of such steps, `Coalescing` and `BetweenConsumes` show that a
  path is enqueued at most once between two successful `consume_change`
  calls on it.
- **Path keys** (`to_str`, `get_nas_mapping`, `path_norm.dfy`). The output of
  Windows' `net use` becomes an ordered drive → remote path table. A resolved
  path that starts with a mapped remote path is rewritten to the drive, using
  Python's `str.replace` semantics.
- **Icon cache** (`Icon`, `icon_cache.dfy`). Previews are kept per key. Each
  key has a staleness mark: the file's mtime or its pixel hash. There is a
  placeholder entry, a high-quality path with retry on failure, and
  `clear`/`remove_mark`. Blender's preview creation hands out fresh icon ids.
  Work deferred to the main thread is appended to a `TimerQueue`
  (`deferred.dfy`).
- **PNG text chunks** (`PngParse.read_text_chunk`, `png_text.dfy` and
  `utf8.dfy`). The reader is a cursor loop over the file's bytes, with
  Python's short reads at end of file, strict UTF-8 decoding and `split('\0', 1)`.
  It is proved equal to a chunk-by-chunk specification. A round trip covers
  files written as a signature and well-formed chunks.
- **UI translation cache** (`_T`, `translate.dfy`). A miss answers from the
  bundled table and defers the real lookup to the main thread.
- **Server monitors** (`CrystoolsMonitor`/`CupMonitor.process_msg` and their
  deferred closures, `monitors.dfy`, `json.dfy`). Messages are routed by type.
  The deferred update writes the screen's property group, with Blender's 0–100
  clamping of float properties. An exception leaves the assignments made
  before it in place.
- **Preview frame decode** (`load_texture`, `node_process.dfy`). The two
  big-endian header words are decoded and the image bytes picked out. The
  `lru_cache` in front of it is modelled with 128 entries, least recently used
  first, and raised exceptions are not cached. The model proves that the cache
  never changes an answer and that a repeated call returns the same texture.

Python's exceptions are values (`Wrappers.Result`: `Ok` or `Raise(error)`).
Bytes are the integer subset type `Wrappers.byte`.

## Model

| member | source | states |
|---|---|---|
| FsWatcher.Initial | utils.py:484-488 | the class attributes start as empty registries, an empty queue and not running, which satisfies the registry invariant |
| FsWatcher.Watcher.constructor | utils.py:484-488 | the fields start as the initial registry state |
| FsWatcher.Watcher.Register | utils.py:494-500 | registration keeps the registry invariant and performs `AfterRegister`: a known path is left alone, a new one is added clean with its callback |
| FsWatcher.Watcher.Unregister | utils.py:502-506 | an unknown path raises KeyError and changes nothing; otherwise the path and its callback are dropped |
| FsWatcher.Watcher.Scan | utils.py:528-546 | one pass of the scan loop over a snapshot of the registry performs `AfterScan` and keeps the invariant |
| FsWatcher.Watcher.ScanPath | utils.py:530-545 | the body of the scan loop for one path performs `ScanOne`: a clean path whose file exists with a new mtime is stamped, marked dirty and pushed; any other path is left alone |
| FsWatcher.Watcher.Dispatch | utils.py:516-526 | one iteration of the dispatch loop performs `AfterDispatch` and returns the callback to call with its path |
| FsWatcher.Watcher.ConsumeChange | utils.py:553-559 | `consume_change` performs `AfterConsume` |
| FsWatcher.Watcher.Run | utils.py:509-514 | `_run` performs `AfterRun`: it sets the running flag and reports that the threads start only when the flag was clear |
| FsWatcher.AfterRun | utils.py:509-514 | `_run`; stated by RunOnce |
| FsWatcher.RunOnce | utils.py:509-514 | `_run` starts the threads only when not running; a second call returns early, and after `stop` the next call starts them again; the registry and queue are untouched |
| FsWatcher.Watcher.Stop | utils.py:548-551 | `stop` pushes the None sentinel and clears the running flag |
| FsWatcher.RegisterIdempotent | utils.py:494-500 | registering twice equals registering once; the first callback stays and the flag is unchanged |
| FsWatcher.UnregisterKeepsStat | utils.py:502-506 | unregister raises exactly for an unregistered path; otherwise it forgets the path and its callback, keeps the stored mtime and the queue, and leaves every other path as it was |
| FsWatcher.ScanPrefixFrame | utils.py:530-545 | a scan changes neither the registration order, the callbacks, the running flag nor which paths have a flag |
| FsWatcher.ScanPrefixPath | utils.py:530-545 | over a duplicate-free snapshot, one path is marked dirty and re-stamped with the current mtime exactly when it is in the snapshot and passes the test; otherwise its flag and stored mtime stay |
| FsWatcher.ScanPrefixQueue | utils.py:530-545 | over a duplicate-free snapshot, the scan appends to the queue exactly the paths that pass the test, in snapshot order |
| FsWatcher.ScanPrefixSnoc | utils.py:530-545 | scanning one more path of the snapshot is one more loop iteration on the state so far |
| FsWatcher.ScanKeepsWellFormed | utils.py:528-546 | a scan pass keeps the registry invariant |
| FsWatcher.ScanPrefixExact | utils.py:530-545 | over any duplicate-free snapshot, the scan marks dirty, re-stamps and enqueues (in order) exactly the paths that are clean, exist and have a new mtime; nothing else changes |
| FsWatcher.ScanPassExact | utils.py:528-546 | the same for a whole pass over the registry, which also keeps the registry invariant |
| FsWatcher.ChangedPathsCount | utils.py:530-545 | a scan enqueues each path once if it passes the test and never otherwise |
| FsWatcher.FreshPathReported | utils.py:494-546 | a newly registered path whose file exists is dirty, stamped and enqueued after the first scan |
| FsWatcher.ReregisteredUnchangedNotReported | utils.py:494-546 | a path unregistered and registered again keeps its old mtime, so an unchanged file is not reported again |
| FsWatcher.DispatchExact | utils.py:516-526 | a dispatch step pops one item and calls a callback exactly when the item is a registered path whose callback is set; the stop sentinel calls nothing; the dirty flags are never cleared |
| FsWatcher.ConsumeExact | utils.py:553-559 | `consume_change` returns true exactly when the path is registered and dirty, then clears the flag; otherwise nothing changes |
| FsWatcher.ApplyPushes | utils.py:494-559 | every operation keeps the registry invariant and only appends its own pushes to the queue (dispatch only pops) |
| FsWatcher.ScanFlag | utils.py:530-545 | after a scan a path is dirty exactly when it was dirty before or passed the test |
| FsWatcher.ScanPushCount | utils.py:530-545 | a scan pushes a path once if it passed the test and never otherwise |
| FsWatcher.StepBound | utils.py:494-559 | an operation other than unregistering the path or a `consume_change` of it that succeeds keeps it dirty, pushes it at most once and never while it is dirty |
| FsWatcher.Coalescing | utils.py:494-559 | over any sequence of operations that never unregisters a path and in which every `consume_change` of it finds it clean, that path is pushed at most once, and not at all if it starts dirty |
| FsWatcher.BetweenConsumes | utils.py:494-559 | after a `consume_change` that returned true, the path is pushed at most once before the next one that returns true, as long as it is not unregistered |
| FsWatcher.AfterScan | utils.py:533-545 | one pass of `_loop`: the `for` over a snapshot of the registry in insertion order; its effect is stated by ScanPassExact |
| FsWatcher.AfterDispatch | utils.py:517-526 | one iteration of `_run_ex`: pop one item and pick the callback of a registered path; its effect is stated by DispatchExact |
| FsWatcher.AfterConsume | utils.py:554-559 | `consume_change`: read and clear the dirty flag; its effect is stated by ConsumeExact |
| PathNorm.IsSpace | utils.py:572-574 | the characters Python's `str.isspace` accepts, which `strip()` and `split()` treat as white space |
| PathNorm.Strip | utils.py:572 | `str.strip()`: the result is a slice `s[i..j]` where everything before `i` and from `j` on is white space, and the result neither starts nor ends with white space |
| PathNorm.NasMapping | utils.py:563-582 | `get_nas_mapping`: empty off Windows or without output, else the table built from the lines after the first four; its properties are MappingLaterLineWins and MappingDrives |
| PathNorm.ReplaceAll | utils.py:597 | `str.replace`: every non-overlapping occurrence, left to right; stated by ReplaceAllAbsent and ReplacePrefixOnly |
| PathNorm.RewriteShares | utils.py:594-598 | the `for` over the share table; stated by RewriteSharesFirstMatch |
| PathNorm.ToStr | utils.py:586-598 | `to_str` on the outcome of `resolve()`; stated by ToStrCases and RewriteSharesToDrive |
| PathNorm.SplitOn | utils.py:572 | `split('\n')` gives at least one piece, and no piece contains the separator |
| PathNorm.SplitJoin | utils.py:572 | joining the pieces of `split` with the separator gives back the text |
| PathNorm.Words | utils.py:574 | `split()` with no argument gives non-empty runs of non-space characters |
| PathNorm.WordsCoverText | utils.py:574 | the words of `split()`, put together, are the text with every white-space character removed |
| PathNorm.WordsOfSpaced | utils.py:574 | words joined by a white-space run split back into the same words |
| PathNorm.Assign | utils.py:579 | assigning to a key of the ordered table keeps the drives distinct, adds the key and changes only that key's lookup |
| PathNorm.MappingFrom | utils.py:572-579 | the table built from the lines has distinct drives |
| PathNorm.GetNasMapping | utils.py:561-582 | the parse loop computes `NasMapping`: empty off Windows or without output, else the table of the lines after the fourth, and its drives are distinct |
| PathNorm.MappingStep | utils.py:573-579 | one more line adds its entry to the table when it has at least three columns and otherwise leaves the table alone |
| PathNorm.MappingLaterLineWins | utils.py:572-579 | looking up a drive gives the remote path of the last line with at least three columns that names it; a drive no such line names is absent |
| PathNorm.MappingDrives | utils.py:572-579 | the table's drives are exactly the second columns, each followed by "/", of the lines with at least three columns |
| PathNorm.FirstMatch | utils.py:592-595 | the index found is the first entry whose remote path starts the string; none found means no entry does |
| PathNorm.ReplaceAllAbsent | utils.py:597 | `str.replace` with a non-empty pattern that does not occur returns the text unchanged |
| PathNorm.ReplacePrefixOnly | utils.py:597 | a pattern that occurs only at the start is replaced by the replacement followed by the rest |
| PathNorm.RewriteSharesFirstMatch | utils.py:592-598 | the first share whose remote path starts the string decides the rewrite; no match leaves the string unchanged |
| PathNorm.ToStrCases | utils.py:584-598 | `to_str` rewrites the resolved path, or the plain form when `resolve()` raised, with the first matching share, and returns it unchanged when none matches |
| PathNorm.RewriteSharesToDrive | utils.py:592-598 | when the matching remote path occurs only at the start, the result is the drive followed by the rest of the path |
| IconCache.IconRegistry.constructor | utils.py:154-161 | the class attributes start empty, with no placeholder and the low-quality path |
| IconCache.IconRegistry.SetHqPreview | utils.py:200-203 | only the high-quality switch changes |
| IconCache.IconRegistry.CanMarkImage | utils.py:205-222 | `can_mark_image` performs `MarkImage` |
| IconCache.IconRegistry.CanMarkPixel | utils.py:224-230 | `can_mark_pixel` performs `MarkPixel` |
| IconCache.IconRegistry.RemoveMark | utils.py:232-238 | `remove_mark` corrected: the key leaves all three maps and the call returns true (see Findings) |
| IconCache.IconRegistry.RegIconByPixel | utils.py:314-324 | `reg_icon_by_pixel` performs `RegisterByPixel` |
| IconCache.IconRegistry.RegIconHq | utils.py:266-277 | `reg_icon_hq` performs `RegisterIconHq`, including the deferred removal of the loaded image and a raise when loading fails |
| IconCache.IconRegistry.RegIcon | utils.py:248-264 | `reg_icon` performs `RegisterIcon`: its new state, the tasks it defers and the icon id it returns |
| IconCache.IconRegistry.RegNone | utils.py:240-246 | `reg_none` performs `RegisterNone`, whose effect RegisterNonePlaceholder states |
| IconCache.IconRegistry.Clear | utils.py:192-198 | `clear` performs `Cleared` |
| IconCache.RegisterIconHq | utils.py:266-277 | `reg_icon_hq`: a failed load raises RuntimeError and changes and defers nothing; the mtimes and the placeholder are never touched |
| IconCache.RegisterIcon | utils.py:248-264 | `reg_icon`: the new state, the deferred tasks and the id returned; stated by RegisterIconUnmarked, RegisterIconLowQuality, RegisterIconHighQuality and RegisterIconIdempotent |
| IconCache.RegisterNone | utils.py:240-246 | `reg_none`; stated by RegisterNonePlaceholder |
| IconCache.Cleared | utils.py:192-198 | `clear`; stated by ClearReseeds |
| IconCache.RemoveMarkAsWritten | utils.py:232-238 | `remove_mark` as written: it returns true exactly when the key is in all three maps, and then evicts it as the corrected removal does; otherwise it raises KeyError |
| IconCache.RegisterNonePlaceholder | utils.py:240-246 | a key without a preview becomes the placeholder, and in the low-quality path with a changed file every key without its own preview then gets the new id; a key that already has a preview returns early, so it never becomes the placeholder and the old placeholder stays |
| IconCache.MarkImageTwice | utils.py:205-222 | a missing file or an unchanged mtime is not marked; marking records the mtime exactly when it holds, so a second call on an unchanged file is false |
| IconCache.MarkPixelTwice | utils.py:224-230 | a pixel hash is marked exactly when it is new; it is then recorded, and a second call is false |
| IconCache.IconIdFallback | utils.py:326-331 | `get_icon_id` gives the key's own preview, else the placeholder's, else 0 |
| IconCache.RegisterIconUnmarked | utils.py:248-252 | when the file is unmarked, `reg_icon` returns the current id and changes and defers nothing |
| IconCache.RegisterIconLowQuality | utils.py:258-264 | the low-quality path records the mtime, creates a preview only for a key that has none, and defers a reload only when asked |
| IconCache.RegisterIconHighQuality | utils.py:253-277 | the high-quality path defers exactly one retry when loading fails and creates nothing; on success it records the pixel hash, creates a preview when the hash is new, and defers the image's removal |
| IconCache.RegisterIconIdempotent | utils.py:248-264 | `n` calls in a row with an unchanged source equal one call: the same state, the same deferred tasks and the same id |
| IconCache.ClearReseeds | utils.py:192-198 | `clear` empties every map except the placeholder's own entries; with the placeholder file present on the low-quality path, every lookup then gets the placeholder's non-zero id |
| IconCache.RemoveMarkAfterLowQualityRaises | utils.py:232-238 | as written, removing a key registered by the low-quality path raises KeyError after dropping its mtime, and the preview stays |
| IconCache.RemoveMarkIntendedEvicts | utils.py:232-238 | the corrected removal evicts the key from all three maps without raising; lookups fall back to the placeholder, and the next registration marks the file again |
| Utf8.Decode | utils.py:397 | `bytes.decode()`: strict UTF-8, `None` for malformed input; stated by DecodeAppend and DecodeNul |
| Utf8.SeqLength | utils.py:397 | the length of the first well-formed UTF-8 sequence is at most 4 and fits the input; an ASCII byte is a sequence of length 1 |
| Utf8.DecodeAscii | utils.py:397 | a byte below 0x80 decodes to the character with that code |
| Utf8.SeqLengthPrefix | utils.py:397 | the first sequence is recognised the same way when more bytes follow |
| Utf8.CodePointPrefix | utils.py:397 | the first code point is decoded the same way when more bytes follow |
| Utf8.DecodeAppendSome | utils.py:397 | two well-formed byte strings decode, concatenated, to the concatenation of their texts |
| Utf8.DecodeAppendNone | utils.py:397 | a well-formed prefix followed by malformed bytes is malformed |
| Utf8.DecodeAppend | utils.py:397 | decoding a well-formed prefix followed by more bytes gives its text followed by the rest's text, and fails exactly when the rest fails |
| Utf8.DecodeNul | utils.py:397 | the decoded text contains '\0' exactly when the bytes contain a zero byte |
| Wrappers.BigEndian | utils.py:390 | the value read from `n` big-endian bytes is below 256^n |
| PngText.Read | utils.py:382-393 | `file.read(n)` returns the next `n` bytes, or fewer at the end of the file |
| PngText.ReadChunk | utils.py:389-393 | one pass of the loop body raises struct.error exactly when fewer than four length bytes remain; otherwise the cursor moves 12 bytes plus the stated length, capped at the end of the file |
| PngText.TextEntry | utils.py:396-397 | a tEXt payload raises UnicodeDecodeError when it is not strict UTF-8 and ValueError when it has no NUL; otherwise the keyword has no NUL and keyword, NUL and text make up the decoded payload |
| PngText.FirstNul | utils.py:397 | the split point is the first NUL |
| PngText.ReadTextChunk | utils.py:378-401 | `read_text_chunk` on the file's bytes: no entries without the signature; a normal answer only after an IEND type field was read; no exceptions but struct.error, UnicodeDecodeError and ValueError |
| PngText.ReadTextChunks | utils.py:378-401 | the cursor loop of `read_text_chunk` computes `ReadTextChunk` on the file's bytes |
| PngText.ReadChunkAt | utils.py:389-393 | the four reads of one loop pass, made with a cursor, give `ReadChunk` |
| PngText.ReadChunkOfBytes | utils.py:389-393 | a well-formed serialized chunk is read in exactly one pass, giving its type and data and leaving the cursor just after it |
| PngText.ChunksFromStep | utils.py:387-400 | one turn of the loop, for a chunk already read |
| PngText.ChunksFromSerialized | utils.py:387-400 | reading serialized well-formed chunks gives the chunk-level result `Collect`; bytes after them matter only when no IEND chunk is among them |
| PngText.RestOfChunks | utils.py:387-400 | after a first chunk that is not IEND, the rest of a chunk list is still well formed and still holds its IEND chunk |
| PngText.SignedFile | utils.py:382-385 | a file that starts with the signature is read chunk by chunk from byte 8 |
| PngText.NotPng | utils.py:382-385 | a file without the PNG signature reads as no entries |
| PngText.ReadTextChunkRoundTrip | utils.py:378-401 | a file written as the signature, chunks ending in IEND, and anything after them reads back as the chunks' tEXt entries, the later keyword winning |
| PngText.CollectWithoutEnd | utils.py:387-400 | a list of whole chunks with no IEND reads as a raise: struct.error, or the decode error of a tEXt chunk |
| PngText.ChunksFromNeedsEnd | utils.py:387-400 | for any bytes, the loop returns normally only after an IEND type field at or after the cursor; a file cut between chunks or inside one raises struct.error, UnicodeDecodeError or ValueError |
| PngText.FirstNulAfter | utils.py:397 | the first NUL of keyword + NUL + text is the one right after a NUL-free keyword |
| PngText.DecodeEntry | utils.py:397 | decoding keyword bytes, a zero byte and text bytes gives the keyword, NUL and the text |
| PngText.TextEntryOfKeyword | utils.py:396-397 | a tEXt payload of a NUL-free keyword, a zero byte and a text gives exactly that pair, even when the text holds zero bytes |
| Translate.Fallback | utils.py:57 | the bundled table's text when it has the locale and the word; the word itself when the locale is missing or lacks the word |
| Translate.Translate | utils.py:44-57 | one `_T` call; stated by NonStringPassesThrough, HitReturnsCached, MissDefersOneFill and FillThenHit |
| Translate.SetDefault | utils.py:50 | `setdefault` adds the locale with an empty dict only when it is missing and keeps every existing locale |
| Translate.NonStringPassesThrough | utils.py:44-46 | a value that is not a string is returned unchanged, with no effect |
| Translate.HitReturnsCached | utils.py:50-52 | a cached non-empty text is returned; nothing is deferred and the cache is unchanged |
| Translate.MissDefersOneFill | utils.py:50-57 | a miss (a missing or empty text) defers exactly one fill for this locale and word, answers from the bundled table or with the word, and only adds the locale |
| Translate.FillThenHit | utils.py:50-57 | after the deferred fill with a non-empty text, the same word in the same locale hits and returns that text |
| Translate.FillKeepsOtherLocales | utils.py:54-55 | a fill for one locale leaves every other locale's answers unchanged |
| Translate.Translator.constructor | utils.py:13 | the translation dict starts empty |
| Translate.Translator.T | utils.py:44-57 | `_T` performs `Translate`: the new cache, the tasks it defers and the value it returns |
| Translate.Translator.RunFill | utils.py:54-55 | the deferred `f` stores `pgettext`'s text under the locale and word |
| Json.GetOn | SDNode/custom_support.py:54-57 | `.get` with a default on a dict; any other value raises AttributeError |
| Json.Len | SDNode/custom_support.py:58 | `len()` gives the length of a string, list or dict; any other value raises TypeError |
| Json.ToPercent | SDNode/custom_support.py:8-15 | a 0–100 float property stores a number in range as is, a negative one as 0 and one above 100 as 100, True as 1 and False as 0, and raises TypeError for anything else |
| Deferred.TimerQueue.Put | utils.py:56 | `Timer.put` appends the closure to the pending work and changes nothing else |
| Monitors.CrystoolsRoute | SDNode/custom_support.py:23-48 | a message is taken exactly when its type is "crystools.monitor"; its data defaults to an empty dict |
| Monitors.CrystoolsMonitor.constructor | SDNode/custom_support.py:20-21 | the monitor starts disabled |
| Monitors.CrystoolsMonitor.ProcessMsg | SDNode/custom_support.py:23-67 | a message of another type is refused and changes nothing; an accepted one enables the monitor and defers exactly one update carrying its data |
| Monitors.Percent | SDNode/custom_support.py:54-56 | a reading is clamped to 0–100, is 0 when the key is missing, and raises AttributeError on a value that is not a dict |
| Monitors.Items | SDNode/custom_support.py:61 | iterating over `gpus` yields `len(gpus)` items: a list's own items, otherwise strings |
| Monitors.Reading | SDNode/custom_support.py:62-63 | one GPU's reading needs a dict; a dict with neither key reads as zero usage |
| Monitors.Grow | SDNode/custom_support.py:58-60 | the GPU list grows to the reported count with new zero items and keeps the existing ones; it never shrinks |
| Monitors.OverwriteFromReadings | SDNode/custom_support.py:61-63 | the enumerate loop changes no length, completes exactly when every item reads, writes item `k`'s reading to entry `k`, and touches nothing outside the items |
| Monitors.Sync | SDNode/custom_support.py:50-63 | the deferred `f` of the Crystools monitor; stated by SyncNeverShrinks, SyncCompleted and SyncIdempotent |
| Monitors.SyncNeverShrinks | SDNode/custom_support.py:57-63 | the GPU list never shrinks, even when the update raises |
| Monitors.SyncCompleted | SDNode/custom_support.py:50-63 | a completed update enables the group, stores the three clamped scalar readings, grows the list to the GPU count, writes GPU `k`'s reading to entry `k`, and keeps the entries after the reported GPUs |
| Monitors.SyncIdempotent | SDNode/custom_support.py:50-63 | running a completed update again changes nothing and completes |
| Monitors.CrystoolsProp.constructor | SDNode/custom_support.py:12-16 | the property group starts at its declared defaults with no GPUs |
| Monitors.CrystoolsProp.Update | SDNode/custom_support.py:50-64 | the deferred `f` performs `Sync` on the group's fields |
| Monitors.CrystoolsProp.GrowGpus | SDNode/custom_support.py:58-60 | the `add()` loop performs `Grow` and changes no other field |
| Monitors.CrystoolsProp.OverwriteGpus | SDNode/custom_support.py:61-63 | the enumerate loop performs `OverwriteFrom` and changes no other field |
| Monitors.CupRoute | SDNode/custom_support.py:144-148 | a message is taken exactly when its type is a string starting with "cup."; a type that is neither None nor a string raises AttributeError |
| Monitors.CupMonitor.constructor | SDNode/custom_support.py:140-141 | the monitor starts disabled |
| Monitors.CupMonitor.ProcessMsg | SDNode/custom_support.py:143-169 | raises exactly when routing raises; an accepted message enables the monitor and defers one task carrying its data and type; a refused one changes nothing |
| Monitors.QueueLength | SDNode/custom_support.py:164-165 | a queue count is 0 for a missing key and the list length for a list; a value that is not a dict raises AttributeError |
| Monitors.CupQueueCounts | SDNode/custom_support.py:161-165 | a `cup.queue` update whose keys are lists (or missing) sets both counts to the list lengths |
| Monitors.CupTask | SDNode/custom_support.py:152-165 | the deferred `f` of the Cup monitor; stated by CupQueueCounts and CupTaskOthersInert |
| Monitors.CupTaskOthersInert | SDNode/custom_support.py:152-165 | only `cup.queue` changes the properties; `cup.diff` with empty data, and every other `cup.*` type, do nothing |
| Monitors.CupProp.constructor | SDNode/custom_support.py:134-136 | both counts start at 0 |
| Monitors.CupProp.Run | SDNode/custom_support.py:152-165 | the deferred `f` performs `CupTask`, returning the diff data to be written rather than writing it |
| NodeProcess.DecodeHeader | SDNode/node_process.py:22-34 | the header decode raises only struct.error; a decoded header carries `data[8:]` |
| NodeProcess.BigEndianWord | SDNode/node_process.py:26-31 | `>I` of three zero bytes followed by `n` is `n` |
| NodeProcess.DecodeEncodeFrame | SDNode/node_process.py:26-34 | decoding a preview frame written as event 1, image type and image bytes gives back its image type and bytes |
| NodeProcess.DecodeHeaderCases | SDNode/node_process.py:23-32 | every outcome of the decode: empty input or an event other than 1 gives no texture, input too short for a word raises, and only image type 2 selects PNG |
| NodeProcess.LoadTexture | SDNode/node_process.py:22-39 | a load raises exactly what the decode raises, or RuntimeError when Blender rejects the image; otherwise its result carries the decoded header |
| NodeProcess.Find | SDNode/node_process.py:21 | the cache finds an entry exactly when one has the key |
| NodeProcess.Call | SDNode/node_process.py:21-39 | a call through `lru_cache`: a raise is not cached and leaves the cache as it was, the cache never grows past 128 entries, and a normal answer is stored under its key |
| NodeProcess.HitCoherent | SDNode/node_process.py:21 | moving a hit to the most recently used end keeps the cache coherent |
| NodeProcess.MissCoherent | SDNode/node_process.py:21 | storing a miss's result after at most one eviction keeps the cache coherent |
| NodeProcess.CallCoherent | SDNode/node_process.py:21-39 | calls keep the cache coherent: at most 128 distinct keys, each stored with what decoding it gives; the answer is always what decoding gives; a call that raises leaves the cache unchanged |
| NodeProcess.RepeatedCallHits | SDNode/node_process.py:21-39 | a second call on the same bytes after a successful one returns the same texture and loads nothing, whatever the loader would now do |
| NodeProcess.MissEvictsOldest | SDNode/node_process.py:21 | a miss on a full cache evicts exactly the least recently used entry |

## Left out

- The threads, `time.sleep` and the queue's 0.1 s timeout are left out. `_run` sets the running flag and reports whether it would start the threads, but the `while FSWatcher._running` tests of the two loops are not modelled: each loop body is one method call, and `FsWatcher.Coalescing` covers any interleaving of these calls.
- A scan pass is atomic in the model. In the source it iterates a snapshot of `_watcher_path`, so another thread can run between two paths. If `unregister(p)` runs after the snapshot and before `p`'s turn, lines 543-545 of utils.py put `p` back into `_watcher_path` with no callback, and `_run_ex` then raises KeyError at line 523. The model does not capture that interleaving.
- Callbacks run by the dispatch loop are not executed. Dispatch returns the callback and its path. An exception from a callback is not caught in the source, so it would end the dispatch thread; that is not modelled.
- `Path.exists`, `stat().st_mtime_ns` and `Path.resolve` are inputs: a `FileSystem` map for the watcher, and an observed mtime or resolved string for the icon cache and `to_str`.
- `FsWatcher.Watcher.Scan`: the `FileSystem` map is one view of the disk for the whole pass. In the source, a file can disappear between `path.exists()` and `path.stat()` (utils.py:538-540). The FileNotFoundError is then uncaught and ends the scan thread; the model cannot express that case.
- `PathNorm.ToStr`: `to_str` catches only FileNotFoundError from `resolve()` (utils.py:588-592), which `resolved == None` stands for. Any other exception from `resolve()`, such as OSError or RuntimeError on a symlink loop, propagates to the caller; the model does not capture that case.
- The watcher keys are the paths `to_path` returns, taken as opaque, already normalised strings. The normalisation `Path(path)` performs is not modelled: it collapses `//`, drops `.` parts and a trailing `/`, and on Windows compares case-insensitively.
- The `net use` subprocess is an input to `PathNorm.GetNasMapping`: whether the platform is Windows, and its stdout. A non-zero exit raises `CalledProcessError` because of `check=True`; that raise is not modelled. `Path(columns[2]).resolve()` is assumed total: it is the function parameter `resolve`. In the source it can raise (OSError, or RuntimeError on a symlink loop); the `try/except Exception` then returns the table built so far, and the model does not capture that.
- The `lru_cache` of `to_str`, `to_path` and `get_nas_mapping` is left out. These are pure functions here, so a cache cannot change their answer.
- These parts of `Icon` are left out because they only drive Blender's image and preview API: `update_path2bpy`, `apply_alpha` (floating-point pixel arithmetic), `find_image`, `load_icon`, `update_icon_pixel`, `__init__`/`__new__` (singleton set-up) and the preview sizes. The pixel hash is an input.
- `NONE_IMAGE` starts as "", and `clear()` registers `to_str("")`, which resolves to the working directory. The model keeps the raw key "" for the initial placeholder, so `Cleared` registers "" itself.
- `IconCache.IconRegistry.RegIconHq`: any exception in the high-quality path is reduced to `bpy.data.images.load` raising. Other `BaseException`s caught in `reg_icon` are not modelled.
- The `Timer` module is not part of this model. `Timer.put` appends a command value to a ghost list (`Deferred.TimerQueue`). Running the queued closures is modelled separately: `Translator.RunFill`, `CrystoolsProp.Update` and `CupProp.Run`.
- `Monitors.CrystoolsProp.Update`: `CrystoolsMonitorProp` declares no `enabled` property. Whether `p.enabled = True` is accepted is the parameter `enabledSettable`; when it is false, the update raises `AttributeError` before anything else changes.
- `Monitors.OverwriteFromReadings`, `Monitors.SyncCompleted`, `Monitors.SyncIdempotent`: readings are stored as reals. Blender's `FloatProperty` stores 32-bit floats, so a stored reading can differ from the one received (4.7 reads back as 4.6999998…); these contracts state exact equality with the reading.
- `bpy.context.screen` is taken to be present in the deferred update. When it is None, reading `sdn_custom` from it raises AttributeError before anything is assigned; that case is not modelled.
- `update_screen()`, every `draw` method and the rest of `custom_support.py` are UI code and are left out.
- The `cup.diff` write to `NodeParser.DIFF_PATH` is returned as a value and not performed. Its exceptions are swallowed in the source.
- `Monitors.Items`: iterating over a dict yields its keys, and these are modelled as empty strings. Only their being strings matters, because `.get` on a string raises.
- `NodeProcess.LoadTexture`: the temporary file, `bpy.data.images.load`, `gpu.texture.from_image` and the image removal are foreign. A loaded texture is a fresh id carrying its header, and `loads` says whether Blender accepts the bytes.
- `_T` reads the UI language from the preferences, and `pgettext` supplies the text. Both are inputs. `Translator.RunFill` requires the locale to be present, because `_T` always runs `setdefault` before queueing the fill.
- `PngParse.read_head`, the `print` of a non-PNG file and `open` are left out. The file is given as its bytes. CRCs are read but never checked, as in the source.

## Findings

| source | as written | input that shows it | evidently intended | confidence | as-written member | corrected member |
|---|---|---|---|---|---|---|
| utils.py:232-238 | `remove_mark` pops the key from `IMG_STATUS`, `PIX_STATUS` and `PREV_DICT` without a default | a key registered by the low-quality path of `reg_icon`: it has an mtime and a preview but no pixel hash, so the second `pop` raises KeyError after the mtime is gone, and the preview stays | evict the key from all three maps whatever it has | high, not executed | IconCache.RemoveMarkAfterLowQualityRaises | IconCache.RemoveMarkIntendedEvicts |
