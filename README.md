# SwiftlyImageLoader load engine, in Dafny

This project models the core of SwiftlyImageLoader, an image loading library for
Apple platforms:

- **The in-flight registry** of `ImageLoader` (`ongoingTasks`). It maps each URL to
  the task that loads it and the ordered list of completion handlers waiting for it.
  A second request for a URL that is still loading joins the existing waiters.
- **The body of a load task.** It tries the memory cache, then the disk cache, then
  the network. It writes the result through to the caches and then hands one result
  to every waiter.
- **The disk cache** (`DiskCache`). It stores one payload file and one `.meta`
  sidecar per key. The sidecar holds the save time, so `get` can expire entries
  lazily against a TTL. File names are made by `safeFileName`, which
  percent-encodes every non-alphanumeric character (section 2.1 of RFC 3986).
- **The memory cache** (`ImageCache`). It is a key-to-bytes store that the system
  may shrink at any time.
- **The configuration record and the log-level filter.**

Files and modules:

- `types.dfy` (`Types`): `Option`, byte strings, cache keys (a URL's ASCII
  `absoluteString`), URLs and opaque image handles.
- `configuration.dfy` (`Configuration`): `LogLevel`, `Encoding`, `Config`, the
  initializer, `.default`, and the log filter.
- `disk_cache.dfy` (`DiskStore`): `SafeFileName` with its decoder. It also holds the
  directory as two maps (payloads and sidecars by file name), the pure `AfterSave`
  and `Read` that specify `save` and `get`, and the class `DiskCache`.
- `image_cache.dfy` (`MemoryStore`): the class `ImageCache` and a history semantics
  (`Replay`) for reasoning about sets and evictions over time.
- `image_loader.dfy` (`Loader`): the pure `Cascade` (the task body's decisions), and
  the class `ImageLoader` with one atomic method per serial-queue block.

How the model is built:

- Every block the Swift code queues on its one serial `taskQueue` becomes one method
  of `ImageLoader`. Those methods are `LoadImage`, `CallCompletions`, `CancelLoad` and
  `CancelAll`.
- Task handles are entries of a `tasks` map. Each entry carries a `cancelled` flag.
- Calling a completion handler appends a `Delivery` to the observable log
  `delivered`.
- The network, the image codec and the caller's transform are parameters.
  `FetchOutcome` stands for the network and `Codec` for the codec.
- Time is an integer clock passed to the calls that read it.

Behaviour of the code that a reader might not expect, modelled as written:

- `loadImage` never reads `cancelPreviousLoadForSameURL`. A request for a loading
  URL always joins it. There is no "latest request wins" reissue.
- The memory cache has no TTL.
- The downloaded image is encoded as the configured `imageEncoding` requires, but
  the bytes cached are always `pngData()`.
- The configuration struct does not declare `diskCacheTTL` or `imageEncoding`, yet
  the code reads both. The model adds them with the defaults "no TTL" and PNG.
- A late result from a cancelled task is handed to whatever is registered for the
  URL at that moment, because hand-over is keyed by URL and not by task
  (`Loader.LateFinishAfterCancel`).
- A disk hit is decoded, transformed and re-encoded to PNG before it is written to
  memory. So a transformed image is what the memory tier holds after a disk hit.
- A request that joins a running load loses its own `transform`: the task was
  spawned with the first request's transform, and every waiter receives that
  image (`Loader.ImageLoader.LoadImage` leaves `tasks` unchanged on a join).

## Model

| member | source | states |
|---|---|---|
| `Configuration.Init` | Sources/SwiftlyImageLoader/SwiftlyImageLoaderConfiguration.swift:48-54 | `autoCancelOnReuse` lands in `cancelPreviousLoadForSameURL`, `enableBatchCancelation` in `enableGlobalCancellation`, `logLevel` unchanged; the two undeclared fields get no TTL and PNG |
| `Configuration.Default` | Sources/SwiftlyImageLoader/SwiftlyImageLoaderConfiguration.swift:56 | `.default` cancels on reuse, allows global cancellation, logs at basic level, has no disk TTL |
| `Configuration.ShouldLog` | Sources/SwiftlyImageLoader/ImageLoader.swift:160-165 | nothing is printed at level `none`; for basic and verbose messages, a message prints iff its level is no more verbose than the configured one (a rank comparison, an independent definition of the two-guard filter) |
| `DiskStore.SafeFileName` | Sources/SwiftlyImageLoader/DiskCache.swift:63-66 | the file name holds only alphanumerics and `%` (so no path separator and no `.`), is never shorter than the key, and an all-alphanumeric key is its own file name (the exact name of every key follows from `SafeFileNameOfChar` and `SafeFileNameConcat`) |
| `DiskStore.SafeFileNameOfChar` | Sources/SwiftlyImageLoader/DiskCache.swift:65 | a single alphanumeric character is its own name; any other ASCII character becomes `%` followed by the two upper-case hexadecimal digits of its code |
| `DiskStore.SafeFileNameConcat` | Sources/SwiftlyImageLoader/DiskCache.swift:65 | the name of `a + b` is the name of `a` followed by the name of `b`, so with the one-character case the name of every key is fixed character by character |
| `DiskStore.SafeFileNameUnchangedIff` | Sources/SwiftlyImageLoader/DiskCache.swift:65 | a key is left unchanged exactly when every character is alphanumeric (both directions) |
| `DiskStore.DecodeSafeFileName` | Sources/SwiftlyImageLoader/DiskCache.swift:65 | percent-decoding a file name (section 2.1 of RFC 3986) gives back the key, since `%` itself is encoded |
| `DiskStore.SafeFileNameInjective` | Sources/SwiftlyImageLoader/DiskCache.swift:64-66 | distinct keys get distinct payload files |
| `DiskStore.MetaFileNameInjective` | Sources/SwiftlyImageLoader/DiskCache.swift:40-46 | distinct keys get distinct sidecar files |
| `DiskStore.MetaFileNameIsNoPayloadName` | Sources/SwiftlyImageLoader/DiskCache.swift:36-40 | a `.meta` sidecar name never equals a payload name, so payloads and sidecars can be modelled as two maps |
| `DiskStore.Read` | Sources/SwiftlyImageLoader/DiskCache.swift:44-60 | `get` never returns bytes other than the key's own payload, never creates a file, and deletes only when it misses |
| `DiskStore.SaveThenRead` | Sources/SwiftlyImageLoader/DiskCache.swift:35-59 | `save(d, k)` then `get(k)` with no TTL, or within the TTL, returns `d` and deletes nothing |
| `DiskStore.SaveThenReadExpired` | Sources/SwiftlyImageLoader/DiskCache.swift:35-56 | `save` then `get` later than the TTL misses and removes both the payload and the sidecar |
| `DiskStore.ReadWithoutTtl` | Sources/SwiftlyImageLoader/DiskCache.swift:48-59 | with no TTL configured, `get` is a plain lookup of the payload and deletes nothing |
| `DiskStore.ReadWithStamp` | Sources/SwiftlyImageLoader/DiskCache.swift:48-59 | with a TTL and a readable stamp, an age strictly above the TTL deletes both files and misses; an age equal to or below the TTL is a hit and deletes nothing |
| `DiskStore.ReadWithoutStamp` | Sources/SwiftlyImageLoader/DiskCache.swift:48-59 | a missing or unparsable sidecar means no expiry: the payload is returned and nothing is deleted |
| `DiskStore.ResaveOverwrites` | Sources/SwiftlyImageLoader/DiskCache.swift:36-41 | saving a key again overwrites its payload and refreshes its stamp to the new save time |
| `DiskStore.OtherKeysUntouched` | Sources/SwiftlyImageLoader/DiskCache.swift:36-54 | `save` and `get` for one key leave every other key's payload and sidecar as they were |
| `DiskStore.DiskCache.constructor` | Sources/SwiftlyImageLoader/DiskCache.swift:21-28 | the cache starts from the directory that survived earlier runs |
| `DiskStore.DiskCache.Save` | Sources/SwiftlyImageLoader/DiskCache.swift:35-42 | writes the payload under the key's file name and the save time into its sidecar (the state `AfterSave` describes) |
| `DiskStore.DiskCache.Get` | Sources/SwiftlyImageLoader/DiskCache.swift:44-60 | returns and leaves the directory exactly as `Read` specifies |
| `MemoryStore.ReplayHoldsOnlyOwnData` | Sources/SwiftlyImageLoader/ImageCache.swift:21-28 | after any history of sets and evictions, a key holds only the bytes of its own latest `set` (or its initial value), never bytes set under another key |
| `MemoryStore.SetThenGet` | Sources/SwiftlyImageLoader/ImageCache.swift:21-28 | after `set(d, k)`, `get(k)` returns `d` or misses through eviction, until another `set` for `k` |
| `MemoryStore.NoExpiry` | Sources/SwiftlyImageLoader/ImageCache.swift:26-28 | with no overwrite and no eviction of the key, a stored entry stays readable forever: there is no time-based expiry |
| `MemoryStore.ImageCache.constructor` | Sources/SwiftlyImageLoader/ImageCache.swift:13-15 | the memory cache starts empty |
| `MemoryStore.ImageCache.Set` | Sources/SwiftlyImageLoader/ImageCache.swift:21-23 | replaces the key's entry; every other key's entry is unchanged |
| `MemoryStore.ImageCache.Evict` | Sources/SwiftlyImageLoader/ImageCache.swift:13 | the system cache drops the given entries and nothing else |
| `MemoryStore.ImageCache.Get` | Sources/SwiftlyImageLoader/ImageCache.swift:26-28 | a hit returns exactly the stored bytes, a miss means the key is absent, and the store is not modified |
| `Loader.NoteLevel` | Sources/SwiftlyImageLoader/ImageLoader.swift:65-119 | only the cancellation message is verbose; every other outcome is logged at basic level |
| `Loader.Cascade` | Sources/SwiftlyImageLoader/ImageLoader.swift:62-121 | disk is read iff memory gave nothing decodable; network is used iff neither tier did; the waiters get nil iff all three sources failed; every cached byte string is the PNG of the delivered image; memory is written before disk; disk is written only after a download; each of the six log notes is reported exactly in its own case (memory hit, disk hit, decodable download, undecodable download, cancellation, other error) |
| `Loader.LoggedEnding` | Sources/SwiftlyImageLoader/ImageLoader.swift:62-165 | at basic level every ending of a load is printed except a cancelled fetch; at verbose level every ending is printed; at `none` nothing is |
| `Loader.MemoryHitAnswersAlone` | Sources/SwiftlyImageLoader/ImageLoader.swift:64-72 | a decodable memory hit delivers `transform(image)` (or `image`) with no disk read, no fetch and no write |
| `Loader.DiskHitPromotesToMemory` | Sources/SwiftlyImageLoader/ImageLoader.swift:75-87 | a disk hit delivers the transformed image and writes its PNG to memory only |
| `Loader.DownloadWritesBothTiers` | Sources/SwiftlyImageLoader/ImageLoader.swift:91-110 | a decodable download writes the transformed image's PNG to memory, then to disk, whatever `imageEncoding` says |
| `Loader.FailuresDeliverNothing` | Sources/SwiftlyImageLoader/ImageLoader.swift:111-121 | an undecodable download, a cancellation or any other fetch error delivers nil and writes nothing |
| `Loader.FanOutCallsEachOnce` | Sources/SwiftlyImageLoader/ImageLoader.swift:132-134 | the hand-over calls every waiter exactly once, in registration order, all with the same image |
| `Loader.ImageLoader.constructor` | Sources/SwiftlyImageLoader/ImageLoader.swift:24-29 | the loader starts with the default configuration and an empty registry |
| `Loader.ImageLoader.Setup` | Sources/SwiftlyImageLoader/ImageLoader.swift:33-35 | replaces the whole configuration and nothing else |
| `Loader.ImageLoader.LoadImage` | Sources/SwiftlyImageLoader/ImageLoader.swift:51-124 | a URL already loading only gains the completion at the end of its waiter list, with no new task and no other entry changed; an absent URL gets exactly one fresh, uncancelled task and the waiter list `[completion]`; the reuse-cancellation flag plays no part |
| `Loader.ImageLoader.CallCompletions` | Sources/SwiftlyImageLoader/ImageLoader.swift:128-136 | removes the URL's entry, whichever task registered it, and calls its waiters in order with the one image; with no entry nobody is called |
| `Loader.ImageLoader.CancelLoad` | Sources/SwiftlyImageLoader/ImageLoader.swift:140-148 | cancels the URL's task and removes only that entry, calling nobody; a no-op for an absent URL |
| `Loader.ImageLoader.CancelAll` | Sources/SwiftlyImageLoader/ImageLoader.swift:151-158 | with global cancellation disabled, nothing changes; otherwise every registered task, and no other, is cancelled and the registry ends empty |
| `Loader.ImageLoader.RunTask` | Sources/SwiftlyImageLoader/ImageLoader.swift:60-121 | runs the task body against the two caches under the key `url.absoluteString`: the image and both tiers' new contents are those `Cascade` decides, with the disk's TTL deletion only when the disk was consulted |
| `Loader.ImageLoader.ExecuteTask` | Sources/SwiftlyImageLoader/ImageLoader.swift:60-136 | a whole task: both caches hold its writes when the waiters registered for its URL are called with its result |
| `Loader.Coalescing` | Sources/SwiftlyImageLoader/ImageLoader.swift:52-134 | two requests for one URL spawn one task, and both handlers receive its image in request order |
| `Loader.LateFinishAfterCancel` | Sources/SwiftlyImageLoader/ImageLoader.swift:128-146 | after cancel and a new request, the new request gets a second task, yet the cancelled task's late result is what its handler receives; the first handler is never called |

## Left out

- Dispatch queues, `Task.detached`, `MainActor.run` and actor isolation. Each serial-queue block is one atomic method. The task body (`RunTask`) and the hand-over (`CallCompletions`) are separate steps, so other registry steps can come between them.
- Loader.ImageLoader.ExecuteTask: runs the body and the hand-over back to back, so it does not show a registry step slipping in between; `RunTask` followed by `CallCompletions` does.
- The `[weak self]` guard in the task body: the loader is a process-wide singleton that is never released.
- Cooperative cancellation inside `URLSession`. The network result is a parameter and is not tied to the task's `cancelled` flag.
- The main-queue hop before the handlers run. The handlers are called in order within `CallCompletions`.
- The `print` side effect. Only the filter `ShouldLog` and the level of each outcome (`NoteLevel`) are modelled.
- Image decoding, PNG and JPEG encoding, and the transforms. These are opaque functions. The JPEG quality is a real number.
- Sources/SwiftlyImageLoader/SwiftlyImageLoader.swift and Sources/SwiftlyImageLoader/Utils/ImageResizer.swift (drawing code) are not part of this model.
- The view bindings and the demo app are not part of this model.
- NSCache's eviction policy. Any set of entries may be dropped at any time (`ImageCache.Evict`).
- `Date()` and the sidecar's text format. Time is an integer clock. A sidecar holds a stamp or is unparsable.
- DiskStore.DiskCache.Save: does not model a failed file write, which the Swift code ignores (`try?`). The writes are not atomic, so a write that fails part-way could leave a truncated payload. The payload and the stamp are written separately, so a new payload could also keep the old stamp and then expire early.
- DiskStore.DiskCache.Get: does not model a failed read or a failed deletion, which the Swift code also ignores.
- Loader.ImageLoader.CancelAll: reads `enableGlobalCancellation` inside its atomic step. The Swift code reads it on the caller's thread before queuing the block, so a `setup` queued in between is not modelled.
- URL identity. A URL is modelled by its `absoluteString`. Foundation's `URL` equality also compares the base and relative parts, so two URLs with the same `absoluteString` but a different split are two registry entries and two tasks there. The model merges them into one entry.
- Creating the cache directory.
- The random `UUID()` name in `safeFileName`. It is used only when percent-encoding fails, which cannot happen for a URL's ASCII string.
- Non-ASCII keys and Foundation's Unicode alphanumeric set. Keys are ASCII because a URL's `absoluteString` is ASCII, and "alphanumeric" means ASCII letters and digits.
- Integer widths. Time stamps and TTLs are unbounded integers.
