/** The load engine: a registry of in-flight loads keyed by URL, where a
    second request for a URL joins the first one's waiters, and the body of
    each load task, which tries the memory tier, then the disk tier, then
    the network, writes through to the caches and hands the one result to
    every waiter.

    Every step that reads or changes the registry runs as one block on a
    single serial queue; each such block is one method of `ImageLoader`.
    Decoding, encoding, transforms and the network are parameters. */
module Loader {
  import opened Types
  import Configuration
  import opened DiskStore
  import opened MemoryStore

  /** Handle of a spawned load task. */
  type TaskId = nat

  /** A completion handler, identified by the caller that passed it. */
  type Completion = nat

  /** What the network request for a URL gave: a response body, the
      cancellation error of a cancelled task, or any other error. */
  datatype FetchOutcome = Response(data: Bytes) | CancellationError | OtherError

  /** The image codec: decoding bytes, and PNG and JPEG encoding (the JPEG
      one takes a quality factor). Each may fail. */
  datatype Codec = Codec(
    decode: Bytes -> Option<Image>,
    pngData: Image -> Option<Bytes>,
    jpegData: (Image, real) -> Option<Bytes>)

  /** A write-through into one of the tiers, under the task's key. */
  datatype CacheWrite = MemoryWrite(data: Bytes) | DiskWrite(data: Bytes)

  /** How a load ended, as the loader reports it in its log. */
  datatype Note = MemoryHit | DiskHit | NetworkHit | DecodeFailed | LoadCancelled | LoadFailed

  /** The level each ending is logged at: cancellation is an expected
      outcome and only shows in verbose logs. */
  function NoteLevel(note: Note): (level: Configuration.LogLevel)
    ensures level == Configuration.Verbose <==> note == LoadCancelled
    ensures level != Configuration.None
  {
    if note == LoadCancelled then Configuration.Verbose else Configuration.Basic
  }

  /** The result of a load task's body: the image handed to the waiters
      (none on every failure), whether it read the disk tier and the
      network, the cache writes it made in order, and how it ended. */
  datatype Outcome = Outcome(
    image: Option<Image>,
    readDisk: bool,
    fetched: bool,
    writes: seq<CacheWrite>,
    note: Note)

  /** The optional caller transform applied to a decoded image. */
  function Transformed(transform: Option<Image -> Image>, image: Image): Image {
    match transform
    case Some(f) => f(image)
    case None => image
  }

  /** Bytes were found and decode to an image. */
  predicate Decodes(codec: Codec, data: Option<Bytes>) {
    data.Some? && codec.decode(data.value).Some?
  }

  /** The write-through of `image`'s PNG encoding: to memory, and then to
      disk too when `toDisk`; nothing when PNG encoding fails. */
  function PngWrites(codec: Codec, image: Image, toDisk: bool): seq<CacheWrite> {
    match codec.pngData(image)
    case None => []
    case Some(png) => if toDisk then [MemoryWrite(png), DiskWrite(png)] else [MemoryWrite(png)]
  }

  /** The body of a load task, given what the memory tier holds for the key
      (`cached`), what the disk tier's `get` returns (`stored`) and what the
      network returns (`fetch`).

      The disk is consulted exactly when memory gave nothing decodable, the
      network exactly when neither tier did; the waiters get no image
      exactly when all three sources failed. Every byte string written to a
      cache is the PNG encoding of the delivered image, memory is written
      before disk, and disk is written only after a download. */
  function Cascade(cached: Option<Bytes>, stored: Option<Bytes>, fetch: FetchOutcome,
                   codec: Codec, transform: Option<Image -> Image>): (o: Outcome)
    ensures o.readDisk <==> !Decodes(codec, cached)
    ensures o.fetched <==> !Decodes(codec, cached) && !Decodes(codec, stored)
    ensures o.image.None? <==>
      !Decodes(codec, cached) && !Decodes(codec, stored) && !(fetch.Response? && Decodes(codec, Some(fetch.data)))
    ensures forall i :: 0 <= i < |o.writes| ==> o.image.Some? && codec.pngData(o.image.value) == Some(o.writes[i].data)
    ensures o.writes != [] ==> o.writes[0].MemoryWrite?
    ensures forall i :: 0 <= i < |o.writes| ==> o.writes[i].DiskWrite? ==> o.fetched
    ensures o.note == MemoryHit <==> Decodes(codec, cached)
    ensures o.note == DiskHit <==> !Decodes(codec, cached) && Decodes(codec, stored)
    ensures o.note == NetworkHit <==> o.fetched && fetch.Response? && Decodes(codec, Some(fetch.data))
    ensures o.note == DecodeFailed <==> o.fetched && fetch.Response? && !Decodes(codec, Some(fetch.data))
    ensures o.note == LoadCancelled <==> o.fetched && fetch.CancellationError?
    ensures o.note == LoadFailed <==> o.fetched && fetch.OtherError?
  {
    if Decodes(codec, cached) then
      Outcome(Some(Transformed(transform, codec.decode(cached.value).value)), false, false, [], MemoryHit)
    else if Decodes(codec, stored) then
      var image := Transformed(transform, codec.decode(stored.value).value);
      Outcome(Some(image), true, false, PngWrites(codec, image, false), DiskHit)
    else
      match fetch
      case Response(data) =>
        if Decodes(codec, Some(data)) then
          var image := Transformed(transform, codec.decode(data).value);
          Outcome(Some(image), true, true, PngWrites(codec, image, true), NetworkHit)
        else
          Outcome(None, true, true, [], DecodeFailed)
      case CancellationError => Outcome(None, true, true, [], LoadCancelled)
      case OtherError => Outcome(None, true, true, [], LoadFailed)
  }

  /** What the log shows of a load: at `Basic` every ending prints except a
      cancelled fetch, at `Verbose` every ending prints, at `None` nothing. */
  lemma LoggedEnding(configured: Configuration.LogLevel, cached: Option<Bytes>, stored: Option<Bytes>,
                     fetch: FetchOutcome, codec: Codec, transform: Option<Image -> Image>)
    ensures var o := Cascade(cached, stored, fetch, codec, transform);
            Configuration.ShouldLog(configured, NoteLevel(o.note)) <==>
              match configured
              case None => false
              case Basic => !(o.fetched && fetch.CancellationError?)
              case Verbose => true
  {
  }

  /** A decodable memory entry answers the load alone: no disk read, no
      network, no writes, and the waiters get the transformed image. */
  lemma MemoryHitAnswersAlone(cached: Option<Bytes>, stored: Option<Bytes>, fetch: FetchOutcome,
                              codec: Codec, transform: Option<Image -> Image>)
    requires Decodes(codec, cached)
    ensures Cascade(cached, stored, fetch, codec, transform) ==
      Outcome(Some(Transformed(transform, codec.decode(cached.value).value)), false, false, [], MemoryHit)
  {
  }

  /** A disk hit writes the PNG bytes of the delivered image to memory only. */
  lemma DiskHitPromotesToMemory(cached: Option<Bytes>, stored: Option<Bytes>, fetch: FetchOutcome,
                                codec: Codec, transform: Option<Image -> Image>)
    requires !Decodes(codec, cached) && Decodes(codec, stored)
    ensures var o := Cascade(cached, stored, fetch, codec, transform);
            var image := Transformed(transform, codec.decode(stored.value).value);
            && o.image == Some(image) && !o.fetched
            && o.writes == (if codec.pngData(image).Some? then [MemoryWrite(codec.pngData(image).value)] else [])
  {
  }

  /** A decodable download is written to memory and then to disk, as the
      PNG encoding of the delivered image, before anyone is told. */
  lemma DownloadWritesBothTiers(cached: Option<Bytes>, stored: Option<Bytes>, data: Bytes,
                                codec: Codec, transform: Option<Image -> Image>)
    requires !Decodes(codec, cached) && !Decodes(codec, stored) && codec.decode(data).Some?
    ensures var o := Cascade(cached, stored, Response(data), codec, transform);
            var image := Transformed(transform, codec.decode(data).value);
            && o.image == Some(image)
            && (codec.pngData(image).Some? ==>
                  o.writes == [MemoryWrite(codec.pngData(image).value), DiskWrite(codec.pngData(image).value)])
  {
  }

  /** Every failure of the network path delivers no image and writes
      nothing: an undecodable download, a cancellation, any other error. */
  lemma FailuresDeliverNothing(cached: Option<Bytes>, stored: Option<Bytes>, fetch: FetchOutcome,
                               codec: Codec, transform: Option<Image -> Image>)
    requires !Decodes(codec, cached) && !Decodes(codec, stored)
    requires !(fetch.Response? && codec.decode(fetch.data).Some?)
    ensures var o := Cascade(cached, stored, fetch, codec, transform);
            o.image.None? && o.writes == [] && o.fetched
  {
  }

  /** The memory tier after a task's writes under `key`. */
  function MemoryAfter(store: map<Key, Bytes>, key: Key, writes: seq<CacheWrite>): map<Key, Bytes>
    decreases |writes|
  {
    if writes == [] then store
    else
      var next := if writes[0].MemoryWrite? then store[key := writes[0].data] else store;
      MemoryAfter(next, key, writes[1..])
  }

  /** The disk tier after a task's writes under `key`, saved at `now`. */
  function DiskAfter(s: DiskState, key: Key, writes: seq<CacheWrite>, now: int): DiskState
    decreases |writes|
  {
    if writes == [] then s
    else
      var next := if writes[0].DiskWrite? then AfterSave(s, writes[0].data, key, now) else s;
      DiskAfter(next, key, writes[1..], now)
  }

  /** The write-through of a PNG encoding, tier by tier. */
  lemma PngWritesApplied(store: map<Key, Bytes>, s: DiskState, key: Key, codec: Codec, image: Image,
                         toDisk: bool, now: int)
    ensures MemoryAfter(store, key, PngWrites(codec, image, toDisk)) ==
      if codec.pngData(image).Some? then store[key := codec.pngData(image).value] else store
    ensures DiskAfter(s, key, PngWrites(codec, image, toDisk), now) ==
      if codec.pngData(image).Some? && toDisk then AfterSave(s, codec.pngData(image).value, key, now) else s
  {
    match codec.pngData(image)
    case None =>
    case Some(png) =>
      if toDisk {
        var w := [MemoryWrite(png), DiskWrite(png)];
        assert w[1..] == [DiskWrite(png)] && w[1..][1..] == [];
        var m := store[key := png];
        assert MemoryAfter(m, key, [DiskWrite(png)]) == MemoryAfter(m, key, []);
        var d := AfterSave(s, png, key, now);
        assert DiskAfter(s, key, [DiskWrite(png)], now) == DiskAfter(d, key, [], now);
      } else {
        assert [MemoryWrite(png)][1..] == [];
      }
  }

  // ---------------------------------------------------------------------
  // The in-flight registry
  // ---------------------------------------------------------------------

  /** A registry entry: the task loading the URL and its waiters in the
      order they asked. */
  datatype Entry = Entry(task: TaskId, completions: seq<Completion>)

  /** A spawned task: the URL it loads, the transform of the request that
      started it, and whether it has been cancelled. */
  datatype Task = Task(url: Url, transform: Option<Image -> Image>, cancelled: bool)

  /** One call of a completion handler with an image (or with none). */
  datatype Delivery = Delivery(completion: Completion, image: Option<Image>)

  /** Calling each handler of `completions`, in order, with `image`. */
  function FanOut(completions: seq<Completion>, image: Option<Image>): seq<Delivery>
    decreases |completions|
  {
    if completions == [] then []
    else FanOut(completions[..|completions| - 1], image) + [Delivery(completions[|completions| - 1], image)]
  }

  /** A fan-out calls every handler exactly once, in registration order,
      and all with the same image. */
  lemma {:induction false} FanOutCallsEachOnce(completions: seq<Completion>, image: Option<Image>)
    ensures |FanOut(completions, image)| == |completions|
    ensures forall i :: 0 <= i < |completions| ==> FanOut(completions, image)[i] == Delivery(completions[i], image)
  {
    if completions != [] {
      FanOutCallsEachOnce(completions[..|completions| - 1], image);
    }
  }

  /** The tasks of the registry entries for the URLs in `urls`. */
  function TasksOf(registry: map<Url, Entry>, urls: set<Url>): set<TaskId> {
    set u | u in urls && u in registry :: registry[u].task
  }

  /** `tasks` with the tasks in `ids` marked cancelled. */
  function CancelTasks(tasks: map<TaskId, Task>, ids: set<TaskId>): map<TaskId, Task> {
    map id | id in tasks :: if id in ids then tasks[id].(cancelled := true) else tasks[id]
  }

  /** The image loader: its configuration, the in-flight registry, the
      tasks it spawned, and the handler calls made so far. */
  class ImageLoader {
    var config: Configuration.Config
    var ongoingTasks: map<Url, Entry>
    var tasks: map<TaskId, Task>
    var nextTask: TaskId
    var delivered: seq<Delivery>

    /** Every registered URL has waiters and a live (uncancelled) task that
        loads that URL; task handles are never reused. */
    ghost predicate Valid()
      reads this
    {
      && (forall u :: u in ongoingTasks ==>
            && ongoingTasks[u].task in tasks
            && tasks[ongoingTasks[u].task].url == u
            && !tasks[ongoingTasks[u].task].cancelled
            && ongoingTasks[u].completions != [])
      && (forall id :: id in tasks ==> id < nextTask)
    }

    constructor ()
      ensures Valid()
      ensures config == Configuration.Default()
      ensures ongoingTasks == map[] && tasks == map[] && delivered == []
    {
      config := Configuration.Default();
      ongoingTasks := map[];
      tasks := map[];
      nextTask := 0;
      delivered := [];
    }

    /** `setup(with:)`: replaces the whole configuration. */
    method Setup(c: Configuration.Config)
      requires Valid()
      modifies this`config
      ensures Valid() && config == c
    {
      config := c;
    }

    /** `loadImage(from:transform:completion:)`, the registry block: a URL
        that is already loading gains one more waiter and nothing else
        changes (the configuration's reuse-cancellation flag is not
        consulted); otherwise exactly one fresh task is spawned and
        registered with this completion as its only waiter. */
    method LoadImage(url: Url, transform: Option<Image -> Image>, completion: Completion)
      returns (spawned: Option<TaskId>)
      requires Valid()
      modifies this
      ensures Valid()
      ensures config == old(config) && delivered == old(delivered)
      ensures url in old(ongoingTasks) ==>
        && spawned.None?
        && ongoingTasks == old(ongoingTasks)[url := Entry(old(ongoingTasks)[url].task,
                                                          old(ongoingTasks)[url].completions + [completion])]
        && tasks == old(tasks) && nextTask == old(nextTask)
      ensures url !in old(ongoingTasks) ==>
        && spawned == Some(old(nextTask)) && old(nextTask) !in old(tasks)
        && ongoingTasks == old(ongoingTasks)[url := Entry(old(nextTask), [completion])]
        && tasks == old(tasks)[old(nextTask) := Task(url, transform, false)]
        && nextTask == old(nextTask) + 1
    {
      if url in ongoingTasks {
        var existing := ongoingTasks[url];
        ongoingTasks := ongoingTasks[url := Entry(existing.task, existing.completions + [completion])];
        return None;
      }
      var id := nextTask;
      tasks := tasks[id := Task(url, transform, false)];
      nextTask := nextTask + 1;
      ongoingTasks := ongoingTasks[url := Entry(id, [completion])];
      spawned := Some(id);
    }

    /** `callCompletions(for:with:)`: takes the waiters registered for the
        URL at this moment (whichever task they belong to), removes the
        entry and calls each of them, in order, with `image`. Without an
        entry nobody is called. */
    method CallCompletions(url: Url, image: Option<Image>)
      requires Valid()
      modifies this
      ensures Valid()
      ensures ongoingTasks == old(ongoingTasks) - {url}
      ensures delivered == old(delivered) +
        FanOut(if url in old(ongoingTasks) then old(ongoingTasks)[url].completions else [], image)
      ensures config == old(config) && tasks == old(tasks) && nextTask == old(nextTask)
    {
      var completions := if url in ongoingTasks then ongoingTasks[url].completions else [];
      ongoingTasks := ongoingTasks - {url};
      var i := 0;
      while i < |completions|
        invariant 0 <= i <= |completions|
        invariant delivered == old(delivered) + FanOut(completions[..i], image)
        invariant ongoingTasks == old(ongoingTasks) - {url}
        invariant config == old(config) && tasks == old(tasks) && nextTask == old(nextTask)
      {
        assert completions[..i + 1][..i] == completions[..i];
        delivered := delivered + [Delivery(completions[i], image)];
        i := i + 1;
      }
      assert completions[..i] == completions;
    }

    /** `cancelLoad(for:)`: cancels the URL's task and drops its entry, so
        the next request for the URL starts a fresh task; its waiters are
        not called. Nothing happens for a URL that is not loading. */
    method CancelLoad(url: Url)
      requires Valid()
      modifies this
      ensures Valid()
      ensures ongoingTasks == old(ongoingTasks) - {url}
      ensures url in old(ongoingTasks) ==>
        tasks == old(tasks)[old(ongoingTasks)[url].task := old(tasks)[old(ongoingTasks)[url].task].(cancelled := true)]
      ensures url !in old(ongoingTasks) ==> tasks == old(tasks)
      ensures config == old(config) && delivered == old(delivered) && nextTask == old(nextTask)
    {
      if url in ongoingTasks {
        var id := ongoingTasks[url].task;
        tasks := tasks[id := tasks[id].(cancelled := true)];
        ongoingTasks := ongoingTasks - {url};
      }
    }

    /** `cancelAll()`: with global cancellation disabled, nothing changes;
        otherwise every registered task is cancelled and the registry is
        emptied. */
    method CancelAll()
      requires Valid()
      modifies this
      ensures Valid()
      ensures !config.enableGlobalCancellation ==> ongoingTasks == old(ongoingTasks) && tasks == old(tasks)
      ensures config.enableGlobalCancellation ==>
        ongoingTasks == map[] && tasks == CancelTasks(old(tasks), TasksOf(old(ongoingTasks), old(ongoingTasks).Keys))
      ensures config == old(config) && delivered == old(delivered) && nextTask == old(nextTask)
    {
      if !config.enableGlobalCancellation {
        return;
      }
      var pending := ongoingTasks.Keys;
      while pending != {}
        invariant pending <= ongoingTasks.Keys
        invariant ongoingTasks == old(ongoingTasks) && nextTask == old(nextTask)
        invariant config == old(config) && delivered == old(delivered)
        invariant tasks == CancelTasks(old(tasks), TasksOf(ongoingTasks, ongoingTasks.Keys - pending))
        decreases pending
      {
        var u :| u in pending;
        var id := ongoingTasks[u].task;
        ghost var done := ongoingTasks.Keys - pending;
        assert TasksOf(ongoingTasks, done + {u}) == TasksOf(ongoingTasks, done) + {id};
        assert ongoingTasks.Keys - (pending - {u}) == done + {u};
        tasks := tasks[id := tasks[id].(cancelled := true)];
        pending := pending - {u};
      }
      assert ongoingTasks.Keys - pending == ongoingTasks.Keys;
      ongoingTasks := map[];
    }

    /** The body of task `id`: memory, then disk (with the configured TTL,
        read at `readAt`), then the network, with writes to memory and disk
        (saved at `savedAt`). The configured encoding is evaluated but the
        bytes cached are always the PNG encoding. The registry is not
        touched. */
    method RunTask(id: TaskId, memory: ImageCache, disk: DiskCache, readAt: int, savedAt: int,
                   fetch: FetchOutcome, codec: Codec)
      returns (image: Option<Image>)
      requires id in tasks
      modifies memory, disk
      ensures var key := tasks[id].url.absoluteString;
              var read := Read(old(disk.State()), key, readAt, config.diskCacheTTL);
              var o := Cascade(Lookup(old(memory.store), key), read.value, fetch, codec, tasks[id].transform);
              && image == o.image
              && memory.store == MemoryAfter(old(memory.store), key, o.writes)
              && disk.State() == DiskAfter(if o.readDisk then read.after else old(disk.State()), key, o.writes, savedAt)
    {
      var task := tasks[id];
      var key := task.url.absoluteString;

      var cached := memory.Get(key);
      if cached.Some? && codec.decode(cached.value).Some? {
        return Some(Transformed(task.transform, codec.decode(cached.value).value));
      }

      var stored := disk.Get(key, readAt, config.diskCacheTTL);
      if stored.Some? && codec.decode(stored.value).Some? {
        var finalImage := Transformed(task.transform, codec.decode(stored.value).value);
        var png := codec.pngData(finalImage);
        if png.Some? {
          memory.Set(png.value, key);
        }
        PngWritesApplied(old(memory.store), old(disk.State()), key, codec, finalImage, false, savedAt);
        PngWritesApplied(old(memory.store), disk.State(), key, codec, finalImage, false, savedAt);
        return Some(finalImage);
      }

      match fetch
      case Response(data) =>
        if codec.decode(data).Some? {
          var finalImage := Transformed(task.transform, codec.decode(data).value);
          // Evaluated as the configuration asks, then not used.
          var encoded := match config.imageEncoding
                         case Png => codec.pngData(finalImage)
                         case Jpeg(quality) => codec.jpegData(finalImage, quality);
          ghost var diskBefore := disk.State();
          var png := codec.pngData(finalImage);
          if png.Some? {
            memory.Set(png.value, key);
            disk.Save(png.value, key, savedAt);
          }
          PngWritesApplied(old(memory.store), diskBefore, key, codec, finalImage, true, savedAt);
          image := Some(finalImage);
        } else {
          image := None;
        }
      case CancellationError =>
        image := None;
      case OtherError =>
        image := None;
    }

    /** A whole load task: its body, and then the hand-over of the result
        to whatever is registered for its URL. The caches already hold the
        writes when the waiters are called. */
    method ExecuteTask(id: TaskId, memory: ImageCache, disk: DiskCache, readAt: int, savedAt: int,
                       fetch: FetchOutcome, codec: Codec)
      requires Valid() && id in tasks
      modifies this, memory, disk
      ensures Valid()
      ensures var url := old(tasks)[id].url;
              var read := Read(old(disk.State()), url.absoluteString, readAt, config.diskCacheTTL);
              var o := Cascade(Lookup(old(memory.store), url.absoluteString), read.value, fetch, codec,
                               old(tasks)[id].transform);
              && memory.store == MemoryAfter(old(memory.store), url.absoluteString, o.writes)
              && disk.State() == DiskAfter(if o.readDisk then read.after else old(disk.State()),
                                           url.absoluteString, o.writes, savedAt)
              && ongoingTasks == old(ongoingTasks) - {url}
              && delivered == old(delivered) +
                   FanOut(if url in old(ongoingTasks) then old(ongoingTasks)[url].completions else [], o.image)
      ensures config == old(config) && tasks == old(tasks) && nextTask == old(nextTask)
    {
      var image := RunTask(id, memory, disk, readAt, savedAt, fetch, codec);
      CallCompletions(tasks[id].url, image);
    }
  }

  // ---------------------------------------------------------------------
  // Interleavings
  // ---------------------------------------------------------------------

  /** Two requests for one URL before it finishes: one task, and both
      handlers get its image, in the order they asked. */
  method Coalescing(url: Url, first: Completion, second: Completion, image: Option<Image>)
    returns (spawnedFirst: Option<TaskId>, spawnedSecond: Option<TaskId>, calls: seq<Delivery>)
    ensures spawnedFirst.Some? && spawnedSecond.None?
    ensures calls == [Delivery(first, image), Delivery(second, image)]
  {
    var loader := new ImageLoader();
    spawnedFirst := loader.LoadImage(url, None, first);
    spawnedSecond := loader.LoadImage(url, None, second);
    loader.CallCompletions(url, image);
    calls := loader.delivered;
    FanOutCallsEachOnce([first, second], image);
  }

  /** A request, its cancellation, and a new request for the same URL: the
      new request starts a second task. When the cancelled task still
      finishes, its result goes to the new request's handler (the hand-over
      is by URL), the first handler is never called, and the second task's
      own result later finds nobody waiting. */
  method LateFinishAfterCancel(url: Url, first: Completion, second: Completion,
                               stale: Option<Image>, later: Option<Image>)
    returns (spawnedFirst: Option<TaskId>, spawnedSecond: Option<TaskId>, calls: seq<Delivery>)
    ensures spawnedFirst.Some? && spawnedSecond.Some? && spawnedFirst != spawnedSecond
    ensures calls == [Delivery(second, stale)]
  {
    var loader := new ImageLoader();
    spawnedFirst := loader.LoadImage(url, None, first);
    loader.CancelLoad(url);
    spawnedSecond := loader.LoadImage(url, None, second);
    loader.CallCompletions(url, stale);
    loader.CallCompletions(url, later);
    calls := loader.delivered;
    FanOutCallsEachOnce([second], stale);
  }
}
