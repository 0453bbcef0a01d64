/**
 * ImageLoader.java: the loader that binds image paths to views. A FIFO queue
 * of work items shared by a pool of worker threads, a map from each view to
 * the item last made for it, a pause flag, and the process-wide cache.
 *
 * Threads are not modelled: `WorkerStep` is one pass of a worker's loop,
 * taken atomically, so between steps no worker holds an item. The world a
 * work item meets (what the disk cache decodes to, whether a connection
 * opens and how the server answers, whether the file decodes, the bytes a
 * bitmap compresses to) is given to it as a `RunInputs` value.
 */
module ImageLoader {
  import opened Wrappers
  import opened JavaLang
  import opened Platform
  import opened Image
  import opened TempMetaFile
  import opened DefaultDownloader
  import opened UniqueURLDownloader
  import opened LocalImage
  import opened HttpImage
  import opened ImageCache

  // ---------------------------------------------------------------------
  // The queue and the view map as values

  /** The index of the first occurrence of x in q. */
  function IndexOf<T(==)>(q: seq<T>, x: T): (k: nat)
    requires x in q
    ensures k < |q| && q[k] == x && x !in q[..k]
  {
    if q[0] == x then 0 else 1 + IndexOf(q[1..], x)
  }

  /** List.remove(Object): the first occurrence of x is taken out; a missing x changes nothing. */
  function RemoveFirst<T(==)>(q: seq<T>, x: T): seq<T> {
    if x in q then q[..IndexOf(q, x)] + q[IndexOf(q, x) + 1..] else q
  }

  /** Removing from a list without repeats leaves a list without repeats that lacks x and keeps the rest, in order. */
  lemma {:induction false} RemoveFirstFromDistinct<T>(q: seq<T>, x: T)
    requires Distinct(q)
    ensures Distinct(RemoveFirst(q, x))
    ensures x !in RemoveFirst(q, x)
    ensures forall y :: y in RemoveFirst(q, x) <==> y in q && y != x
    ensures x in q ==> |RemoveFirst(q, x)| == |q| - 1
  {
    if x in q {
      var k := IndexOf(q, x);
      var r := q[..k] + q[k + 1..];
      forall i, j | 0 <= i < j < |r|
        ensures r[i] != r[j]
      {
        var i', j' := if i < k then i else i + 1, if j < k then j else j + 1;
        assert r[i] == q[i'] && r[j] == q[j'];
      }
      forall y | y in r
        ensures y != x
      {
        var i :| 0 <= i < |r| && r[i] == y;
        assert r[i] == q[if i < k then i else i + 1];
      }
      forall y | y in q && y != x
        ensures y in r
      {
        var i :| 0 <= i < |q| && q[i] == y;
        assert i != k;
        if i < k {
          assert r[i] == y;
        } else {
          assert r[i - 1] == y;
        }
      }
    }
  }

  predicate Distinct<T(==)>(q: seq<T>) {
    forall i, j :: 0 <= i < j < |q| ==> q[i] != q[j]
  }

  /**
   * The queue agrees with the view map: no item is queued twice, every
   * queued item is the one the map holds for its view, and the map files
   * every item under its own view.
   */
  predicate Indexed(queue: seq<WorkItem>, views: map<ImageView, WorkItem>) {
    Distinct(queue)
    && (forall i :: 0 <= i < |queue| ==> queue[i].view in views && views[queue[i].view] == queue[i])
    && (forall v :: v in views ==> views[v].view == v)
  }

  /** So each view has at most one queued item. */
  lemma OneQueuedItemPerView(queue: seq<WorkItem>, views: map<ImageView, WorkItem>)
    requires Indexed(queue, views)
    ensures forall i, j :: 0 <= i < j < |queue| ==> queue[i].view != queue[j].view
  {
  }

  /** The queue after a load that missed the memory cache: the view's old item out, the new one at the tail. */
  function Requeued(queue: seq<WorkItem>, views: map<ImageView, WorkItem>, view: ImageView, item: WorkItem): seq<WorkItem> {
    (if view in views then RemoveFirst(queue, views[view]) else queue) + [item]
  }

  /** A load that missed keeps the queue and the map in agreement. */
  lemma {:induction false} RequeueKeepsIndexed(queue: seq<WorkItem>, views: map<ImageView, WorkItem>,
                                               view: ImageView, item: WorkItem)
    requires Indexed(queue, views)
    requires item !in queue && item.view == view
    requires view in views ==> views[view] != item
    ensures Indexed(Requeued(queue, views, view, item), views[view := item])
    ensures item in Requeued(queue, views, view, item)
    ensures view in views ==> views[view] !in Requeued(queue, views, view, item)
  {
    var rest := if view in views then RemoveFirst(queue, views[view]) else queue;
    if view in views {
      RemoveFirstFromDistinct(queue, views[view]);
    }
    var q := rest + [item];
    var m := views[view := item];
    forall i | 0 <= i < |rest|
      ensures rest[i].view != view
    {
      assert rest[i] in queue;
      var j :| 0 <= j < |queue| && queue[j] == rest[i];
    }
    forall i | 0 <= i < |q|
      ensures q[i].view in m && m[q[i].view] == q[i]
    {
      if i < |rest| {
        assert q[i] == rest[i] && q[i] in queue;
        var j :| 0 <= j < |queue| && queue[j] == q[i];
      }
    }
    forall i, j | 0 <= i < j < |q|
      ensures q[i] != q[j]
    {
      if j == |rest| {
        assert q[i] in queue;
      }
    }
  }

  /** Taking the head keeps the queue and the map in agreement. */
  lemma DequeueKeepsIndexed(queue: seq<WorkItem>, views: map<ImageView, WorkItem>)
    requires Indexed(queue, views) && |queue| > 0
    ensures Indexed(queue[1..], views)
    ensures queue[0] !in queue[1..]
  {
  }

  // ---------------------------------------------------------------------
  // Work items

  /** An item's image: not yet made, or the HttpImage or LocalImage run made. */
  datatype ImageRef = NoImage | Remote(http: HttpImage) | Local(local: LocalImage)

  /** What the world does while an item runs. */
  datatype RunInputs = RunInputs(
    onDisk: Bitmap?,          // what decoding the disk cache file gives, when the file exists
    opens: bool,              // `new URL(path).openConnection()` succeeds
    reply: Reply,             // how the server answers the connection
    decodable: bool,          // the image file can be decoded
    stored: StoredMeta,       // the Meta store file, should the store be created
    encoded: seq<Byte>)       // the bytes bitmap.compress writes

  /**
   * What run starts from: whether the disk cache holds the bitmap, the
   * memory tier, the posted bitmap, the files, the stored Metas, the URLs in
   * flight and the item's cancel flag.
   */
  datatype Start = Start(diskHit: bool, memory: map<string, Bitmap>, posted: Bitmap?,
                         files: map<string, seq<Byte>>, entries: map<string, Meta>,
                         running: map<string, DefaultDownloader>, cancel: bool)

  /**
   * What a remote image's getImage gives, from run's download attempt (none
   * when the URL was already in flight): an exception is passed on; false,
   * or no attempt, gives null; true gives the thumbnail of the downloaded file.
   */
  ghost predicate FromDownload(o: Outcome, attempt: Option<Attempt>, size: Option<Dimen>, decodable: bool)
    reads if o.Made? && o.bitmap != null then {o.bitmap} else {}
  {
    if attempt.None? || attempt.value.result == Returned(false) then o == Made(null)
    else if attempt.value.result == Threw then o == Raised
    else Thumbnail(o, size, decodable)
  }

  /** The paths loaded over HTTP. */
  predicate IsRemote(path: string) {
    StartsWith(path, "http://") || StartsWith(path, "https://")
  }

  /** Where a remote image is downloaded: `<disk dir>/http/<hash code of the path>`. */
  function HttpFile(diskDir: string, path: string): (f: FilePath)
    ensures f.parent == diskDir + "/http"
    ensures ParseInt(f.name) == Some(HashCode(path))
  {
    ParseIntInverts(HashCode(path));
    FilePath(diskDir + "/http", IntToDecimal(HashCode(path)))
  }

  /** The HttpImage run makes for a remote path: its connection, its download file, its size and its decode options. */
  predicate HttpImageFor(h: HttpImage, path: string, inputs: RunInputs, diskDir: string, size: Option<Dimen>,
                         options: Options)
  {
    h.conn.url == path && h.conn.reply == inputs.reply && h.file == HttpFile(diskDir, path)
    && h.size == size && h.options == options
  }

  /**
   * What run's image step leaves, given whether the disk cache held the
   * bitmap: the disk bitmap and no image; an exception when a remote
   * connection cannot be opened; an HttpImage for the path whose memo is the
   * bitmap returned; or a LocalImage whose result is the thumbnail at the size.
   */
  ghost predicate Produced(image: ImageRef, o: Outcome, diskHit: bool, path: string, options: Options,
                           inputs: RunInputs, diskDir: string, size: Option<Dimen>)
    reads if image.Remote? then {image.http} else {}
    reads if o.Made? && o.bitmap != null then {o.bitmap} else {}
  {
    (diskHit ==> image == NoImage && o == Made(inputs.onDisk))
    && (!diskHit && IsRemote(path) && !inputs.opens ==> image == NoImage && o == Raised)
    && (!diskHit && IsRemote(path) && inputs.opens ==>
          image.Remote? && HttpImageFor(image.http, path, inputs, diskDir, size, options)
          && (o.Made? && o.bitmap != null ==> image.http.bitmap == o.bitmap))
    && (!diskHit && !IsRemote(path) ==>
          image.Local? && image.local.file == path && image.local.size == size
          && image.local.options == options && Thumbnail(o, size, inputs.decodable))
  }

  class WorkItem {
    const loader: ImageLoader
    const view: ImageView
    const path: string
    var image: ImageRef
    /** The bitmap of the uiRunnable posted to the UI thread, if any. */
    var posted: Bitmap?
    var cancel: bool
    var bitmapOptions: Options?

    constructor (loader: ImageLoader, view: ImageView, path: string)
      ensures this.loader == loader && this.view == view && this.path == path
      ensures image == NoImage && posted == null && !cancel && bitmapOptions == null
    {
      this.loader := loader;
      this.view := view;
      this.path := path;
      image := NoImage;
      posted := null;
      cancel := false;
      bitmapOptions := null;
    }

    ghost function ImageObjects(): set<object>
      reads this, if image.Remote? then {image.http} else {}
    {
      match image
      case NoImage => {}
      case Remote(h) => {h} + (if h.image != null then {h.image} else {})
      case Local(l) => {l}
    }

    /** What cancel may change. */
    ghost function CancelFrame(): set<object>
      reads this, ImageObjects()
    {
      {this}
      + (if bitmapOptions != null then {bitmapOptions} else {})
      + (match image
         case NoImage => {}
         case Remote(h) => h.CancelFrame()
         case Local(l) => l.CancelFrame())
    }

    /**
     * cancel: sets the flag, cancels the image and the decode, when there is
     * one. (Removing the posted update from the Handler is not modelled; the
     * flag is what keeps a posted update from showing.)
     */
    method Cancel()
      modifies CancelFrame()
      ensures cancel && image == old(image) && posted == old(posted) && bitmapOptions == old(bitmapOptions)
      ensures bitmapOptions != null ==> bitmapOptions.cancelRequested
      ensures image.Remote? ==> image.http.cancel
      ensures image.Local? ==> image.local.cancel
    {
      cancel := true;
      match image {
        case NoImage =>
        case Remote(h) => h.Cancel();
        case Local(l) => l.Cancel();
      }
      if bitmapOptions != null {
        bitmapOptions.RequestCancelDecode();
      }
    }

    /** The posted uiRunnable: it shows the bitmap unless the item was cancelled. */
    method RunPosted()
      requires posted != null
      modifies view
      ensures cancel ==> view.shown == old(view.shown)
      ensures !cancel ==> view.shown == ShowsBitmap(posted)
    {
      if !cancel {
        view.shown := ShowsBitmap(posted);
      }
    }

    /** The loader's cache writes to the loader's file system; the Meta store agrees with its file, when it exists. */
    ghost predicate Ready()
      reads loader, loader.cache, loader.metas, loader.metas.instance
    {
      loader.cache.fs == loader.fs
      && (loader.metas.instance != null ==> loader.metas.instance.Valid())
    }

    /** The disk cache holds a file for the path at the given size, and it decodes. */
    ghost predicate DiskHit(size: Option<Dimen>, inputs: RunInputs)
      reads loader.fs`files
    {
      loader.cache.DiskCacheFile(path, size).Path() in loader.fs.files && inputs.onDisk != null
    }

    /** The state run starts from. */
    ghost function StartOf(inputs: RunInputs): Start
      reads this`posted, this`cancel, loader`size, loader.fs`files, loader.cache`memory
      reads loader.metas`instance, loader.metas.instance, loader.inFlight`running
    {
      Start(DiskHit(loader.size, inputs), loader.cache.memory, posted, loader.fs.files,
            StoreEntries(loader.metas.instance, inputs.stored), loader.inFlight.running, cancel)
    }

    /**
     * The download run's image step makes, from the start: on a disk miss,
     * for a remote path whose connection opens and whose URL is not in
     * flight, one download into the path's HTTP file; otherwise none.
     */
    ghost function Attempted(s: Start, inputs: RunInputs): Option<Attempt>
    {
      if !s.diskHit && IsRemote(path) && inputs.opens && path !in s.running then
        var f := HttpFile(loader.cache.diskDir, path);
        Some(Fetch(s.files, f.Path(), TempPathOf(f), s.entries, path, inputs.reply, false))
      else
        None
    }

    /** The files once the image step is done: those the download leaves, or those at the start. */
    ghost function FilesAfterImage(s: Start, inputs: RunInputs): map<string, seq<Byte>>
    {
      var a := Attempted(s, inputs);
      if a.Some? then a.value.files else s.files
    }

    /** The stored Metas once the image step is done: those the download leaves, or those at the start. */
    ghost function EntriesAfterImage(s: Start, inputs: RunInputs): map<string, Meta>
    {
      var a := Attempted(s, inputs);
      if a.Some? then a.value.metas else s.entries
    }

    /**
     * The download side of the image step: the files and the stored Metas
     * are those the download leaves (as they were without one), no URL is
     * left in flight that was not, and a remote image's outcome is what the
     * download gives.
     */
    ghost predicate Downloaded(o: Outcome, inputs: RunInputs, s: Start)
      reads this`image, loader`size, loader.fs`files, loader.metas`instance, loader.metas.instance
      reads loader.inFlight`running
      reads if o.Made? && o.bitmap != null then {o.bitmap} else {}
    {
      loader.fs.files == FilesAfterImage(s, inputs)
      && StoreEntries(loader.metas.instance, inputs.stored) == EntriesAfterImage(s, inputs)
      && loader.inFlight.running == s.running
      && (image.Remote? ==> FromDownload(o, Attempted(s, inputs), loader.size, inputs.decodable))
    }

    /**
     * The disk side of publishing an outcome: a usable bitmap's bytes are
     * written under the path at the bitmap's own size unless that file
     * exists; any other outcome writes nothing.
     */
    ghost predicate StoredAsPublished(o: Outcome, encoded: seq<Byte>, before: map<string, seq<Byte>>,
                                      after: map<string, seq<Byte>>)
      reads if o.Made? && o.bitmap != null then {o.bitmap} else {}
    {
      if o.Made? && Usable(o.bitmap) then
        after == PutIfAbsent(before, loader.cache.DiskCacheFile(path, Some(Dimen(o.bitmap.width, o.bitmap.height))).Path(), encoded)
      else
        after == before
    }

    /**
     * What the image step leaves besides the files, from the start: what
     * Produced says, with the item's own decode options, and a remote
     * outcome as its download gives; the stored Metas are those the download
     * left, the URLs in flight and the cancel flag are as they were.
     */
    ghost predicate Obtained(o: Outcome, inputs: RunInputs, s: Start)
      reads this`image, this`bitmapOptions, this`cancel, loader`size, loader.metas`instance, loader.metas.instance
      reads loader.inFlight`running
      reads if image.Remote? then {image.http} else {}
      reads if o.Made? && o.bitmap != null then {o.bitmap} else {}
    {
      bitmapOptions != null
      && Produced(image, o, s.diskHit, path, bitmapOptions, inputs, loader.cache.diskDir, loader.size)
      && (image.Remote? ==> FromDownload(o, Attempted(s, inputs), loader.size, inputs.decodable))
      && StoreEntries(loader.metas.instance, inputs.stored) == EntriesAfterImage(s, inputs)
      && loader.inFlight.running == s.running
      && cancel == s.cancel
    }

    /**
     * What run leaves, from the start: the image step as Obtained says; a
     * usable bitmap is posted, kept in the memory tier unless the path had
     * one, and written to disk at its own size unless that file exists, on
     * top of the files the download left; anything else posts nothing and
     * leaves both tiers as the image step left them.
     */
    ghost predicate Ran(o: Outcome, inputs: RunInputs, s: Start)
      reads this, loader, loader.cache, loader.fs, loader.metas, loader.metas.instance, loader.inFlight
      reads if image.Remote? then {image.http} else {}
      reads if o.Made? && o.bitmap != null then {o.bitmap} else {}
    {
      Obtained(o, inputs, s)
      && Published(o, s.memory, s.posted)
      && StoredAsPublished(o, inputs.encoded, FilesAfterImage(s, inputs), loader.fs.files)
    }

    /**
     * The UI and memory side of publishing an outcome: a usable bitmap is
     * posted, kept in the memory tier unless the path had one, and on disk
     * at its own size; anything else leaves the posted bitmap and the memory
     * tier as they were.
     */
    ghost predicate Published(o: Outcome, memoryBefore: map<string, Bitmap>, postedBefore: Bitmap?)
      reads this`posted, loader.cache`memory, loader.fs`files, if o.Made? && o.bitmap != null then {o.bitmap} else {}
    {
      (Delivers(o) ==>
         posted == o.bitmap
         && loader.cache.memory == PutIfAbsent(memoryBefore, path, o.bitmap)
         && loader.cache.DiskCacheFile(path, Some(Dimen(o.bitmap.width, o.bitmap.height))).Path() in loader.fs.files)
      && (!Delivers(o) ==> posted == postedBefore && loader.cache.memory == memoryBefore)
    }

    /**
     * The image run makes on a disk miss: an HttpImage for http:// and
     * https:// paths whose connection opens, none when it does not, and a
     * LocalImage for any other path; each at the loader's size with the
     * item's decode options.
     */
    method MakeImage(options: Options, inputs: RunInputs)
      requires image == NoImage
      modifies this`image
      ensures IsRemote(path) && !inputs.opens ==> image == NoImage
      ensures IsRemote(path) && inputs.opens ==>
        image.Remote? && fresh(image.http) && fresh(image.http.conn)
        && HttpImageFor(image.http, path, inputs, loader.cache.diskDir, loader.size, options)
        && SharesLoader(image.http) && !image.http.cancel && image.http.bitmap == null
      ensures !IsRemote(path) ==>
        image.Local? && fresh(image.local) && image.local.file == path
        && image.local.size == loader.size && image.local.options == options
        && !image.local.cancel && image.local.bitmap == null
    {
      if IsRemote(path) {
        if inputs.opens {
          var conn := new Connection(path, inputs.reply);
          var h := new HttpImage(HttpFile(loader.cache.diskDir, path), conn, loader.size, options,
                                 loader.fs, loader.metas, loader.inFlight);
          image := Remote(h);
        }
      } else {
        var l := new LocalImage(path, loader.size, options);
        image := Local(l);
      }
    }

    /**
     * The end of run: a usable bitmap is posted to the UI thread and added to
     * the cache (memory tier and disk tier, each only if it has nothing there
     * yet); null, a recycled bitmap or an exception changes nothing.
     */
    method Publish(o: Outcome, encoded: seq<Byte>)
      requires Ready()
      modifies this`posted, loader.cache, loader.fs
      ensures Ready()
      ensures Published(o, old(loader.cache.memory), old(posted))
      ensures StoredAsPublished(o, encoded, old(loader.fs.files), loader.fs.files)
    {
      if o.Made? && o.bitmap != null && !o.bitmap.recycled {
        posted := o.bitmap;
        loader.cache.AddBitmapFromCache(path, o.bitmap, encoded);
      }
    }

    /** The image made on a disk miss, from the start `s`, asked for its bitmap; no image means the call throws. */
    method Generate(options: Options, inputs: RunInputs, ghost s: Start) returns (o: Outcome)
      requires image == NoImage && Ready()
      requires !s.diskHit && s.files == loader.fs.files && s.running == loader.inFlight.running
      requires s.entries == StoreEntries(loader.metas.instance, inputs.stored)
      modifies this`image, loader.fs, loader.metas, loader.metas.instance, loader.inFlight
      ensures Ready()
      ensures IsRemote(path) && !inputs.opens ==> image == NoImage && o == Raised
      ensures IsRemote(path) && inputs.opens ==>
        image.Remote? && fresh(image.http)
        && HttpImageFor(image.http, path, inputs, loader.cache.diskDir, loader.size, options)
        && (o.Made? && o.bitmap != null ==> image.http.bitmap == o.bitmap)
      ensures !IsRemote(path) ==>
        image.Local? && fresh(image.local) && image.local.file == path
        && image.local.size == loader.size && image.local.options == options
        && Thumbnail(o, loader.size, inputs.decodable)
      ensures Downloaded(o, inputs, s)
    {
      MakeImage(options, inputs);
      match image {
        case NoImage =>
          o := Raised;
          assert Attempted(s, inputs) == None;
        case Remote(h) =>
          o := AskRemote(h, inputs, s);
        case Local(l) =>
          o := l.GetImage(inputs.decodable);
          assert Attempted(s, inputs) == None;
      }
    }

    /** The HttpImage works on the loader's file system, Meta store and URL map. */
    predicate SharesLoader(h: HttpImage) {
      h.fs == loader.fs && h.metas == loader.metas && h.inFlight == loader.inFlight
    }

    /** The HttpImage made on a disk miss is asked for its bitmap, from the start `s`. */
    method AskRemote(h: HttpImage, inputs: RunInputs, ghost s: Start) returns (o: Outcome)
      requires image == Remote(h) && Ready()
      requires !s.diskHit && IsRemote(path) && inputs.opens
      requires HttpImageFor(h, path, inputs, loader.cache.diskDir, loader.size, h.options) && SharesLoader(h)
      requires !h.cancel && h.bitmap == null
      requires s.files == loader.fs.files && s.running == loader.inFlight.running
      requires s.entries == StoreEntries(loader.metas.instance, inputs.stored)
      modifies h`bitmap, h`downloader, h`image, h.conn, loader.fs, loader.metas, loader.metas.instance, loader.inFlight
      ensures Ready()
      ensures Downloaded(o, inputs, s)
      ensures o.Made? && o.bitmap != null ==> h.bitmap == o.bitmap
    {
      ghost var imageBefore := h.image;
      o := h.GetImage(inputs.decodable, inputs.stored);
      DownloadedRemotely(h, o, inputs, s, imageBefore);
    }

    /**
     * The HttpImage made for this item on a disk miss, asked for its bitmap
     * from the start `s`, leaves the files, the stored Metas and the outcome
     * that run's download gives.
     */
    lemma DownloadedRemotely(h: HttpImage, o: Outcome, inputs: RunInputs, s: Start, imageBefore: LocalImage?)
      requires image == Remote(h) && !s.diskHit && IsRemote(path) && inputs.opens
      requires HttpImageFor(h, path, inputs, loader.cache.diskDir, loader.size, h.options) && h.fs == loader.fs
      requires loader.inFlight.running == s.running
      requires h.Generated(o, h.image, inputs.decodable, false, path in s.running, s.files, s.entries, imageBefore,
                           StoreEntries(loader.metas.instance, inputs.stored))
      ensures Downloaded(o, inputs, s)
    {
    }

    /**
     * The bitmap run gets, with new decode options: the one in the disk
     * cache, or else one from a new HttpImage (for http:// and https://
     * paths) or LocalImage. An exception (a connection that cannot be opened
     * leaves no image to call) is passed on as Raised.
     */
    method Obtain(inputs: RunInputs, ghost s: Start) returns (o: Outcome)
      requires image == NoImage && Ready()
      requires s == StartOf(inputs)
      modifies this`image, this`bitmapOptions, loader.fs, loader.metas, loader.metas.instance, loader.inFlight
      ensures Ready()
      ensures bitmapOptions != null && fresh(bitmapOptions)
      ensures Obtained(o, inputs, s)
      ensures loader.fs.files == FilesAfterImage(s, inputs)
      ensures image.Remote? ==> fresh(image.http)
      ensures image.Local? ==> fresh(image.local)
    {
      var options := new Options();
      bitmapOptions := options;
      var b := loader.cache.GetBitmapFromDiskCache(path, loader.size, inputs.onDisk);
      if b == null {
        o := Generate(options, inputs, s);
      } else {
        o := Made(b);
      }
    }

    /** run: the bitmap is obtained, and a usable one is posted and added to the cache. */
    method Run(inputs: RunInputs, ghost s: Start) returns (o: Outcome)
      requires image == NoImage && Ready()
      requires s == StartOf(inputs)
      modifies this, loader.cache, loader.fs, loader.metas, loader.metas.instance, loader.inFlight
      ensures Ready()
      ensures bitmapOptions != null && fresh(bitmapOptions)
      ensures Ran(o, inputs, s)
      ensures image.Remote? ==> fresh(image.http)
      ensures image.Local? ==> fresh(image.local)
    {
      o := Obtain(inputs, s);
      ghost var obtained := loader.fs.files;
      Publish(o, inputs.encoded);
      Composed(o, inputs, s, obtained);
    }

    /** The image step followed by publishing its outcome is what run leaves. */
    lemma Composed(o: Outcome, inputs: RunInputs, s: Start, obtained: map<string, seq<Byte>>)
      requires Obtained(o, inputs, s) && obtained == FilesAfterImage(s, inputs)
      requires Published(o, s.memory, s.posted)
      requires StoredAsPublished(o, inputs.encoded, obtained, loader.fs.files)
      ensures Ran(o, inputs, s)
    {
    }

    /**
     * After run makes a local image on a disk miss, a usable thumbnail is on
     * disk under the very file the next lookup at the loader's size reads, so
     * that lookup hits.
     */
    lemma LocalRunIsCachedAtItsSize(o: Outcome, inputs: RunInputs, s: Start)
      requires Ran(o, inputs, s) && !s.diskHit && !IsRemote(path) && Delivers(o)
      ensures loader.cache.DiskCacheFile(path, loader.size).Path() in loader.fs.files
    {
      ThumbnailIsFoundAtItsSize(loader.cache, path, o.bitmap, loader.size.value, s.files, inputs.encoded);
    }
  }

  // ---------------------------------------------------------------------
  // Worker threads

  class WorkThread {
    var stop: bool
    var workItem: WorkItem?

    constructor ()
      ensures !stop && workItem == null
    {
      stop := false;
      workItem := null;
    }

    /** The loop takes an item in hand. */
    method Hold(item: WorkItem)
      modifies this`workItem
      ensures workItem == item
    {
      workItem := item;
    }

    /** The loop lets go of the item it ran. */
    method Release()
      modifies this`workItem
      ensures workItem == null
    {
      workItem := null;
    }

    /** quit: the loop is told to stop, and the item in hand is cancelled. */
    method Quit()
      modifies this, if workItem != null then workItem.CancelFrame() else {}
      ensures stop && workItem == old(workItem)
      ensures workItem != null ==> workItem.cancel
    {
      stop := true;
      if workItem != null {
        workItem.Cancel();
      }
    }
  }

  // ---------------------------------------------------------------------
  // The loader

  class ImageLoader {
    var queue: seq<WorkItem>
    var views: map<ImageView, WorkItem>
    var threads: seq<WorkThread>
    const cache: ImageCache
    const fs: FileSystem
    const metas: MetaRegistry
    const inFlight: InFlight
    var loadBitmap: Option<Drawable>
    var size: Option<Dimen>
    var pause: bool

    /**
     * The queue agrees with the view map; queued items belong to this loader
     * and have not run; no worker holds an item between steps; the cache
     * writes to the loader's file system and the Meta store agrees with its file.
     */
    ghost predicate Valid()
      reads this, threads, queue, metas, metas.instance
    {
      Indexed(queue, views)
      && (forall w :: w in queue ==> w.loader == this && w.image == NoImage)
      && (forall t :: t in threads ==> t.workItem == null)
      && cache.fs == fs
      && (metas.instance != null ==> metas.instance.Valid())
    }

    /**
     * The constructor: the cache singleton with default parameters, and
     * threadCount idle workers.
     */
    constructor (threadCount: nat, caches: CacheRegistry, externalStorage: string, packageName: string,
                 fs: FileSystem, metas: MetaRegistry, inFlight: InFlight)
      requires caches.instance != null ==> caches.instance.fs == fs
      requires metas.instance != null ==> metas.instance.Valid()
      modifies caches
      ensures Valid()
      ensures cache == caches.instance && (old(caches.instance) != null ==> cache == old(caches.instance))
      ensures |threads| == threadCount && forall t :: t in threads ==> fresh(t) && !t.stop
      ensures queue == [] && views == map[] && !pause && size == None && loadBitmap == None
      ensures this.fs == fs && this.metas == metas && this.inFlight == inFlight
    {
      var c := caches.GetDefaultInstance(externalStorage, packageName, fs);
      var pool: seq<WorkThread> := [];
      while |pool| < threadCount
        invariant |pool| <= threadCount
        invariant caches.instance == c
        invariant forall t :: t in pool ==> fresh(t) && !t.stop && t.workItem == null
      {
        var t := new WorkThread();
        pool := pool + [t];
      }
      cache := c;
      this.fs := fs;
      this.metas := metas;
      this.inFlight := inFlight;
      queue := [];
      views := map[];
      threads := pool;
      loadBitmap := None;
      size := None;
      pause := false;
    }

    /**
     * load: the item already bound to the view is cancelled first. A bitmap
     * in the memory cache is shown at once and the queue and map stay as they
     * are (the cancelled item stays queued). Otherwise the placeholder (the
     * given one, or the loader's) is shown, the view's old item leaves the
     * queue, and a new item is bound to the view and queued at the tail.
     */
    method Load(path: string, view: ImageView, placeholder: Option<Drawable>)
      requires Valid()
      modifies this, view, if view in views then views[view].CancelFrame() else {}
      ensures Valid()
      ensures old(view in views) ==> old(views[view]).cancel
      ensures threads == old(threads) && size == old(size) && pause == old(pause) && loadBitmap == old(loadBitmap)
      ensures old(cache.MemoryLookup(path, size)) != null ==>
        view.shown == ShowsBitmap(old(cache.MemoryLookup(path, size)))
        && queue == old(queue) && views == old(views)
      ensures old(cache.MemoryLookup(path, size)) == null ==>
        view.shown == ShowsDrawable(if placeholder.Some? then placeholder else loadBitmap)
        && view in views && fresh(views[view]) && views[view].path == path
        && views == old(views)[view := views[view]]
        && queue == Requeued(old(queue), old(views), view, views[view])
    {
      CancelBound(view);
      var bitmap := cache.MemoryLookup(path, size);
      if bitmap != null {
        view.shown := ShowsBitmap(bitmap);
      } else {
        view.shown := ShowsDrawable(if placeholder.Some? then placeholder else loadBitmap);
        Enqueue(path, view);
      }
    }

    /** The item bound to the view, if any, is cancelled; the loader itself is untouched. */
    method CancelBound(view: ImageView)
      requires Valid()
      modifies if view in views then views[view].CancelFrame() else {}
      ensures Valid()
      ensures view in views ==> views[view].cancel
      ensures queue == old(queue) && views == old(views) && threads == old(threads)
      ensures size == old(size) && pause == old(pause) && loadBitmap == old(loadBitmap)
      ensures cache.memory == old(cache.memory) && view.shown == old(view.shown)
    {
      if view in views {
        var item := views[view];
        CancelFrameIsTheItems(item);
        item.Cancel();
        assert forall w :: w in queue ==> w.loader == this && w.image == NoImage;
        assert forall t :: t in threads ==> t.workItem == null;
      }
    }

    /** Cancelling an item touches the item and its own image objects, and nothing the loader holds besides. */
    lemma CancelFrameIsTheItems(item: WorkItem)
      ensures var frame := item.CancelFrame();
        this !in frame && cache !in frame && metas !in frame && metas.instance !in frame
        && (forall t :: t in threads ==> t !in frame)
        && (forall w :: w in queue && w != item ==> w !in frame)
    {
      var frame := item.CancelFrame();
      assert forall o :: o in frame ==> o == item || !(o is WorkItem);
    }

    /** A new item for the path is bound to the view and queued at the tail, in place of the view's old item. */
    method Enqueue(path: string, view: ImageView)
      requires Valid()
      modifies this`queue, this`views
      ensures Valid()
      ensures view in views && fresh(views[view]) && views[view].path == path
      ensures views == old(views)[view := views[view]]
      ensures queue == Requeued(old(queue), old(views), view, views[view])
    {
      var item := new WorkItem(this, view, path);
      RequeueKeepsIndexed(queue, views, view, item);
      if view in views {
        RemoveFirstFromDistinct(queue, views[view]);
      }
      queue := Requeued(queue, views, view, item);
      views := views[view := item];
    }

    /**
     * One pass of a worker's loop: a stopped worker does nothing; an empty
     * queue or a pause means waiting, so nothing is taken; otherwise the head
     * item is taken and run, and whatever it throws is caught.
     */
    method WorkerStep(t: nat, inputs: RunInputs) returns (taken: WorkItem?, o: Option<Outcome>)
      requires Valid() && t < |threads|
      modifies this, threads[t], if |queue| > 0 then {queue[0]} else {}, cache, fs, metas, metas.instance, inFlight
      ensures Valid()
      ensures threads == old(threads) && views == old(views) && pause == old(pause) && size == old(size)
      ensures loadBitmap == old(loadBitmap) && threads[t].stop == old(threads[t].stop)
      ensures old(threads[t].stop) || old(|queue|) == 0 || pause ==>
        taken == null && o == None && queue == old(queue)
        && unchanged(cache, fs, metas, inFlight) && (metas.instance != null ==> unchanged(metas.instance))
        && (old(|queue|) > 0 ==> unchanged(old(queue[0])))
      ensures !(old(threads[t].stop) || old(|queue|) == 0 || pause) ==>
        taken == old(queue[0]) && queue == old(queue[1..]) && o.Some?
        && taken.bitmapOptions != null && fresh(taken.bitmapOptions)
        && taken.Ran(o.value, inputs, old(queue[0].StartOf(inputs)))
        && (taken.image.Remote? ==> fresh(taken.image.http))
        && (taken.image.Local? ==> fresh(taken.image.local))
    {
      var worker := threads[t];
      if worker.stop || |queue| == 0 || pause {
        return null, None;
      }
      taken := Dequeue();
      ghost var s := taken.StartOf(inputs);
      var outcome := Work(worker, taken, inputs, s);
      o := Some(outcome);
    }

    /** The head of the queue is taken off it; it has not run and is queued no more. */
    method Dequeue() returns (item: WorkItem)
      requires Valid() && |queue| > 0
      modifies this`queue
      ensures Valid()
      ensures item == old(queue[0]) && queue == old(queue[1..])
      ensures item !in queue && item.loader == this && item.image == NoImage
    {
      DequeueKeepsIndexed(queue, views);
      item := queue[0];
      queue := queue[1..];
    }

    /** A worker holds the item it took while the item runs, and lets go of it afterwards. */
    method Work(worker: WorkThread, item: WorkItem, inputs: RunInputs, ghost s: Start) returns (o: Outcome)
      requires item.loader == this && item.image == NoImage && item.Ready()
      requires s == item.StartOf(inputs)
      modifies worker, item, cache, fs, metas, metas.instance, inFlight
      ensures worker.workItem == null && worker.stop == old(worker.stop) && item.Ready()
      ensures item.bitmapOptions != null && fresh(item.bitmapOptions)
      ensures item.Ran(o, inputs, s)
      ensures item.image.Remote? ==> fresh(item.image.http)
      ensures item.image.Local? ==> fresh(item.image.local)
    {
      worker.Hold(item);
      o := item.Run(inputs, s);
      Finish(worker, item, o, inputs, s);
    }

    /** The worker lets go of the item it ran, which keeps what the run did. */
    method Finish(worker: WorkThread, item: WorkItem, o: Outcome, inputs: RunInputs, ghost s: Start)
      requires item.Ran(o, inputs, s)
      modifies worker`workItem
      ensures worker.workItem == null
      ensures item.Ran(o, inputs, s)
    {
      worker.Release();
    }

    /** destory: every worker quits, and the map and the queue are emptied. */
    method Destroy()
      requires Valid()
      modifies this, threads
      ensures Valid()
      ensures queue == [] && views == map[] && threads == old(threads)
      ensures pause == old(pause) && size == old(size) && loadBitmap == old(loadBitmap)
      ensures forall t :: t in threads ==> t.stop
    {
      var i := 0;
      while i < |threads|
        modifies threads
        invariant 0 <= i <= |threads|
        invariant forall j :: 0 <= j < i ==> threads[j].stop
        invariant forall t :: t in threads ==> t.workItem == null
      {
        threads[i].Quit();
        i := i + 1;
      }
      views := map[];
      queue := [];
    }

    method SetLoadBitmap(d: Option<Drawable>)
      modifies this`loadBitmap
      ensures loadBitmap == d
    {
      loadBitmap := d;
    }

    /** setImageSize(int): a square. */
    method SetImageSize(side: int)
      modifies this`size
      ensures size.Some? && size.value.width == side && size.value.height == side
    {
      size := Some(Dimen(side, side));
    }

    /** setImageSize(int, int). */
    method SetImageWidthHeight(width: int, height: int)
      modifies this`size
      ensures size == Some(Dimen(width, height))
    {
      size := Some(Dimen(width, height));
    }

    /**
     * setPause: the flag is set; resuming then calls notifyAll without
     * holding the queue's monitor, which throws IllegalMonitorStateException
     * to the caller (`raised`).
     */
    method SetPause(p: bool) returns (raised: bool)
      modifies this`pause
      ensures pause == p && raised == !p
    {
      pause := p;
      raised := !p;
    }
  }
}
