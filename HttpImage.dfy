/**
 * HttpImage.java: an image fetched over HTTP into a file, then decoded from
 * that file as a LocalImage; plus the getImage memo it inherits from
 * Image.java. The static state the download touches (the file system, the
 * Meta store singleton and the in-flight URL map) is handed to it.
 */
module HttpImage {
  import opened Wrappers
  import opened Platform
  import opened Image
  import opened TempMetaFile
  import opened DefaultDownloader
  import opened UniqueURLDownloader
  import opened LocalImage

  /** The Metas a new DefaultDownloader works with: those of the existing store, or those read from its file. */
  ghost function StoreEntries(instance: TempMetaFile?, stored: StoredMeta): map<string, Meta>
    reads instance
  {
    if instance == null then Loaded(stored) else instance.entries
  }

  class HttpImage {
    const file: FilePath
    const conn: Connection
    const size: Option<Dimen>
    const options: Options
    const fs: FileSystem
    const metas: MetaRegistry
    const inFlight: InFlight
    var cancel: bool
    var downloader: UniqueURLDownloader?
    var image: LocalImage?
    /** Image's private bitmap field: the memo. */
    var bitmap: Bitmap?

    /** The five-argument constructor: null options are replaced by new ones. */
    constructor (file: FilePath, conn: Connection, size: Option<Dimen>, options: Options?,
                 fs: FileSystem, metas: MetaRegistry, inFlight: InFlight)
      ensures this.file == file && this.conn == conn && this.size == size
      ensures this.fs == fs && this.metas == metas && this.inFlight == inFlight
      ensures options != null ==> this.options == options
      ensures options == null ==> fresh(this.options) && !this.options.cancelRequested
      ensures !cancel && downloader == null && image == null && bitmap == null
    {
      this.file := file;
      this.conn := conn;
      this.size := size;
      if options == null {
        this.options := new Options();
      } else {
        this.options := options;
      }
      this.fs := fs;
      this.metas := metas;
      this.inFlight := inFlight;
      cancel := false;
      downloader := null;
      image := null;
      bitmap := null;
    }

    /** The four-argument constructor: new options. */
    constructor WithSize(file: FilePath, conn: Connection, size: Option<Dimen>,
                         fs: FileSystem, metas: MetaRegistry, inFlight: InFlight)
      ensures this.file == file && this.conn == conn && this.size == size
      ensures this.fs == fs && this.metas == metas && this.inFlight == inFlight
      ensures fresh(options) && !options.cancelRequested
      ensures !cancel && downloader == null && image == null && bitmap == null
    {
      this.file := file;
      this.conn := conn;
      this.size := size;
      options := new Options();
      this.fs := fs;
      this.metas := metas;
      this.inFlight := inFlight;
      cancel := false;
      downloader := null;
      image := null;
      bitmap := null;
    }

    /** The three-argument constructor: no size and new options. */
    constructor Plain(file: FilePath, conn: Connection, fs: FileSystem, metas: MetaRegistry, inFlight: InFlight)
      ensures this.file == file && this.conn == conn && size == None
      ensures this.fs == fs && this.metas == metas && this.inFlight == inFlight
      ensures fresh(options) && !options.cancelRequested
      ensures !cancel && downloader == null && image == null && bitmap == null
    {
      this.file := file;
      this.conn := conn;
      size := None;
      options := new Options();
      this.fs := fs;
      this.metas := metas;
      this.inFlight := inFlight;
      cancel := false;
      downloader := null;
      image := null;
      bitmap := null;
    }

    /** The Meta store, when it exists, agrees with its file. */
    ghost predicate Ready()
      reads metas, metas.instance
    {
      metas.instance != null ==> metas.instance.Valid()
    }

    /** What cancel may change. */
    ghost function CancelFrame(): set<object>
      reads this, image
    {
      {this}
      + (if downloader != null then {downloader.downloader, downloader.downloader.conn} else {})
      + (if image != null then image.CancelFrame() else {})
    }

    /**
     * What generateImage gives and leaves as the image and the files, from
     * the state before it: null, no new image and no file touched when it was
     * cancelled or the URL was already in flight, and the stored Metas
     * (`entriesAfter`) as they were; otherwise the files and the stored Metas
     * of one download attempt, where an exception is passed on, false gives
     * null, and true decodes the file as an image at this size with these
     * options.
     */
    ghost predicate Generated(o: Outcome, image: LocalImage?, decodable: bool, wasCancelled: bool, wasInFlight: bool,
                              filesBefore: map<string, seq<Byte>>, entries: map<string, Meta>, imageBefore: LocalImage?,
                              entriesAfter: map<string, Meta>)
      reads fs, if o.Made? && o.bitmap != null then {o.bitmap} else {}
    {
      if wasCancelled || wasInFlight then
        o == Made(null) && image == imageBefore && fs.files == filesBefore && entriesAfter == entries
      else
        var a := Fetch(filesBefore, file.Path(), TempPathOf(file), entries, conn.url, conn.reply, false);
        fs.files == a.files && entriesAfter == a.metas
        && (a.result == Threw ==> o == Raised && image == imageBefore)
        && (a.result == Returned(false) ==> o == Made(null) && image == imageBefore)
        && (a.result == Returned(true) ==>
              image != null && image.file == file.Path() && image.size == size
              && image.options == options && Thumbnail(o, size, decodable))
    }

    /**
     * generateImage: once cancelled, null and no downloader. Otherwise a new
     * UniqueURLDownloader around a new DefaultDownloader for this connection
     * and file runs, and the outcome is as Generated says; a new image is a
     * fresh LocalImage.
     * `stored` is what the Meta store file holds, read if the store is new.
     */
    method GenerateImage(decodable: bool, stored: StoredMeta) returns (o: Outcome)
      requires Ready()
      modifies this`downloader, this`image, conn, metas, metas.instance, inFlight, fs
      ensures Ready()
      ensures Generated(o, image, decodable, old(cancel), conn.url in old(inFlight.running), old(fs.files),
                        old(StoreEntries(metas.instance, stored)), old(image), StoreEntries(metas.instance, stored))
      ensures inFlight.running == old(inFlight.running)
      ensures image != old(image) ==> image != null && fresh(image)
      ensures old(cancel) ==> downloader == old(downloader)
      ensures !old(cancel) ==>
        downloader != null && fresh(downloader) && fresh(downloader.downloader)
        && downloader.registry == inFlight
        && downloader.downloader.conn == conn && downloader.downloader.diskFile == file
    {
      if cancel {
        return Made(null);
      }
      var r := Download(stored);
      if r == Threw {
        return Raised;
      }
      if r == Returned(true) {
        var l := new LocalImage(file.Path(), size, options);
        image := l;
        o := l.GetImage(decodable);
      } else {
        o := Made(null);
      }
    }

    /**
     * The download step of generateImage: a new UniqueURLDownloader around a
     * new DefaultDownloader for this connection and file is kept and run; a
     * URL already in flight gives false and leaves the files and the stored
     * Metas alone, any other gives the result, the files and the stored Metas
     * of one download attempt. Either way the URL is in flight afterwards only
     * if it was before.
     */
    method Download(stored: StoredMeta) returns (r: DownloadResult)
      requires Ready()
      modifies this`downloader, conn, metas, metas.instance, inFlight, fs
      ensures Ready()
      ensures downloader != null && fresh(downloader) && fresh(downloader.downloader)
        && downloader.registry == inFlight
        && downloader.downloader.conn == conn && downloader.downloader.diskFile == file
      ensures inFlight.running == old(inFlight.running)
      ensures conn.url in old(inFlight.running) ==>
        r == Returned(false) && fs.files == old(fs.files)
        && StoreEntries(metas.instance, stored) == old(StoreEntries(metas.instance, stored))
      ensures conn.url !in old(inFlight.running) ==>
        var a := Fetch(old(fs.files), file.Path(), TempPathOf(file),
                       old(StoreEntries(metas.instance, stored)), conn.url, conn.reply, false);
        r == a.result && fs.files == a.files && StoreEntries(metas.instance, stored) == a.metas
    {
      var d := new DefaultDownloader(conn, file, fs, metas, stored);
      var u := new UniqueURLDownloader(inFlight, d);
      downloader := u;
      r := u.Download();
    }

    /**
     * getImage: the memo of Image.java around GenerateImage. A usable memo is
     * returned with nothing else touched; otherwise the outcome, the image,
     * the files and the downloader are GenerateImage's, and a bitmap result
     * becomes the memo.
     */
    method GetImage(decodable: bool, stored: StoredMeta) returns (o: Outcome)
      requires Ready()
      modifies this`bitmap, this`downloader, this`image, conn, metas, metas.instance, inFlight, fs
      ensures Ready()
      ensures old(Usable(bitmap)) ==>
        o == Made(old(bitmap)) && bitmap == old(bitmap) && downloader == old(downloader)
        && image == old(image) && fs.files == old(fs.files)
      ensures !old(Usable(bitmap)) ==>
        Generated(o, image, decodable, old(cancel), conn.url in old(inFlight.running), old(fs.files),
                  old(StoreEntries(metas.instance, stored)), old(image), StoreEntries(metas.instance, stored))
      ensures inFlight.running == old(inFlight.running)
      ensures image != old(image) ==> image != null && fresh(image)
      ensures !old(Usable(bitmap)) && old(cancel) ==> downloader == old(downloader)
      ensures !old(Usable(bitmap)) && !old(cancel) ==>
        downloader != null && fresh(downloader) && fresh(downloader.downloader)
        && downloader.registry == inFlight
        && downloader.downloader.conn == conn && downloader.downloader.diskFile == file
      ensures !old(Usable(bitmap)) ==>
        (o.Made? && o.bitmap != null ==> bitmap == o.bitmap)
        && (!(o.Made? && o.bitmap != null) ==> bitmap == old(bitmap))
    {
      if bitmap != null && !bitmap.recycled {
        return Made(bitmap);
      }
      o := GenerateImage(decodable, stored);
      if o.Made? && o.bitmap != null {
        bitmap := o.bitmap;
      }
    }

    /** cancel: sets the flag and forwards to the downloader and the inner image, when each exists. */
    method Cancel()
      modifies CancelFrame()
      ensures cancel && downloader == old(downloader) && image == old(image) && bitmap == old(bitmap)
      ensures downloader != null ==> downloader.downloader.conn.disconnected
      ensures image != null ==> image.cancel && image.options.cancelRequested
    {
      cancel := true;
      if downloader != null {
        downloader.Cancel();
      }
      if image != null {
        image.Cancel();
      }
    }
  }
}
