/**
 * Stand-ins for the Java and Android collaborators the library drives:
 * java.io.File paths and the file system, an HttpURLConnection whose answer
 * is given up front, android.graphics.Bitmap, BitmapFactory.Options,
 * ImageView and Drawable. Only the state the library reads or changes is kept.
 */
module Platform {
  import opened Wrappers

  newtype Byte = b: int | 0 <= b < 256

  /** `new File(parent, name)`: a name inside a directory. */
  datatype FilePath = FilePath(parent: string, name: string) {
    function Path(): string {
      parent + "/" + name
    }
  }

  /** The files that exist, with their contents, keyed by path. */
  class FileSystem {
    var files: map<string, seq<Byte>>

    constructor (files: map<string, seq<Byte>>)
      ensures this.files == files
    {
      this.files := files;
    }
  }

  /**
   * What the server does with a request: the connection cannot be made
   * (connect throws), or it answers with a status code, the ETag header (null
   * when absent), getLastModified() (0 when absent), getContentLength() (-1
   * when absent) and a body that arrives as the chunks successive reads
   * return; `broken` means the read after the last chunk throws instead of
   * reporting the end of the stream.
   */
  datatype Reply =
    | Unreachable
    | Answer(status: int, etag: Option<string>, lastModified: int, contentLength: int,
             body: seq<seq<Byte>>, broken: bool)

  /** An HttpURLConnection for one URL. */
  class Connection {
    const url: string
    const reply: Reply
    var rangeHeader: Option<string>
    var connected: bool
    var disconnected: bool

    constructor (url: string, reply: Reply)
      ensures this.url == url && this.reply == reply
      ensures rangeHeader == None && !connected && !disconnected
    {
      this.url := url;
      this.reply := reply;
      rangeHeader := None;
      connected := false;
      disconnected := false;
    }

    method SetRange(header: string)
      modifies this
      ensures rangeHeader == Some(header)
      ensures connected == old(connected) && disconnected == old(disconnected)
    {
      rangeHeader := Some(header);
    }

    /** connect(): succeeds exactly when the server can be reached. */
    method Connect() returns (ok: bool)
      modifies this
      ensures ok <==> reply.Answer?
      ensures connected == ok
      ensures rangeHeader == old(rangeHeader) && disconnected == old(disconnected)
    {
      ok := reply.Answer?;
      connected := ok;
    }

    method Disconnect()
      modifies this
      ensures disconnected && !connected
      ensures rangeHeader == old(rangeHeader)
    {
      disconnected := true;
      connected := false;
    }
  }

  /** A decoded image; recycle() frees its pixels and may be called again harmlessly. */
  class Bitmap {
    const width: int
    const height: int
    var recycled: bool

    constructor (width: int, height: int)
      ensures this.width == width && this.height == height && !recycled
    {
      this.width := width;
      this.height := height;
      recycled := false;
    }

    method Recycle()
      modifies this
      ensures recycled
    {
      recycled := true;
    }
  }

  /** A bitmap that can still be drawn: present and not recycled. */
  predicate Usable(b: Bitmap?)
    reads b
  {
    b != null && !b.recycled
  }

  /** BitmapFactory.Options; only its cancel request matters here. */
  class Options {
    var cancelRequested: bool

    constructor ()
      ensures !cancelRequested
    {
      cancelRequested := false;
    }

    method RequestCancelDecode()
      modifies this
      ensures cancelRequested
    {
      cancelRequested := true;
    }
  }

  /** A placeholder drawable, by identity. */
  datatype Drawable = Drawable(id: nat)

  /** What an ImageView shows. */
  datatype Shown = ShowsBitmap(bitmap: Bitmap) | ShowsDrawable(drawable: Option<Drawable>)

  class ImageView {
    var shown: Shown

    constructor (shown: Shown)
      ensures this.shown == shown
    {
      this.shown := shown;
    }
  }
}
