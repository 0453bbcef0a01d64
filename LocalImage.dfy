/**
 * LocalImage.java: an image decoded from a file on the device, at a given
 * size, with a cancel flag; plus the getImage memo and destory it inherits
 * from Image.java.
 */
module LocalImage {
  import opened Wrappers
  import opened Platform
  import opened Image

  class LocalImage {
    const file: string
    const size: Option<Dimen>
    const options: Options
    var cancel: bool
    /** Image's private bitmap field: the memo. */
    var bitmap: Bitmap?

    /** The four-argument constructor: null options are replaced by new ones. */
    constructor (file: string, size: Option<Dimen>, options: Options?)
      ensures this.file == file && this.size == size
      ensures options != null ==> this.options == options
      ensures options == null ==> fresh(this.options) && !this.options.cancelRequested
      ensures !cancel && bitmap == null
    {
      this.file := file;
      this.size := size;
      if options == null {
        this.options := new Options();
      } else {
        this.options := options;
      }
      cancel := false;
      bitmap := null;
    }

    /** The three-argument constructor: new options. */
    constructor WithSize(file: string, size: Option<Dimen>)
      ensures this.file == file && this.size == size
      ensures fresh(options) && !options.cancelRequested
      ensures !cancel && bitmap == null
    {
      this.file := file;
      this.size := size;
      options := new Options();
      cancel := false;
      bitmap := null;
    }

    /** The two-argument constructor: no size and new options. */
    constructor Plain(file: string)
      ensures this.file == file && size == None
      ensures fresh(options) && !options.cancelRequested
      ensures !cancel && bitmap == null
    {
      this.file := file;
      size := None;
      options := new Options();
      cancel := false;
      bitmap := null;
    }

    /** What cancel may change. */
    ghost function CancelFrame(): set<object>
      reads this
    {
      {this, options} + (if bitmap != null then {bitmap} else {})
    }

    /** generateImage: null once cancelled, otherwise the thumbnail at the given size. */
    method GenerateImage(decodable: bool) returns (o: Outcome)
      ensures cancel ==> o == Made(null)
      ensures !cancel ==> Thumbnail(o, size, decodable)
      ensures o.Made? && o.bitmap != null ==> fresh(o.bitmap)
    {
      if cancel {
        return Made(null);
      }
      if size == None {
        return Raised;
      }
      if !decodable {
        return Made(null);
      }
      if size.value.width <= 0 || size.value.height <= 0 {
        return Raised;
      }
      var b := new Bitmap(size.value.width, size.value.height);
      o := Made(b);
    }

    /**
     * getImage: a usable memo is returned without generating; otherwise the
     * generated result is returned, and becomes the memo only when it is a
     * bitmap.
     */
    method GetImage(decodable: bool) returns (o: Outcome)
      modifies this`bitmap
      ensures old(Usable(bitmap)) ==> o == Made(old(bitmap)) && bitmap == old(bitmap)
      ensures !old(Usable(bitmap)) ==>
        (cancel ==> o == Made(null)) && (!cancel ==> Thumbnail(o, size, decodable))
        && (o.Made? && o.bitmap != null ==> fresh(o.bitmap) && bitmap == o.bitmap)
        && (!(o.Made? && o.bitmap != null) ==> bitmap == old(bitmap))
    {
      if bitmap != null && !bitmap.recycled {
        return Made(bitmap);
      }
      o := GenerateImage(decodable);
      if o.Made? && o.bitmap != null {
        bitmap := o.bitmap;
      }
    }

    /**
     * destory as written: recycle is called only on a bitmap that is already
     * recycled, so a live bitmap is never recycled by it.
     */
    method Destroy() returns (ghost recycleCalled: bool)
      modifies if bitmap != null then {bitmap} else {}
      ensures recycleCalled <==> bitmap != null && old(bitmap.recycled)
      ensures bitmap != null ==> bitmap.recycled == old(bitmap.recycled)
    {
      recycleCalled := false;
      if bitmap != null && bitmap.recycled {
        bitmap.Recycle();
        recycleCalled := true;
      }
    }

    /** cancel: sets the flag, asks the decoder to stop, then destory. */
    method Cancel()
      modifies CancelFrame()
      ensures cancel && options.cancelRequested && bitmap == old(bitmap)
      ensures bitmap != null ==> bitmap.recycled == old(bitmap.recycled)
    {
      cancel := true;
      options.RequestCancelDecode();
      var _ := Destroy();
    }
  }
}
