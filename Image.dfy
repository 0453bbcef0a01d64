/**
 * Image.java: the value types the image classes share. `Image.Size` is the
 * class callers know as `Image.Dimen`: a width and a height. The getImage
 * memo and destory, which Image gives every subclass, are written out in
 * each of LocalImage and HttpImage.
 */
module Image {
  import opened Wrappers
  import opened Platform
  import opened JavaLang

  /** A width and a height. */
  datatype Dimen = Dimen(width: int, height: int)

  /** The one-argument Size constructor: a square. */
  function Square(size: int): (d: Dimen)
    ensures d.width == size && d.height == size
  {
    Dimen(size, size)
  }

  /** What generateImage or getImage gives: a bitmap, null, or an exception. */
  datatype Outcome = Made(bitmap: Bitmap?) | Raised

  /** A returned bitmap that can be drawn. */
  predicate Delivers(o: Outcome)
    reads if o.Made? && o.bitmap != null then {o.bitmap} else {}
  {
    o.Made? && Usable(o.bitmap)
  }

  /**
   * BitmapUtils.getThumbnail called with the size's width and height, when
   * the platform can (`decodable`) or cannot decode the file: reading the
   * width of a null size throws; a decoded image is drawn into a new bitmap of
   * exactly the requested size, which the platform refuses for a side that is
   * not positive; an undecodable file gives null. For an undecodable file
   * this is the scale search as corrected (BitmapUtils.ThumbnailScaleOrGiveUp):
   * as written it never ends when the int product of the sides is not
   * positive (BitmapUtils.ScaleSearchNeverEnds).
   */
  ghost predicate Thumbnail(o: Outcome, size: Option<Dimen>, decodable: bool)
    reads if o.Made? && o.bitmap != null then {o.bitmap} else {}
  {
    if size.None? then o == Raised
    else if !decodable then o == Made(null)
    else if size.value.width <= 0 || size.value.height <= 0 then o == Raised
    else Delivers(o) && o.bitmap.width == size.value.width && o.bitmap.height == size.value.height
  }

  /**
   * A thumbnail bitmap comes only from a decodable file, is live, and has
   * exactly the requested positive size; an exception means a null size, or
   * a decodable file and a side that is not positive.
   */
  lemma ThumbnailShape(o: Outcome, size: Option<Dimen>, decodable: bool)
    requires Thumbnail(o, size, decodable)
    ensures o.Made? && o.bitmap != null ==>
      decodable && size.Some? && !o.bitmap.recycled
      && o.bitmap.width == size.value.width > 0 && o.bitmap.height == size.value.height > 0
    ensures o == Raised ==> size.None? || (decodable && (size.value.width <= 0 || size.value.height <= 0))
  {
  }
}
