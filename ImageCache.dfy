/**
 * ImageCache.java: the two-tier bitmap cache. A memory tier keyed by path,
 * and a disk tier of compressed files named by the Java hash code of the path
 * and size; both are filled put-if-absent. One instance serves the process.
 */
module ImageCache {
  import opened Wrappers
  import opened JavaLang
  import opened Platform
  import opened Image

  /** Bitmap.CompressFormat, named as its toString names it. */
  datatype CompressFormat = JPEG | PNG | WEBP

  function FormatName(f: CompressFormat): string {
    match f
    case JPEG => "JPEG"
    case PNG => "PNG"
    case WEBP => "WEBP"
  }

  /** CacheParams; a null diskDir means the default directory. */
  datatype CacheParams = CacheParams(cacheSize: int, diskDir: Option<string>, format: CompressFormat, quality: int)

  /** `new CacheParams()`. */
  function DefaultParams(): (p: CacheParams)
    ensures p.cacheSize == 20 * 1024 * 1024 && p.diskDir == None && p.format == JPEG && p.quality == 90
  {
    CacheParams(20 * 1024 * 1024, None, JPEG, 90)
  }

  /**
   * getDiskCacheDir(context, "imageloader"): the application's directory
   * under external storage; java.io.File drops the trailing separator of
   * ".../cache/" before the name is appended.
   */
  function DefaultDiskDir(externalStorage: string, packageName: string): string {
    externalStorage + "/Android/data/" + packageName + "/cache" + "/" + "imageloader"
  }

  /** The string getFileName hashes: the name, then "_<width>*<height>" when a size is given. */
  function CacheKey(name: string, size: Option<Dimen>): (k: string)
    ensures name <= k
    ensures k == name <==> size.None?
  {
    name + (if size.Some? then "_" + IntToDecimal(size.value.width) + "*" + IntToDecimal(size.value.height) else "")
  }

  /** getFileName: an int in decimal that reads back as the hash code of the key. */
  function FileName(name: string, size: Option<Dimen>): (f: string)
    ensures ParseInt(f) == Some(HashCode(CacheKey(name, size)))
    ensures IsInt(HashCode(CacheKey(name, size)))
  {
    ParseIntInverts(HashCode(CacheKey(name, size)));
    IntToDecimal(HashCode(CacheKey(name, size)))
  }

  /**
   * Different paths can share a disk file: "Aa" and "BB" have the same hash
   * code, so an image cached for one is read back for the other.
   */
  lemma DistinctPathsCanShareFileName()
    ensures "Aa" != "BB" && FileName("Aa", None) == FileName("BB", None)
  {
    assert CacheKey("Aa", None) == "Aa" && CacheKey("BB", None) == "BB";
    assert "Aa"[..1] == "A" && "BB"[..1] == "B";
    assert "A"[..0] == [] && "B"[..0] == [];
    assert HashCode("A") == ToInt(65) == 65;
    assert HashCode("B") == ToInt(66) == 66;
    assert HashCode("Aa") == ToInt(31 * 65 + 97) == 2112;
    assert HashCode("BB") == ToInt(31 * 66 + 66) == 2112;
  }

  /** A map with v stored under k unless k already had a value. */
  function PutIfAbsent<K, V>(m: map<K, V>, k: K, v: V): map<K, V> {
    if k in m then m else m[k := v]
  }

  /** Put-if-absent keeps the first value: a second put under the same key changes nothing. */
  lemma FirstWriterWins<K, V>(m: map<K, V>, k: K, v1: V, v2: V)
    ensures k in PutIfAbsent(m, k, v1) && PutIfAbsent(m, k, v1)[k] == (if k in m then m[k] else v1)
    ensures PutIfAbsent(PutIfAbsent(m, k, v1), k, v2) == PutIfAbsent(m, k, v1)
    ensures forall j :: j != k && j in m ==> j in PutIfAbsent(m, k, v1) && PutIfAbsent(m, k, v1)[j] == m[j]
  {
  }

  class ImageCache {
    const params: CacheParams
    /** The disk directory after init: the given one or the default. */
    const diskDir: string
    const fs: FileSystem
    /** The LruCache, without eviction. */
    var memory: map<string, Bitmap>

    /** The private constructor and init. */
    constructor (params: CacheParams, externalStorage: string, packageName: string, fs: FileSystem)
      ensures this.params == params && this.fs == fs
      ensures diskDir == if params.diskDir.Some? then params.diskDir.value else DefaultDiskDir(externalStorage, packageName)
      ensures memory == map[]
    {
      this.params := params;
      diskDir := if params.diskDir.Some? then params.diskDir.value else DefaultDiskDir(externalStorage, packageName);
      this.fs := fs;
      memory := map[];
    }

    /** getDiskCacheFile: the file name and the format's name, inside the disk directory. */
    function DiskCacheFile(key: string, size: Option<Dimen>): (f: FilePath)
      ensures f.parent == diskDir
      ensures f.name == FileName(key, size) + "." + FormatName(params.format)
    {
      FilePath(diskDir, FileName(key, size) + "." + FormatName(params.format))
    }

    /** getBitmapFromMemoryCache: the size plays no part. */
    function MemoryLookup(key: string, size: Option<Dimen>): (b: Bitmap?)
      reads this
      ensures b != null <==> key in memory
      ensures key in memory ==> b == memory[key]
    {
      if key in memory then memory[key] else null
    }

    /** The memory tier answers by path alone: any two sizes give the same bitmap. */
    lemma MemoryLookupIgnoresSize(key: string, s1: Option<Dimen>, s2: Option<Dimen>)
      ensures MemoryLookup(key, s1) == MemoryLookup(key, s2)
      ensures MemoryLookup(key, s1) != null <==> key in memory
    {
    }

    /**
     * getBitmapFromDiskCache: null, with nothing touched, when the file for
     * the key and size is absent; otherwise what decoding it gives.
     */
    method GetBitmapFromDiskCache(key: string, size: Option<Dimen>, decoded: Bitmap?) returns (b: Bitmap?)
      ensures DiskCacheFile(key, size).Path() !in fs.files ==> b == null
      ensures DiskCacheFile(key, size).Path() in fs.files ==> b == decoded
    {
      var file := DiskCacheFile(key, size);
      if file.Path() in fs.files {
        return decoded;
      }
      b := null;
    }

    /** save: the file is created if needed and the compressed bitmap written to it. */
    method Save(file: FilePath, encoded: seq<Byte>)
      modifies fs
      ensures fs.files == old(fs.files)[file.Path() := encoded]
    {
      fs.files := fs.files[file.Path() := encoded];
    }

    /**
     * addBitmapFromCache: nothing for a bitmap that is null or recycled;
     * otherwise the memory tier takes it under the path and the disk tier
     * takes its compressed bytes under the path and the bitmap's own size,
     * each only if it has nothing there yet.
     */
    method AddBitmapFromCache(key: string, bitmap: Bitmap?, encoded: seq<Byte>)
      modifies this, fs
      ensures !old(Usable(bitmap)) ==> memory == old(memory) && fs.files == old(fs.files)
      ensures old(Usable(bitmap)) ==>
        memory == PutIfAbsent(old(memory), key, bitmap)
        && fs.files == PutIfAbsent(old(fs.files), DiskCacheFile(key, Some(Dimen(bitmap.width, bitmap.height))).Path(), encoded)
    {
      if bitmap != null && !bitmap.recycled {
        if key !in memory {
          memory := memory[key := bitmap];
        }
        var file := DiskCacheFile(key, Some(Dimen(bitmap.width, bitmap.height)));
        if file.Path() !in fs.files {
          Save(file, encoded);
        }
      }
    }
  }

  /**
   * A helper of ImageLoader.WorkItem.LocalRunIsCachedAtItsSize: the disk
   * file addBitmapFromCache keeps for a bitmap of size d, named by the
   * bitmap's own width and height, is the file a lookup at size d reads;
   * afterwards that file exists, and holds the new bytes unless it existed
   * already.
   */
  lemma ThumbnailIsFoundAtItsSize(c: ImageCache, key: string, b: Bitmap, d: Dimen,
                                  files: map<string, seq<Byte>>, encoded: seq<Byte>)
    requires b.width == d.width && b.height == d.height
    ensures var after := PutIfAbsent(files, c.DiskCacheFile(key, Some(Dimen(b.width, b.height))).Path(), encoded);
      c.DiskCacheFile(key, Some(d)).Path() in after
      && after[c.DiskCacheFile(key, Some(d)).Path()]
         == if c.DiskCacheFile(key, Some(d)).Path() in files then files[c.DiskCacheFile(key, Some(d)).Path()] else encoded
  {
  }

  /** The static instance and getInstance. */
  class CacheRegistry {
    var instance: ImageCache?

    constructor ()
      ensures instance == null
    {
      instance := null;
    }

    /** The first call creates the cache from its parameters; every later call returns that same cache. */
    method GetInstance(params: CacheParams, externalStorage: string, packageName: string, fs: FileSystem)
        returns (c: ImageCache)
      modifies this
      ensures instance == c
      ensures old(instance) != null ==> c == old(instance)
      ensures old(instance) == null ==>
        fresh(c) && c.params == params && c.fs == fs && c.memory == map[]
        && c.diskDir == if params.diskDir.Some? then params.diskDir.value else DefaultDiskDir(externalStorage, packageName)
    {
      if instance == null {
        instance := new ImageCache(params, externalStorage, packageName, fs);
      }
      c := instance;
    }

    /** getInstance(context): with the default parameters. */
    method GetDefaultInstance(externalStorage: string, packageName: string, fs: FileSystem) returns (c: ImageCache)
      modifies this
      ensures instance == c
      ensures old(instance) != null ==> c == old(instance)
      ensures old(instance) == null ==>
        fresh(c) && c.params == DefaultParams() && c.fs == fs && c.memory == map[]
        && c.diskDir == DefaultDiskDir(externalStorage, packageName)
    {
      c := GetInstance(DefaultParams(), externalStorage, packageName, fs);
    }
  }
}
