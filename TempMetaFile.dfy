/**
 * TempMetaFile.java: the validators recorded for each partially downloaded
 * URL (ETag and Last-Modified, sections 2.3 and 2.2 of RFC 7232, plus the
 * content length), kept as a map that is written out whole to one file after
 * every change, and a process-wide instance.
 */
module TempMetaFile {
  import opened Wrappers
  import opened Platform

  /** Meta: each field is a boxed value that may be null. */
  datatype Meta = Meta(etag: Option<string>, lastModify: Option<int>, contentLength: Option<int>) {

    /**
     * check: the receiver's ETag is present and equal to the other's, or its
     * Last-Modified and content length are both present and equal to the
     * other's. Equality is equality of values.
     */
    predicate Check(other: Meta): (ok: bool)
      ensures ok ==> (etag.Some? && other.etag.Some?)
                     || (lastModify.Some? && other.lastModify.Some? && contentLength.Some? && other.contentLength.Some?)
    {
      (etag.Some? && etag == other.etag)
      || (lastModify.Some? && other.lastModify == lastModify
          && contentLength.Some? && other.contentLength == contentLength)
    }

    /**
     * check as line 51 writes it: `==` on a boxed Long or Integer compares
     * references. Boxes made by separate boxing conversions (the stored Meta
     * was boxed by an earlier download or by deserialisation, the new one by
     * this one) are the same object only when the value lies in the box
     * cache, -128..127.
     */
    predicate CheckAsWritten(other: Meta): (ok: bool)
      ensures ok ==> Check(other)
      ensures ok && (etag.None? || etag != other.etag) ==>
        InBoxCache(lastModify.value) && InBoxCache(contentLength.value)
    {
      (etag.Some? && etag == other.etag)
      || (lastModify.Some? && SameBox(other.lastModify, lastModify)
          && contentLength.Some? && SameBox(other.contentLength, contentLength))
    }
  }

  predicate InBoxCache(v: int) {
    -128 <= v <= 127
  }

  predicate SameBox(x: Option<int>, y: Option<int>) {
    (x.None? && y.None?) || (x.Some? && y.Some? && x.value == y.value && InBoxCache(x.value))
  }

  /** Two Metas describe the same remote entity: equal ETags, or equal Last-Modified and length. */
  predicate Compatible(a: Meta, b: Meta) {
    (a.etag.Some? && b.etag.Some? && a.etag.value == b.etag.value)
    || (a.lastModify.Some? && b.lastModify.Some? && a.lastModify.value == b.lastModify.value
        && a.contentLength.Some? && b.contentLength.Some? && a.contentLength.value == b.contentLength.value)
  }

  /** check decides exactly the compatibility of the two Metas, and in either order. */
  lemma CheckIsCompatibility(a: Meta, b: Meta)
    ensures a.Check(b) <==> Compatible(a, b)
    ensures a.Check(b) <==> b.Check(a)
  {
  }

  /** A Meta whose Last-Modified and length are present is compatible with itself. */
  lemma CheckReflexive(m: Meta)
    requires m.lastModify.Some? && m.contentLength.Some?
    ensures m.Check(m)
  {
  }

  /** A Meta without any validator is compatible with nothing. */
  lemma CheckNeedsAValidator(a: Meta, b: Meta)
    requires a.etag.None? && (a.lastModify.None? || a.contentLength.None?)
    ensures !a.Check(b)
  {
  }

  /** The reference comparison can only reject what the value comparison accepts. */
  lemma CheckAsWrittenIsStricter(a: Meta, b: Meta)
    ensures a.CheckAsWritten(b) ==> a.Check(b)
  {
  }

  /**
   * Two Metas with no ETag and identical, realistic Last-Modified and length
   * values: check as written rejects them, the value comparison accepts them.
   */
  lemma CheckAsWrittenRejectsEqualTimestamps()
    ensures var m := Meta(None, Some(1372636800000), Some(5000));
      !m.CheckAsWritten(m) && m.Check(m)
  {
  }

  /** What the store file holds when it is read. */
  datatype StoredMeta = Missing | Empty | Corrupt | Holds(entries: map<string, Meta>)

  /** init: a missing, empty or unreadable file gives an empty map, never a failure. */
  function Loaded(f: StoredMeta): (m: map<string, Meta>)
    ensures f.Holds? ==> m == f.entries
    ensures !f.Holds? ==> m == map[]
  {
    if f.Holds? then f.entries else map[]
  }

  class TempMetaFile {
    const metaFile: FilePath
    var entries: map<string, Meta>
    /** The content of the store file. */
    var file: StoredMeta

    /** Reading the store file back gives exactly the map in memory. */
    ghost predicate Valid()
      reads this
    {
      Loaded(file) == entries
    }

    /** The private constructor and init: a missing file is created empty, then the file is read. */
    constructor (metaFile: FilePath, stored: StoredMeta)
      ensures Valid()
      ensures this.metaFile == metaFile
      ensures entries == Loaded(stored)
      ensures file == if stored.Missing? then Empty else stored
    {
      this.metaFile := metaFile;
      file := if stored.Missing? then Empty else stored;
      entries := Loaded(stored);
    }

    /** get: the Meta stored under the key, or null. */
    function Get(key: string): (m: Option<Meta>)
      reads this
      ensures m.Some? <==> key in entries
      ensures m.Some? ==> m.value == entries[key]
    {
      if key in entries then Some(entries[key]) else None
    }

    /** save: the whole map is written out. */
    method Save()
      modifies this
      ensures file == Holds(entries) && entries == old(entries)
      ensures Valid()
    {
      file := Holds(entries);
    }

    method Put(key: string, meta: Meta)
      modifies this
      ensures entries == old(entries)[key := meta]
      ensures Get(key) == Some(meta)
      ensures forall k :: k != key ==> Get(k) == old(Get(k))
      ensures file == Holds(entries) && Valid()
    {
      entries := entries[key := meta];
      Save();
    }

    method Remove(key: string)
      modifies this
      ensures entries == old(entries) - {key}
      ensures Get(key) == None
      ensures forall k :: k != key ==> Get(k) == old(Get(k))
      ensures file == Holds(entries) && Valid()
    {
      entries := entries - {key};
      Save();
    }

    method Clear()
      modifies this
      ensures entries == map[]
      ensures file == Holds(map[]) && Valid()
    {
      entries := map[];
      Save();
    }
  }

  /** The static `instance` field and getInstance. */
  class MetaRegistry {
    var instance: TempMetaFile?

    constructor ()
      ensures instance == null
    {
      instance := null;
    }

    /** The first call creates the instance from its file; every later call returns that same instance. */
    method GetInstance(metaFile: FilePath, stored: StoredMeta) returns (t: TempMetaFile)
      modifies this
      ensures instance == t
      ensures old(instance) != null ==> t == old(instance)
      ensures old(instance) == null ==>
        fresh(t) && t.metaFile == metaFile && t.entries == Loaded(stored) && t.Valid()
    {
      if instance == null {
        instance := new TempMetaFile(metaFile, stored);
      }
      t := instance;
    }
  }
}
