/**
 * DefaultDownloader.java: a resumable download of one URL into one file.
 * The bytes go to `<file>.temp`; a request carries `Range: bytes=<temp
 * length>-`; a 200 answer restarts the temp file, a 206 answer (section 4.1 of
 * RFC 7233) appends to it when the validators stored for the URL are
 * compatible with the new ones; on completion the temp file is renamed.
 *
 * Fetch is the whole attempt as a function of the state before it; the
 * method Download is proved to have exactly that effect.
 */
module DefaultDownloader {
  import opened Wrappers
  import opened Platform
  import opened TempMetaFile
  import opened Range

  /** The DownloadListener callbacks, in the order they are made. */
  datatype Event = Started | Transferred(loaded: int, total: int) | Succeeded | Cancelled

  /** download()'s outcome: it returns a boolean or throws an IOException. */
  datatype DownloadResult = Returned(done: bool) | Threw

  /** Events reach the log only when a listener is set. */
  function Log(listener: bool, events: seq<Event>): seq<Event> {
    if listener then events else []
  }

  /** `new Meta(conn.getHeaderField("ETag"), conn.getLastModified(), conn.getContentLength())`. */
  function MetaOf(reply: Reply): (m: Meta)
    requires reply.Answer?
    ensures m.lastModify.Some? && m.contentLength.Some?
  {
    Meta(reply.etag, Some(reply.lastModified), Some(reply.contentLength))
  }

  /**
   * How the answer is taken: Some(false) restarts the temp file, Some(true)
   * appends to it, None gives the download up.
   */
  function Decide(status: int, stored: Option<Meta>, latest: Meta): (d: Option<bool>)
    ensures d == Some(false) <==> status == 200
    ensures d == Some(true) <==> status == 206 && (stored.None? || Compatible(latest, stored.value))
  {
    if status == 200 then Some(false)
    else if status == 206 && (stored.None? || latest.Check(stored.value)) then Some(true)
    else None
  }

  /** The bytes of the chunks, in order. */
  function Flatten(chunks: seq<seq<Byte>>): seq<Byte> {
    if |chunks| == 0 then [] else Flatten(chunks[..|chunks| - 1]) + chunks[|chunks| - 1]
  }

  /** One Transferred event per chunk, carrying the running count that starts at startPos. */
  function Progress(startPos: int, total: int, chunks: seq<seq<Byte>>): seq<Event> {
    if |chunks| == 0 then []
    else Progress(startPos, total, chunks[..|chunks| - 1]) + [Transferred(startPos + |Flatten(chunks)|, total)]
  }

  /** Where an attempt leaves things. */
  datatype Attempt = Attempt(
    result: DownloadResult,
    files: map<string, seq<Byte>>,
    metas: map<string, Meta>,
    events: seq<Event>,
    header: Option<string>,
    disconnected: bool)

  /** The file holding the validators, next to the downloaded file. */
  function MetaFileOf(diskFile: FilePath): FilePath {
    FilePath(diskFile.parent, "mengleloader.meta")
  }

  function TempPathOf(diskFile: FilePath): string {
    diskFile.Path() + ".temp"
  }

  /** One call of download(), from the files, the stored Metas and the server's answer. */
  function Fetch(files: map<string, seq<Byte>>, disk: string, temp: string, metas: map<string, Meta>,
                 url: string, reply: Reply, listener: bool): (a: Attempt)
    ensures a.header.Some? <==> disk !in files
    ensures a.result == Returned(true) ==> disk in a.files
    ensures a.result == Returned(false) ==>
      temp in a.files && a.files == files[temp := a.files[temp]] && a.metas == metas
      && (temp in files ==> a.files[temp] == files[temp])
  {
    if disk in files then Attempt(Returned(true), files, metas, [], None, false)
    else
      var stored := if temp in files && url in metas then Some(metas[url]) else None;
      var base := if temp in files then files[temp] else [];
      Request(files[temp := base], disk, temp, stored, metas, url, reply, listener)
  }

  /**
   * The part of download() after the temp file exists: the request for the
   * bytes from its length on, the decision on the answer and the transfer.
   * `stored` is the Meta consulted; it is None when the temp file was new.
   */
  function Request(files: map<string, seq<Byte>>, disk: string, temp: string, stored: Option<Meta>,
                   metas: map<string, Meta>, url: string, reply: Reply, listener: bool): (a: Attempt)
    requires temp in files
    ensures a.header.Some?
    ensures listener ==> |a.events| >= 1 && a.events[0] == Started
    ensures !listener ==> a.events == []
    ensures a.result == Returned(false) ==> a.files == files && a.metas == metas && !a.disconnected
    ensures a.result == Returned(true) ==> disk in a.files
  {
    var base := files[temp];
    var header := Some(Header(Open(|base|)));
    if reply.Unreachable? then Attempt(Threw, files, metas, Log(listener, [Started]), header, false)
    else
      var latest := MetaOf(reply);
      match Decide(reply.status, stored, latest)
      case None => Attempt(Returned(false), files, metas, Log(listener, [Started]), header, false)
      case Some(append) =>
        var a := Accepted(files, disk, temp, append, metas, url, reply, listener);
        a.(events := Log(listener, [Started]) + a.events, header := header)
  }

  /**
   * An accepted answer: its Meta is stored, the temp file is truncated unless
   * the answer is appended, the body is received, and on completion the temp
   * file becomes the downloaded file and the Meta is dropped. The events are
   * those after Started.
   */
  function Accepted(files: map<string, seq<Byte>>, disk: string, temp: string, append: bool,
                    metas: map<string, Meta>, url: string, reply: Reply, listener: bool): (a: Attempt)
    requires temp in files && reply.Answer?
    ensures a.disconnected && a.result != Returned(false)
    ensures a.result == Threw <==> reply.broken
    ensures reply.broken ==>
      temp in a.files && a.metas == metas[url := MetaOf(reply)] && (append ==> files[temp] <= a.files[temp])
    ensures !reply.broken ==>
      disk in a.files && url !in a.metas && (append ==> files[temp] <= a.files[disk])
      && (disk != temp ==> temp !in a.files)
  {
    var base := files[temp];
    var latest := MetaOf(reply);
    var written := (if append then base else []) + Flatten(reply.body);
    var progress := Progress(|base|, reply.contentLength + |base|, reply.body);
    if reply.broken then
      Attempt(Threw, files[temp := written], metas[url := latest], Log(listener, progress), None, true)
    else
      Attempt(Returned(true), (files - {temp})[disk := written], metas[url := latest] - {url},
              Log(listener, progress + [Succeeded]), None, true)
  }

  // ---------------------------------------------------------------------
  // Properties of one attempt

  /** A file that is already downloaded is reported done; nothing is requested, written or stored. */
  lemma FetchDiskHit(files: map<string, seq<Byte>>, disk: string, temp: string, metas: map<string, Meta>,
                     url: string, reply: Reply, listener: bool)
    requires disk in files
    ensures var a := Fetch(files, disk, temp, metas, url, reply, listener);
      a.result == Returned(true) && a.files == files && a.metas == metas
      && a.events == [] && a.header == None && !a.disconnected
  {
  }

  /**
   * The request asks for the bytes from the temp file's length on; when the
   * temp file is new no stored Meta is consulted, so any 206 answer is taken.
   */
  lemma FetchAsksFromTempLength(files: map<string, seq<Byte>>, disk: string, temp: string,
                                metas: map<string, Meta>, url: string, reply: Reply, listener: bool)
    requires disk !in files && disk != temp
    ensures var a := Fetch(files, disk, temp, metas, url, reply, listener);
      a.header == Some(Header(Open(if temp in files then |files[temp]| else 0)))
    ensures temp !in files && reply.Answer? && reply.status == 206 ==>
      Fetch(files, disk, temp, metas, url, reply, listener).result != Returned(false)
  {
  }

  /** A status other than 200 and 206 gives up before any byte or Meta is written. */
  lemma FetchFailsOnOtherStatus(files: map<string, seq<Byte>>, disk: string, temp: string,
                                metas: map<string, Meta>, url: string, reply: Reply, listener: bool)
    requires disk !in files && reply.Answer? && reply.status != 200 && reply.status != 206
    ensures var a := Fetch(files, disk, temp, metas, url, reply, listener);
      a.result == Returned(false) && a.metas == metas && a.files == files[temp := a.files[temp]]
      && temp in a.files && a.files[temp] == (if temp in files then files[temp] else [])
      && a.events == Log(listener, [Started])
  {
  }

  /**
   * Resume rejection: a 206 answer whose validators do not match those stored
   * for a partial file gives up; nothing is appended and the store is untouched.
   */
  lemma FetchRejectsChangedEntity(files: map<string, seq<Byte>>, disk: string, temp: string,
                                  metas: map<string, Meta>, url: string, reply: Reply, listener: bool)
    requires disk !in files && temp in files && url in metas
    requires reply.Answer? && reply.status == 206 && !MetaOf(reply).Check(metas[url])
    ensures var a := Fetch(files, disk, temp, metas, url, reply, listener);
      a.result == Returned(false) && a.files == files && a.metas == metas
      && forall e :: e in a.events ==> !e.Transferred?
  {
  }

  /** Flatten distributes over concatenation. */
  lemma {:induction false} FlattenAppend(xs: seq<seq<Byte>>, ys: seq<seq<Byte>>)
    ensures Flatten(xs + ys) == Flatten(xs) + Flatten(ys)
    decreases |ys|
  {
    if |ys| == 0 {
      assert xs + ys == xs;
    } else {
      var init := ys[..|ys| - 1];
      assert (xs + ys)[..|xs + ys| - 1] == xs + init;
      FlattenAppend(xs, init);
    }
  }

  /**
   * Resume correctness: with a temp file holding the first L bytes of the
   * remote entity, compatible (or no) stored validators and a complete 206
   * answer carrying the remaining bytes, the downloaded file is the whole
   * entity, the temp file and the stored Meta are gone, and the last progress
   * event reports the entity's length.
   */
  lemma {:induction false} FetchResumeCompletes(files: map<string, seq<Byte>>, disk: string, temp: string,
                                                metas: map<string, Meta>, url: string, reply: Reply,
                                                remote: seq<Byte>, L: nat)
    requires disk !in files && disk != temp && temp in files
    requires L <= |remote| && files[temp] == remote[..L]
    requires reply.Answer? && reply.status == 206 && !reply.broken
    requires url !in metas || MetaOf(reply).Check(metas[url])
    requires Flatten(reply.body) == remote[L..] && |reply.body| > 0
    ensures var a := Fetch(files, disk, temp, metas, url, reply, true);
      a.result == Returned(true) && disk in a.files && a.files[disk] == remote
      && temp !in a.files && url !in a.metas
      && a.events[|a.events| - 2] == Transferred(|remote|, reply.contentLength + L)
  {
    assert remote[..L] + remote[L..] == remote;
    var body := reply.body;
    var p := Progress(L, reply.contentLength + L, body);
    assert p[|p| - 1] == Transferred(L + |Flatten(body)|, reply.contentLength + L);
    var evs := [Started] + p + [Succeeded];
    assert evs[|evs| - 2] == p[|p| - 1];
  }

  /**
   * A 200 answer restarts the file from its first byte, whatever the temp file
   * held, while the running count still starts at the old temp length.
   */
  lemma FetchRestartsOn200(files: map<string, seq<Byte>>, disk: string, temp: string,
                           metas: map<string, Meta>, url: string, reply: Reply)
    requires disk !in files && disk != temp
    requires reply.Answer? && reply.status == 200 && !reply.broken && |reply.body| > 0
    ensures var a := Fetch(files, disk, temp, metas, url, reply, true);
      var L := if temp in files then |files[temp]| else 0;
      a.result == Returned(true) && a.files[disk] == Flatten(reply.body)
      && a.events[|a.events| - 2] == Transferred(L + |Flatten(reply.body)|, reply.contentLength + L)
  {
    var L := if temp in files then |files[temp]| else 0;
    var base := if temp in files then files[temp] else [];
    var stored := if temp in files && url in metas then Some(metas[url]) else None;
    var f := files[temp := base];
    assert Fetch(files, disk, temp, metas, url, reply, true) == Request(f, disk, temp, stored, metas, url, reply, true);
    assert Decide(reply.status, stored, MetaOf(reply)) == Some(false);
    var p := Progress(L, reply.contentLength + L, reply.body);
    var acc := Accepted(f, disk, temp, false, metas, url, reply, true);
    assert [] + Flatten(reply.body) == Flatten(reply.body);
    assert acc.files == (f - {temp})[disk := Flatten(reply.body)];
    assert acc.events == p + [Succeeded];
    assert Request(f, disk, temp, stored, metas, url, reply, true)
        == acc.(events := [Started] + acc.events, header := Some(Header(Open(L))));
    var evs := [Started] + p + [Succeeded];
    assert evs[|evs| - 2] == p[|p| - 1];
  }

  /**
   * An interrupted transfer leaves what it received in the temp file and the
   * new Meta stored, so that a later attempt answered with 206 whose
   * validators the stored Meta accepts (the same ETag, say, while its length
   * counts only the rest) asks for the rest and appends it.
   */
  lemma {:induction false} InterruptedThenResumed(files: map<string, seq<Byte>>, disk: string, temp: string,
                                                  metas: map<string, Meta>, url: string,
                                                  first: Reply, second: Reply, listener: bool)
    requires disk !in files && disk != temp
    requires first.Answer? && first.broken && first.status == 200
    requires second.Answer? && second.status == 206 && !second.broken
    requires MetaOf(second).Check(MetaOf(first))
    ensures var a := Fetch(files, disk, temp, metas, url, first, listener);
      var b := Fetch(a.files, disk, temp, a.metas, url, second, listener);
      a.result == Threw && a.files[temp] == Flatten(first.body)
      && b.header == Some(Header(Open(|Flatten(first.body)|)))
      && b.result == Returned(true)
      && b.files[disk] == Flatten(first.body) + Flatten(second.body)
  {
    var a := Fetch(files, disk, temp, metas, url, first, listener);
    assert a.files[temp] == Flatten(first.body);
    assert a.metas[url] == MetaOf(first);
    assert Decide(second.status, Some(a.metas[url]), MetaOf(second)) == Some(true);
  }

  /**
   * Every progress event counts at least the start position and at most the
   * start position plus the bytes received, and the counts never go down.
   */
  lemma {:induction false} ProgressBounded(startPos: int, total: int, chunks: seq<seq<Byte>>)
    ensures |Progress(startPos, total, chunks)| == |chunks|
    ensures forall i :: 0 <= i < |chunks| ==>
      var e := Progress(startPos, total, chunks)[i];
      e.Transferred? && e.total == total && startPos <= e.loaded <= startPos + |Flatten(chunks)|
    ensures forall i, j :: 0 <= i < j < |chunks| ==>
      Progress(startPos, total, chunks)[i].loaded <= Progress(startPos, total, chunks)[j].loaded
    decreases |chunks|
  {
    if |chunks| > 0 {
      var init := chunks[..|chunks| - 1];
      ProgressBounded(startPos, total, init);
      assert Flatten(chunks) == Flatten(init) + chunks[|chunks| - 1];
    }
  }

  /** fireCancel as written: the listener hears success, not cancel. */
  function CancelEventsAsWritten(listener: bool): seq<Event> {
    Log(listener, [Succeeded])
  }

  /** fireCancel as intended: the listener hears cancel. */
  function CancelEvents(listener: bool): seq<Event> {
    Log(listener, [Cancelled])
  }

  /** Cancelling a download that has a listener reports success, and no cancel, to it. */
  lemma CancelAsWrittenReportsSuccess()
    ensures CancelEventsAsWritten(true) == [Succeeded]
    ensures Cancelled !in CancelEventsAsWritten(true)
  {
  }

  /** The intended cancel never reports success, and reports cancel exactly when a listener is set. */
  lemma CancelReportsCancel(listener: bool)
    ensures Succeeded !in CancelEvents(listener)
    ensures Cancelled in CancelEvents(listener) <==> listener
  {
  }

  class DefaultDownloader {
    const conn: Connection
    const diskFile: FilePath
    const store: TempMetaFile
    const fs: FileSystem
    var listener: bool
    var events: seq<Event>

    /** The constructor fetches the process-wide store kept next to the file. */
    constructor (conn: Connection, diskFile: FilePath, fs: FileSystem, metas: MetaRegistry, stored: StoredMeta)
      requires metas.instance != null ==> metas.instance.Valid()
      modifies metas
      ensures this.conn == conn && this.diskFile == diskFile && this.fs == fs
      ensures store == metas.instance && store.Valid()
      ensures old(metas.instance) != null ==> store == old(metas.instance)
      ensures old(metas.instance) == null ==>
        fresh(store) && store.metaFile == MetaFileOf(diskFile) && store.entries == Loaded(stored)
      ensures !listener && events == []
    {
      var s := metas.GetInstance(MetaFileOf(diskFile), stored);
      this.conn := conn;
      this.diskFile := diskFile;
      this.fs := fs;
      store := s;
      listener := false;
      events := [];
    }

    function GetURL(): string {
      conn.url
    }

    function TempPath(): string {
      TempPathOf(diskFile)
    }

    method SetDownloadListener(on: bool)
      modifies this`listener
      ensures listener == on
    {
      listener := on;
    }

    method Fire(e: Event)
      modifies this`events
      ensures events == old(events) + Log(listener, [e])
    {
      if listener {
        events := events + [e];
      }
    }

    /** cancel: disconnects, then reports the cancellation (intended form; see CancelEventsAsWritten). */
    method Cancel()
      modifies this`events, conn
      ensures conn.disconnected && conn.rangeHeader == old(conn.rangeHeader)
      ensures events == old(events) + CancelEvents(listener)
    {
      conn.Disconnect();
      Fire(Cancelled);
    }

    /** The read loop: each chunk is appended to the temp file and reported with the running count. */
    method Receive(temp: string, chunks: seq<seq<Byte>>, startPos: int, total: int)
      requires temp in fs.files
      modifies fs, this`events
      ensures temp in fs.files && fs.files[temp] == old(fs.files[temp]) + Flatten(chunks)
      ensures fs.files == old(fs.files)[temp := fs.files[temp]]
      ensures events == old(events) + Log(listener, Progress(startPos, total, chunks))
    {
      var loaded := startPos;
      var i := 0;
      assert old(fs.files[temp]) + Flatten(chunks[..0]) == old(fs.files[temp]);
      while i < |chunks|
        invariant 0 <= i <= |chunks|
        invariant temp in fs.files && fs.files[temp] == old(fs.files[temp]) + Flatten(chunks[..i])
        invariant fs.files == old(fs.files)[temp := fs.files[temp]]
        invariant loaded == startPos + |Flatten(chunks[..i])|
        invariant events == old(events) + Log(listener, Progress(startPos, total, chunks[..i]))
      {
        var chunk := chunks[i];
        assert chunks[..i + 1][..i] == chunks[..i];
        fs.files := fs.files[temp := fs.files[temp] + chunk];
        loaded := loaded + |chunk|;
        Fire(Transferred(loaded, total));
        i := i + 1;
      }
      assert chunks[..i] == chunks;
    }

    method Download() returns (r: DownloadResult)
      requires store.Valid()
      modifies this`events, conn, store, fs
      ensures store.Valid()
      ensures var a := Fetch(old(fs.files), diskFile.Path(), TempPath(), old(store.entries), GetURL(),
                             conn.reply, listener);
        r == a.result && fs.files == a.files && store.entries == a.metas
        && events == old(events) + a.events
        && conn.rangeHeader == (if a.header.Some? then a.header else old(conn.rangeHeader))
        && conn.disconnected == (a.disconnected || old(conn.disconnected))
    {
      if diskFile.Path() in fs.files {
        return Returned(true);
      }
      var temp := TempPath();
      var stored: Option<Meta> := None;
      if temp !in fs.files {
        fs.files := fs.files[temp := []];
      } else {
        stored := store.Get(GetURL());
        assert fs.files == fs.files[temp := fs.files[temp]];
      }
      assert Fetch(old(fs.files), diskFile.Path(), temp, store.entries, GetURL(), conn.reply, listener)
          == Request(fs.files, diskFile.Path(), temp, stored, store.entries, GetURL(), conn.reply, listener);
      r := Exchange(temp, stored);
    }

    /** download() from the Range header on; see Request. */
    method Exchange(temp: string, stored: Option<Meta>) returns (r: DownloadResult)
      requires store.Valid() && temp in fs.files
      modifies this`events, conn, store, fs
      ensures store.Valid()
      ensures var a := Request(old(fs.files), diskFile.Path(), temp, stored, old(store.entries), GetURL(),
                               conn.reply, listener);
        r == a.result && fs.files == a.files && store.entries == a.metas
        && events == old(events) + a.events
        && conn.rangeHeader == a.header
        && conn.disconnected == (a.disconnected || old(conn.disconnected))
    {
      var startPos := |fs.files[temp]|;
      var range := Open(startPos);
      Fire(Started);
      conn.SetRange(Header(range));
      var connected := conn.Connect();
      if !connected {
        return Threw;
      }
      var reply := conn.reply;
      var append: bool;
      if reply.status == 200 {
        append := false;
      } else if reply.status == 206 && (stored == None || MetaOf(reply).Check(stored.value)) {
        append := true;
      } else {
        return Returned(false);
      }
      r := Accept(temp, append);
    }

    /** download() once the answer is taken; see Accepted. */
    method Accept(temp: string, append: bool) returns (r: DownloadResult)
      requires store.Valid() && temp in fs.files && conn.reply.Answer?
      modifies this`events, conn, store, fs
      ensures store.Valid()
      ensures var a := Accepted(old(fs.files), diskFile.Path(), temp, append, old(store.entries), GetURL(),
                                conn.reply, listener);
        r == a.result && fs.files == a.files && store.entries == a.metas
        && events == old(events) + a.events
        && conn.rangeHeader == old(conn.rangeHeader) && conn.disconnected
    {
      Transfer(temp, append);
      if conn.reply.broken {
        conn.Disconnect();
        return Threw;
      }
      Complete(temp);
      r := Returned(true);
    }

    /**
     * The new Meta is stored, the temp file is opened for appending or
     * truncated, and the body is copied into it with a progress event per chunk.
     */
    method Transfer(temp: string, append: bool)
      requires store.Valid() && temp in fs.files && conn.reply.Answer?
      modifies this`events, store, fs
      ensures store.Valid() && store.entries == old(store.entries)[GetURL() := MetaOf(conn.reply)]
      ensures fs.files == old(fs.files)[temp := (if append then old(fs.files[temp]) else []) + Flatten(conn.reply.body)]
      ensures var start := |old(fs.files[temp])|;
        events == old(events) + Log(listener, Progress(start, conn.reply.contentLength + start, conn.reply.body))
    {
      var reply := conn.reply;
      var startPos := |fs.files[temp]|;
      store.Put(GetURL(), MetaOf(reply));
      var total := reply.contentLength + startPos;
      if !append {
        fs.files := fs.files[temp := []];
      }
      Receive(temp, reply.body, startPos, total);
    }

    /**
     * The end of the stream: the temp file becomes the downloaded file,
     * success is reported, the Meta is dropped, and the connection is closed.
     */
    method Complete(temp: string)
      requires store.Valid() && temp in fs.files
      modifies this`events, conn, store, fs
      ensures store.Valid() && store.entries == old(store.entries) - {GetURL()}
      ensures fs.files == (old(fs.files) - {temp})[diskFile.Path() := old(fs.files[temp])]
      ensures events == old(events) + Log(listener, [Succeeded])
      ensures conn.rangeHeader == old(conn.rangeHeader) && conn.disconnected
    {
      var content := fs.files[temp];
      fs.files := (fs.files - {temp})[diskFile.Path() := content];
      Fire(Succeeded);
      store.Remove(GetURL());
      conn.Disconnect();
    }
  }
}
