/**
 * UniqueURLDownloader.java: a wrapper that lets at most one download of a
 * URL run at a time. A process-wide map from URL to the running downloader is
 * consulted and updated under its lock; a download of a URL that is already
 * in the map gives up at once instead of waiting.
 */
module UniqueURLDownloader {
  import opened Platform
  import opened TempMetaFile
  import opened DefaultDownloader

  /** The static map of downloads in flight, keyed by URL. */
  class InFlight {
    var running: map<string, DefaultDownloader>

    constructor ()
      ensures running == map[]
    {
      running := map[];
    }
  }

  class UniqueURLDownloader {
    const registry: InFlight
    const downloader: DefaultDownloader

    constructor (registry: InFlight, downloader: DefaultDownloader)
      ensures this.registry == registry && this.downloader == downloader
    {
      this.registry := registry;
      this.downloader := downloader;
    }

    function GetURL(): string {
      downloader.GetURL()
    }

    /** The first synchronized block: claim the URL unless a download of it is in flight. */
    method Acquire() returns (claimed: bool)
      modifies registry
      ensures claimed <==> GetURL() !in old(registry.running)
      ensures claimed ==> registry.running == old(registry.running)[GetURL() := downloader]
      ensures !claimed ==> registry.running == old(registry.running)
    {
      if GetURL() in registry.running {
        return false;
      }
      registry.running := registry.running[GetURL() := downloader];
      claimed := true;
    }

    /** The finally block: the URL is released whether the download returned or threw. */
    method Release()
      modifies registry
      ensures registry.running == old(registry.running) - {GetURL()}
    {
      registry.running := registry.running - {GetURL()};
    }

    /**
     * A URL already in flight gives false and touches nothing; otherwise the
     * wrapped download runs, its result (or exception) is passed on, and the
     * URL is in flight again only as before the call.
     */
    method Download() returns (r: DownloadResult)
      requires downloader.store.Valid()
      modifies registry, downloader`events, downloader.conn, downloader.store, downloader.fs
      ensures GetURL() in old(registry.running) ==>
        r == Returned(false) && registry.running == old(registry.running)
        && downloader.events == old(downloader.events) && downloader.fs.files == old(downloader.fs.files)
        && downloader.store.entries == old(downloader.store.entries)
        && unchanged(downloader.conn)
      ensures GetURL() !in old(registry.running) ==>
        var a := Fetch(old(downloader.fs.files), downloader.diskFile.Path(), downloader.TempPath(),
                       old(downloader.store.entries), GetURL(), downloader.conn.reply, downloader.listener);
        r == a.result && registry.running == old(registry.running)
        && downloader.fs.files == a.files && downloader.store.entries == a.metas
        && downloader.events == old(downloader.events) + a.events
        && downloader.conn.rangeHeader == (if a.header.Some? then a.header else old(downloader.conn.rangeHeader))
        && downloader.conn.disconnected == (a.disconnected || old(downloader.conn.disconnected))
      ensures downloader.store.Valid()
    {
      var claimed := Acquire();
      if !claimed {
        return Returned(false);
      }
      r := downloader.Download();
      Release();
    }

    method Cancel()
      modifies downloader`events, downloader.conn
      ensures downloader.conn.disconnected
      ensures downloader.events == old(downloader.events) + CancelEvents(downloader.listener)
    {
      downloader.Cancel();
    }
  }

  /**
   * Two wrappers for the same URL share the registry, and the second starts
   * while the first holds the URL: the second gives false without touching
   * the downloader, the first then runs to its end, and the URL is free again.
   */
  method OverlappingDownloads(first: UniqueURLDownloader, second: UniqueURLDownloader)
      returns (r1: DownloadResult, r2: DownloadResult)
    requires first.registry == second.registry && first.GetURL() == second.GetURL()
    requires first.GetURL() !in first.registry.running
    requires first.downloader.store.Valid() && second.downloader.store.Valid()
    requires first.downloader != second.downloader
    modifies first.registry, first.downloader`events, first.downloader.conn, first.downloader.store,
             first.downloader.fs, second.downloader`events, second.downloader.conn,
             second.downloader.store, second.downloader.fs
    ensures r2 == Returned(false)
    ensures first.GetURL() !in first.registry.running
    ensures second.downloader.events == old(second.downloader.events)
  {
    var claimed := first.Acquire();
    r2 := second.Download();
    r1 := first.downloader.Download();
    first.Release();
  }
}
