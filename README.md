# Android-ImageLoader in Dafny

A model of the core of Android-ImageLoader, a library that loads images into
Android `ImageView`s. It has four parts.

- **The loader.** `ImageLoader` keeps a FIFO queue of work items, a map from each view to the item last made for it, a pause flag and a pool of worker threads. `load` cancels the view's previous item. It then shows a bitmap from the memory cache, or queues a new item. A worker takes the head item and runs it. The item looks in the disk cache, and on a miss builds an `HttpImage` (for `http://` and `https://` paths) or a `LocalImage`. It posts a usable bitmap to the view and adds it to the cache.
- **The resumable download.** `DefaultDownloader` saves the bytes to `<file>.temp` and asks for `Range: bytes=<temp length>-`. A 200 answer restarts the file. A 206 answer appends, but only when the validators stored in `TempMetaFile` match the new ones. When the transfer completes, the temp file is renamed. `UniqueURLDownloader` lets only one download of a URL run at a time, through a process-wide map of URLs in flight.
- **The two-tier cache.** `ImageCache` keeps a memory map keyed by path. Its disk files are named by the Java `String.hashCode` of the path and size. Both tiers are filled put-if-absent.
- **The sizing arithmetic.** `BitmapUtils` computes the sample size, the decode scale and the centre crop.

Each Java file becomes one module of the same name. `JavaLang` holds the Java
SE behaviour the code relies on: int wrap-around, truncating division, decimal
rendering and `String.hashCode`. `Platform` holds stand-ins for the Java and
Android collaborators: files, the HTTP connection, `Bitmap`, `Options` and
`ImageView`.

Threads are not modelled. Every operation is one atomic step.
`ImageLoader.WorkerStep` is one pass of a worker's loop. Exceptions are
values: `DownloadResult.Threw` and `Outcome.Raised`.

The world is given as inputs:
- the server's answer, as a `Reply`;
- whether a file decodes;
- what the Meta store file holds;
- the bytes a bitmap compresses to.

Static singletons become registry objects that are passed in: `MetaRegistry`, `CacheRegistry` and `InFlight`.

`download()` is specified by pure functions, which it is proved to equal:
- `Fetch` is the whole call.
- `Request` is everything after the temp file exists.
- `Accepted` is everything after the answer is taken.

The lemmas about `Fetch` state the resume and restart behaviour.

The model follows the code, except for the three defects listed under "Findings": there the model uses the corrected value comparison in `check`, the corrected `fireCancel` and a thumbnail scale search that gives up when it could never end, and the as-written versions are modelled beside them.
Behaviours of the code that the model keeps as written:
- **The old item on a memory hit.** A memory-cache hit in `load` cancels the view's old item, but leaves it queued and mapped. A worker still runs it later; its posted update is dropped because its flag is set.
- **Progress after a restart.** On a 200 restart the running count still starts at the old temp length.
- **When a Meta is read.** The stored Meta is read whenever the temp file exists, even when it is empty.
- **No cancel check during the transfer.** The transfer loop never checks a cancel flag. Cancelling only disconnects, so the next read throws.
- **Completion order.** On completion, success is reported before the Meta is removed.
- **destory.** `Image.destory` recycles the bitmap only when it is already recycled. The model keeps that guard as written, so cancelling never recycles a live bitmap.
- **Resuming throws.** `setPause(false)` throws instead of waking the workers.
- **Duplicate URLs.** A duplicate URL in `UniqueURLDownloader` fails fast. Its class comment says such requests queue.
- **The Dimen class.** `Image.java` declares `Size`, while every caller uses `Image.Dimen`. Both are modelled as one datatype, `Image.Dimen`.

## Model

| member | source | states |
|---|---|---|
| JavaLang.ToInt | Library/src/com/github/zimengle/imageloader/BitmapUtils.java:63 | int arithmetic keeps an int that agrees with the exact value modulo 2^32, and is the exact value when that fits |
| JavaLang.Quot | Library/src/com/github/zimengle/imageloader/BitmapUtils.java:63 | Java's `/` truncates toward zero: floor division for a non-negative dividend, the negated quotient of the magnitude for a negative one |
| JavaLang.IntToDecimal | Library/src/com/github/zimengle/downloader/Range.java:14 | a long in decimal: a minus sign exactly for negatives, then at least one digit and no leading zero, so 0 is the only rendering that starts with 0 |
| JavaLang.ParseIntInverts | Library/src/com/github/zimengle/downloader/Range.java:14 | the decimal rendering of any integer parses back to that integer |
| JavaLang.HashCode | Library/src/com/github/zimengle/imageloader/ImageCache.java:180 | `String.hashCode` computed as h = 31*h + c in int arithmetic is always an int |
| JavaLang.HashCodeIsWrappedPolynomial | Library/src/com/github/zimengle/imageloader/ImageCache.java:180 | the step-by-step hash equals the Java-specified polynomial s[0]*31^(n-1)+...+s[n-1] reduced to an int |
| Range.Open | Library/src/com/github/zimengle/downloader/Range.java:10-12 | the one-argument constructor sets the start and leaves the end absent |
| Range.Bounded | Library/src/com/github/zimengle/downloader/Range.java:6-9 | the two-argument constructor sets both positions |
| Range.HeaderShape | Library/src/com/github/zimengle/downloader/Range.java:13-18 | the header starts with `bytes=` and has more after it, and it ends in `-` exactly when the range has no end |
| Range.HeaderForms | Library/src/com/github/zimengle/downloader/Range.java:13-18 | a worked example of the two forms: `bytes=` + start + `-`, and that followed by the end, so the open form is a proper prefix of the bounded one |
| Range.HeaderRoundTrip | Library/src/com/github/zimengle/downloader/Range.java:13-18 | the header determines the range: parsing it gives back start and end |
| TempMetaFile.CheckIsCompatibility | Library/src/com/github/zimengle/downloader/TempMetaFile.java:47-55 | check (by value) holds exactly when both ETags are present and equal, or both Last-Modified and both lengths are present and equal; it is symmetric |
| TempMetaFile.CheckReflexive | Library/src/com/github/zimengle/downloader/TempMetaFile.java:47-55 | a Meta with Last-Modified and length accepts itself |
| TempMetaFile.CheckNeedsAValidator | Library/src/com/github/zimengle/downloader/TempMetaFile.java:47-55 | a Meta without an ETag and without both of Last-Modified and length accepts nothing |
| TempMetaFile.CheckAsWrittenIsStricter | Library/src/com/github/zimengle/downloader/TempMetaFile.java:51 | the reference comparison on boxes only ever rejects what the value comparison accepts |
| TempMetaFile.CheckAsWrittenRejectsEqualTimestamps | Library/src/com/github/zimengle/downloader/TempMetaFile.java:51 | a Meta with a real timestamp and length is rejected by check as written and accepted by value |
| TempMetaFile.Meta.Check | Library/src/com/github/zimengle/downloader/TempMetaFile.java:47-55 | check (by value) accepts only a Meta that shares a validator with this one: both have an ETag, or both have Last-Modified and length |
| TempMetaFile.Meta.CheckAsWritten | Library/src/com/github/zimengle/downloader/TempMetaFile.java:47-55 | check as written accepts only what check by value accepts, and without a matching ETag only when both boxed values lie in the range Java caches, -128..127 |
| TempMetaFile.Loaded | Library/src/com/github/zimengle/downloader/TempMetaFile.java:99-128 | a missing, empty or corrupt store file gives an empty map, a readable one its map |
| TempMetaFile.TempMetaFile.constructor | Library/src/com/github/zimengle/downloader/TempMetaFile.java:80-129 | a missing file is created empty; the map is what the file holds, and the file agrees with it |
| TempMetaFile.TempMetaFile.Get | Library/src/com/github/zimengle/downloader/TempMetaFile.java:146-148 | the Meta stored under the key, null exactly when there is none |
| TempMetaFile.TempMetaFile.Save | Library/src/com/github/zimengle/downloader/TempMetaFile.java:177-199 | the whole map is written out, so the file reads back as the map |
| TempMetaFile.TempMetaFile.Put | Library/src/com/github/zimengle/downloader/TempMetaFile.java:136-139 | get(k) then gives m, every other key is unchanged, and the file agrees with the map |
| TempMetaFile.TempMetaFile.Remove | Library/src/com/github/zimengle/downloader/TempMetaFile.java:162-165 | get(k) then gives null, every other key is unchanged, and the file agrees with the map |
| TempMetaFile.TempMetaFile.Clear | Library/src/com/github/zimengle/downloader/TempMetaFile.java:153-156 | the map and the file are empty |
| TempMetaFile.MetaRegistry.GetInstance | Library/src/com/github/zimengle/downloader/TempMetaFile.java:65-74 | the first call creates the store from its file; every later call returns that same store, whatever file it names |
| DefaultDownloader.MetaOf | Library/src/com/github/zimengle/downloader/DefaultDownloader.java:82 | the new Meta always has Last-Modified and length (boxed from primitives) |
| DefaultDownloader.Decide | Library/src/com/github/zimengle/downloader/DefaultDownloader.java:83-91 | the status decides: 200 restarts the temp file, 206 appends exactly when no Meta is stored or the stored one checks against the new one, and anything else gives false |
| DefaultDownloader.Fetch | Library/src/com/github/zimengle/downloader/DefaultDownloader.java:57-125 | a request (with a Range header) is made exactly when the downloaded file is absent; true leaves the downloaded file present; false leaves the temp file present with its old bytes if it had any, and no other file and no Meta changed |
| DefaultDownloader.Request | Library/src/com/github/zimengle/downloader/DefaultDownloader.java:73-125 | the Range header is always sent; a listener hears start first, no listener hears nothing; false changes no file and no Meta and does not disconnect; true leaves the downloaded file present |
| DefaultDownloader.Accepted | Library/src/com/github/zimengle/downloader/DefaultDownloader.java:92-124 | the connection ends disconnected and the result is never false; it throws exactly when the body breaks; a break keeps the temp file and stores the new Meta, keeping the old bytes when appending; completion leaves the downloaded file (starting with the old bytes when appending), and removes the temp file and the Meta |
| DefaultDownloader.FetchDiskHit | Library/src/com/github/zimengle/downloader/DefaultDownloader.java:59-62 | an existing file gives true with no request, no event, no file or Meta change and no disconnect |
| DefaultDownloader.FetchAsksFromTempLength | Library/src/com/github/zimengle/downloader/DefaultDownloader.java:66-78 | the Range header asks from the temp file's length (0 for a new one); with a new temp file no Meta is consulted, so a 206 answer is never refused |
| DefaultDownloader.FetchFailsOnOtherStatus | Library/src/com/github/zimengle/downloader/DefaultDownloader.java:83-91 | a status other than 200 and 206 gives false before any byte or Meta is written |
| DefaultDownloader.FetchRejectsChangedEntity | Library/src/com/github/zimengle/downloader/DefaultDownloader.java:86-91 | a 206 whose validators do not match the stored ones gives false, appends nothing and reports no progress |
| DefaultDownloader.FlattenAppend | Library/src/com/github/zimengle/downloader/DefaultDownloader.java:101-103 | the bytes written for two runs of chunks are those of the first followed by those of the second |
| DefaultDownloader.FetchResumeCompletes | Library/src/com/github/zimengle/downloader/DefaultDownloader.java:86-110 | a temp file holding the first L bytes plus a compatible complete 206 answer gives the whole entity; the temp file and Meta are gone, and the last progress event reports the full length |
| DefaultDownloader.FetchRestartsOn200 | Library/src/com/github/zimengle/downloader/DefaultDownloader.java:83-110 | a 200 answer rewrites the file from its first byte, while the running count still starts at the old temp length |
| DefaultDownloader.InterruptedThenResumed | Library/src/com/github/zimengle/downloader/DefaultDownloader.java:92-112 | an interrupted transfer keeps its bytes and its new Meta, so a later 206 whose validators the stored Meta accepts asks for the rest and completes the file |
| DefaultDownloader.ProgressBounded | Library/src/com/github/zimengle/downloader/DefaultDownloader.java:93-105 | one transfer event per chunk, each with total = length + start and a count between the start and the start plus the bytes received, never decreasing |
| DefaultDownloader.CancelAsWrittenReportsSuccess | Library/src/com/github/zimengle/downloader/DefaultDownloader.java:156-160 | fireCancel as written tells a listener success and never cancel |
| DefaultDownloader.CancelReportsCancel | Library/src/com/github/zimengle/downloader/DefaultDownloader.java:156-160 | the corrected fireCancel never reports success, and reports cancel exactly when a listener is set |
| DefaultDownloader.DefaultDownloader.constructor | Library/src/com/github/zimengle/downloader/DefaultDownloader.java:33-38 | the downloader uses the process-wide store, created from `mengleloader.meta` beside the file when it did not exist yet |
| DefaultDownloader.DefaultDownloader.SetDownloadListener | Library/src/com/github/zimengle/downloader/DefaultDownloader.java:40-42 | the listener is set |
| DefaultDownloader.DefaultDownloader.Fire | Library/src/com/github/zimengle/downloader/DefaultDownloader.java:135-154 | an event reaches the listener only when one is set |
| DefaultDownloader.DefaultDownloader.Cancel | Library/src/com/github/zimengle/downloader/DefaultDownloader.java:47-51 | the connection is disconnected and the cancellation reported |
| DefaultDownloader.DefaultDownloader.Receive | Library/src/com/github/zimengle/downloader/DefaultDownloader.java:99-105 | the loop appends every chunk to the temp file, touches no other file, and reports each running count |
| DefaultDownloader.DefaultDownloader.Download | Library/src/com/github/zimengle/downloader/DefaultDownloader.java:57-125 | the result, files, stored Metas, events, Range header and disconnection are exactly those of `Fetch`; the store keeps agreeing with its file |
| DefaultDownloader.DefaultDownloader.Exchange | Library/src/com/github/zimengle/downloader/DefaultDownloader.java:73-91 | the request and the decision on the answer have exactly the effect `Request` gives |
| DefaultDownloader.DefaultDownloader.Accept | Library/src/com/github/zimengle/downloader/DefaultDownloader.java:92-124 | storing the Meta, the transfer and the completion have exactly the effect `Accepted` gives, and the connection ends disconnected |
| DefaultDownloader.DefaultDownloader.Transfer | Library/src/com/github/zimengle/downloader/DefaultDownloader.java:92-105 | the new Meta is stored; the temp file becomes its old bytes (when appending) or nothing, followed by every chunk; one progress event per chunk, counted from the old length |
| DefaultDownloader.DefaultDownloader.Complete | Library/src/com/github/zimengle/downloader/DefaultDownloader.java:106-110 | the temp file's bytes move to the downloaded file and the temp file is gone; success is reported; the Meta is dropped; the connection is closed |
| UniqueURLDownloader.UniqueURLDownloader.constructor | Library/src/com/github/zimengle/downloader/UniqueURLDownloader.java:22-24 | the wrapper holds the downloader and the shared map |
| UniqueURLDownloader.UniqueURLDownloader.Acquire | Library/src/com/github/zimengle/downloader/UniqueURLDownloader.java:28-34 | the URL is claimed exactly when it was not in flight, and then maps to this downloader |
| UniqueURLDownloader.UniqueURLDownloader.Release | Library/src/com/github/zimengle/downloader/UniqueURLDownloader.java:38-42 | the URL is removed from the map |
| UniqueURLDownloader.UniqueURLDownloader.Download | Library/src/com/github/zimengle/downloader/UniqueURLDownloader.java:26-45 | a URL in flight gives false and leaves the map, the files, the Metas, the events and the connection as they were; otherwise the result (true, false or thrown), the files, the Metas, the events, the Range header and the disconnection are those of one `Fetch`, and the map is as before the call |
| UniqueURLDownloader.UniqueURLDownloader.Cancel | Library/src/com/github/zimengle/downloader/UniqueURLDownloader.java:47-49 | cancel is the wrapped downloader's |
| UniqueURLDownloader.OverlappingDownloads | Library/src/com/github/zimengle/downloader/UniqueURLDownloader.java:18-34 | the map is shared: a second wrapper for a URL the first holds gets false without touching its downloader, and the URL is free afterwards |
| Image.Square | Library/src/com/github/zimengle/imageloader/Image.java:29-32 | the one-argument size is a square |
| Image.ThumbnailShape | Library/src/com/github/zimengle/imageloader/BitmapUtils.java:167-235 | a bitmap thumbnail is of a decodable file, unrecycled and exactly the requested size with both sides positive; a throw comes only from a null size or, for a decodable file, a side of 0 or less |
| LocalImage.LocalImage.constructor | Library/src/com/github/zimengle/imageloader/LocalImage.java:33-41 | null options are replaced by new ones; not cancelled, no bitmap |
| LocalImage.LocalImage.WithSize | Library/src/com/github/zimengle/imageloader/LocalImage.java:43-45 | new options |
| LocalImage.LocalImage.Plain | Library/src/com/github/zimengle/imageloader/LocalImage.java:47-49 | no size and new options |
| LocalImage.LocalImage.GenerateImage | Library/src/com/github/zimengle/imageloader/LocalImage.java:51-58 | null once cancelled; otherwise the thumbnail: a null size throws, an undecodable file gives null, a decoded one a new bitmap of exactly the size |
| LocalImage.LocalImage.GetImage | Library/src/com/github/zimengle/imageloader/Image.java:61-73 | a usable memo is returned without generating; otherwise the generated result, which becomes the memo only when it is a bitmap |
| LocalImage.LocalImage.Destroy | Library/src/com/github/zimengle/imageloader/Image.java:78-82 | recycle is called exactly when the bitmap is already recycled, so a live bitmap is never recycled |
| LocalImage.LocalImage.Cancel | Library/src/com/github/zimengle/imageloader/LocalImage.java:63-72 | the flag and the decode cancel request are set; the memo is untouched |
| HttpImage.HttpImage.constructor | Library/src/com/github/zimengle/imageloader/HttpImage.java:46-55 | null options are replaced by new ones |
| HttpImage.HttpImage.WithSize | Library/src/com/github/zimengle/imageloader/HttpImage.java:58-60 | new options |
| HttpImage.HttpImage.Plain | Library/src/com/github/zimengle/imageloader/HttpImage.java:62-64 | no size and new options |
| HttpImage.HttpImage.GenerateImage | Library/src/com/github/zimengle/imageloader/HttpImage.java:67-80 | once cancelled: null, no downloader, no file change. Otherwise a new UniqueURLDownloader around a DefaultDownloader for this connection and file; a URL in flight gives null with no file change; the files follow `Fetch`; a throw is passed on; false gives null; true decodes a new LocalImage of the file at this size; the stored Metas are those `Fetch` leaves (unchanged without a download), and the URL map is as it was |
| HttpImage.HttpImage.Download | Library/src/com/github/zimengle/imageloader/HttpImage.java:70-72 | the new wrapper is kept as the image's downloader; a URL in flight gives false with the files untouched; otherwise the result, the files and the stored Metas are those of one `Fetch` from the Metas of the process-wide store; the URL map is as it was afterwards |
| HttpImage.HttpImage.GetImage | Library/src/com/github/zimengle/imageloader/Image.java:61-73 | a usable memo is returned with no download and nothing touched; otherwise the outcome, the image, the files and the stored Metas are exactly those `GenerateImage` gives, and a bitmap result becomes the memo; the URL map is as it was |
| HttpImage.HttpImage.Cancel | Library/src/com/github/zimengle/imageloader/HttpImage.java:83-91 | the flag is set, and the downloader and the inner image are cancelled when each exists; the memo bitmap, the downloader and the inner image are kept |
| BitmapUtils.InitialSampleSize | Library/src/com/github/zimengle/imageloader/BitmapUtils.java:25-49 | at least 1, exactly 1 with no minimum side, and an int |
| BitmapUtils.InitialSampleSizeIsLargestFit | Library/src/com/github/zimengle/imageloader/BitmapUtils.java:32-48 | with a minimum side m the size is the largest factor keeping both sides at least m (or 1) |
| BitmapUtils.ComputeSampleSize | Library/src/com/github/zimengle/imageloader/BitmapUtils.java:51-67 | up to 8: the smallest power of two at least the initial size; above 8: the smallest multiple of 8 at least it, or a negative int when initial+7 overflows |
| BitmapUtils.RoundUpByEight | Library/src/com/github/zimengle/imageloader/BitmapUtils.java:63 | `(n + 7) / 8 * 8` in int arithmetic is the multiple of 8 in [n, n+8) when n+7 fits in an int, and negative when it wraps |
| BitmapUtils.ThumbnailScale | Library/src/com/github/zimengle/imageloader/BitmapUtils.java:174-187 | the first scale from 1 at which the image area is at most the target area times scale squared, for inputs on which the loop ends |
| BitmapUtils.ScaleSearchNeverEnds | Library/src/com/github/zimengle/imageloader/BitmapUtils.java:183-187 | with a target area of 0 or less and an image area above it, no scale passes the loop's test, so the loop never ends |
| BitmapUtils.UndecodableAtWidthZeroNeverEnds | Library/src/com/github/zimengle/imageloader/BitmapUtils.java:174-187 | an undecodable file (sides -1 by -1, area 1) thumbnailed at 0 by 100 never leaves the loop |
| BitmapUtils.ThumbnailScaleOrGiveUp | Library/src/com/github/zimengle/imageloader/BitmapUtils.java:174-187 | gives up exactly when the loop would never end; otherwise the first scale from 1 at which the image area is at most the target area times scale squared |
| BitmapUtils.CentreCrop | Library/src/com/github/zimengle/imageloader/BitmapUtils.java:204-211 | the square side is the shorter side, the square lies inside the picture, one offset is 0, and the trim is split evenly up to one pixel |
| ImageCache.DefaultParams | Library/src/com/github/zimengle/imageloader/ImageCache.java:61-82 | 20 MiB, no directory, JPEG, quality 90 |
| ImageCache.FileName | Library/src/com/github/zimengle/imageloader/ImageCache.java:175-181 | the file name is an int in decimal that reads back as the hash code of the key |
| ImageCache.DistinctPathsCanShareFileName | Library/src/com/github/zimengle/imageloader/ImageCache.java:175-181 | the key is not injective: "Aa" and "BB" get the same disk file |
| ImageCache.CacheKey | Library/src/com/github/zimengle/imageloader/ImageCache.java:175-181 | the key extends the name, and is the name exactly when no size is given |
| ImageCache.FirstWriterWins | Library/src/com/github/zimengle/imageloader/ImageCache.java:123-133 | put-if-absent keeps an existing entry, a second put changes nothing, and other keys are untouched |
| ImageCache.ImageCache.constructor | Library/src/com/github/zimengle/imageloader/ImageCache.java:91-116 | the disk directory is the given one or `<storage>/Android/data/<package>/cache/imageloader`; the memory tier starts empty |
| ImageCache.ImageCache.DiskCacheFile | Library/src/com/github/zimengle/imageloader/ImageCache.java:189-192 | the file is the file name plus `.` and the format's name, inside the disk directory |
| ImageCache.ImageCache.MemoryLookup | Library/src/com/github/zimengle/imageloader/ImageCache.java:141-143 | a bitmap exactly when the path is in the memory tier, and then the one stored under it |
| ImageCache.ImageCache.MemoryLookupIgnoresSize | Library/src/com/github/zimengle/imageloader/ImageCache.java:141-143 | the memory lookup answers by path alone, whatever the size |
| ImageCache.ImageCache.GetBitmapFromDiskCache | Library/src/com/github/zimengle/imageloader/ImageCache.java:152-166 | an absent file gives null with nothing changed; a present one what decoding it gives |
| ImageCache.ImageCache.Save | Library/src/com/github/zimengle/imageloader/ImageCache.java:196-207 | the file holds the compressed bytes, nothing else changes |
| ImageCache.ImageCache.AddBitmapFromCache | Library/src/com/github/zimengle/imageloader/ImageCache.java:123-133 | nothing for a null or recycled bitmap; otherwise memory under the path and disk under the bitmap's own size, each put-if-absent |
| ImageCache.CacheRegistry.GetInstance | Library/src/com/github/zimengle/imageloader/ImageCache.java:36-45 | the first call creates the cache; every later call returns it, whatever the parameters |
| ImageCache.CacheRegistry.GetDefaultInstance | Library/src/com/github/zimengle/imageloader/ImageCache.java:52-55 | the same, with the default parameters |
| ImageLoader.IndexOf | Library/src/com/github/zimengle/imageloader/ImageLoader.java:243 | the first position of an item in the queue |
| ImageLoader.RemoveFirstFromDistinct | Library/src/com/github/zimengle/imageloader/ImageLoader.java:243 | removing an item from a queue without repeats drops exactly that item and keeps the rest without repeats |
| ImageLoader.OneQueuedItemPerView | Library/src/com/github/zimengle/imageloader/ImageLoader.java:225-246 | under the queue/map invariant each view has at most one queued item |
| ImageLoader.RequeueKeepsIndexed | Library/src/com/github/zimengle/imageloader/ImageLoader.java:242-246 | replacing a view's item keeps the invariant: the new item is queued and the old one is not |
| ImageLoader.DequeueKeepsIndexed | Library/src/com/github/zimengle/imageloader/ImageLoader.java:94 | taking the head keeps the invariant, and the head is queued only once |
| ImageLoader.HttpFile | Library/src/com/github/zimengle/imageloader/ImageLoader.java:153 | a remote image downloads to `<disk dir>/http/<hash code of the path>` |
| ImageLoader.WorkItem.constructor | Library/src/com/github/zimengle/imageloader/ImageLoader.java:140-143 | a new item has no image, nothing posted and no cancel |
| ImageLoader.WorkItem.Cancel | Library/src/com/github/zimengle/imageloader/ImageLoader.java:181-196 | the flag is set, and the image and the decode are cancelled when they exist |
| ImageLoader.WorkItem.RunPosted | Library/src/com/github/zimengle/imageloader/ImageLoader.java:169-173 | the posted update shows the bitmap unless the item was cancelled, and then leaves the view alone |
| ImageLoader.WorkItem.MakeImage | Library/src/com/github/zimengle/imageloader/ImageLoader.java:151-161 | an HttpImage for http:// and https:// paths whose connection opens, none when it does not, a LocalImage otherwise |
| ImageLoader.WorkItem.Generate | Library/src/com/github/zimengle/imageloader/ImageLoader.java:150-162 | the new image is asked for its bitmap; without one the call throws; the files and the stored Metas are those the one download (a remote path whose connection opens and whose URL is not in flight) leaves, and unchanged otherwise; a remote outcome is what that download gives; the URL map is as it was |
| ImageLoader.WorkItem.Obtain | Library/src/com/github/zimengle/imageloader/ImageLoader.java:146-163 | a disk-cache hit gives that bitmap and no image; a miss on an http:// or https:// path gives an HttpImage for the path whose memo is the result, or a throw when the connection cannot be opened; any other path gives a LocalImage whose result is the thumbnail at the loader's size; the files, the stored Metas and a remote outcome are those of the image step's download (`Generate`); the URL map and the cancel flag are untouched |
| ImageLoader.WorkItem.Publish | Library/src/com/github/zimengle/imageloader/ImageLoader.java:164-177 | a usable bitmap is posted, put into the memory tier under the path and onto disk under its own size, each if absent; null, a recycled bitmap or a throw posts nothing and changes neither tier |
| ImageLoader.WorkItem.Run | Library/src/com/github/zimengle/imageloader/ImageLoader.java:145-178 | the decode options are new; the outcome is what `Obtain` gives (a disk hit, a throw when the connection cannot be opened, the HttpImage's result or the LocalImage's thumbnail at the loader's size); a usable bitmap is posted and put into the memory tier if absent and is then on disk, anything else posts nothing and leaves memory alone; the files are those the download left (the files at the start when there was none) plus the disk put-if-absent; the stored Metas are those the download left, a remote outcome is what the download gives, and the URL map and the cancel flag are untouched |
| ImageLoader.WorkItem.LocalRunIsCachedAtItsSize | Library/src/com/github/zimengle/imageloader/ImageLoader.java:160-176 | after a local run that missed the disk cache and delivered a usable bitmap, a later disk lookup at the loader's size finds a file |
| ImageLoader.WorkThread.constructor | Library/src/com/github/zimengle/imageloader/ImageLoader.java:71-79 | a new worker is not stopped and holds no item |
| ImageLoader.WorkThread.Quit | Library/src/com/github/zimengle/imageloader/ImageLoader.java:111-116 | stop is set and the held item, if any, is cancelled |
| ImageLoader.ImageLoader.constructor | Library/src/com/github/zimengle/imageloader/ImageLoader.java:205-214 | the cache singleton and threadCount idle workers; the invariant holds |
| ImageLoader.ImageLoader.Load | Library/src/com/github/zimengle/imageloader/ImageLoader.java:223-256 | the view's old item is cancelled; a memory hit is shown with queue and map unchanged; a miss shows the placeholder, drops the old item from the queue and maps and queues a new item at the tail; the placeholder, the size, the pause flag and the threads are untouched; the invariant holds |
| ImageLoader.ImageLoader.CancelBound | Library/src/com/github/zimengle/imageloader/ImageLoader.java:225-229 | the view's item, if any, is cancelled; the invariant holds |
| ImageLoader.ImageLoader.Enqueue | Library/src/com/github/zimengle/imageloader/ImageLoader.java:242-249 | a new item is mapped to the view and queued at the tail in place of the old one; the invariant holds |
| ImageLoader.ImageLoader.WorkerStep | Library/src/com/github/zimengle/imageloader/ImageLoader.java:82-106 | a stopped worker, an empty queue or a pause takes nothing; otherwise exactly the head is taken and dequeued, and its outcome (a throw included) is what its run gives from the state before the step, as `Run` states it; the loader's size, threads, pause flag and placeholder and the worker's stop flag are untouched, and while waiting the head item too; the invariant holds |
| ImageLoader.ImageLoader.Dequeue | Library/src/com/github/zimengle/imageloader/ImageLoader.java:93 | exactly the head is taken off the queue, which keeps the queue/map invariant; the item has not run and is no longer queued |
| ImageLoader.ImageLoader.Work | Library/src/com/github/zimengle/imageloader/ImageLoader.java:94-102 | while an item runs the worker holds it, and afterwards holds nothing, its stop flag untouched; the outcome and the new state are all that `Run` states, from the state before the run |
| ImageLoader.ImageLoader.Finish | Library/src/com/github/zimengle/imageloader/ImageLoader.java:100 | the worker lets go of the item, and everything `Run` stated about the item still holds |
| ImageLoader.ImageLoader.Destroy | Library/src/com/github/zimengle/imageloader/ImageLoader.java:261-269 | every worker is stopped, and the queue and the map are empty; the threads, the pause flag, the size and the placeholder are untouched |
| ImageLoader.ImageLoader.SetLoadBitmap | Library/src/com/github/zimengle/imageloader/ImageLoader.java:305-307 | the placeholder is set |
| ImageLoader.ImageLoader.SetImageSize | Library/src/com/github/zimengle/imageloader/ImageLoader.java:321-323 | the size is a square |
| ImageLoader.ImageLoader.SetImageWidthHeight | Library/src/com/github/zimengle/imageloader/ImageLoader.java:330-332 | the size is width by height |
| ImageLoader.ImageLoader.SetPause | Library/src/com/github/zimengle/imageloader/ImageLoader.java:334-339 | the flag is set; resuming throws, because notifyAll is called without the queue's monitor |

## Left out

- Threads, monitors, `wait`/`notifyAll`, thread priorities and `synchronized`: every operation is one atomic step, so interleavings are not modelled. `TempMetaFile.clear` is not synchronised in the source, and that race is not modelled either.
- The `Handler` posting and `removeCallbacks`: the posted update is the `posted` field, and the cancel flag is what stops it.
- Android decoding, `ExifInterface`, `getOrientation`, `Matrix`/`Canvas` drawing and `bitmap.compress`: replaced by inputs. These are whether a file decodes, what the disk cache decodes to, and the compressed bytes.
- `LruCache` eviction and `Util.getBitmapSize`: the memory tier is a map with no budget. This is SDK code that is not visible.
- Java object serialisation of the Meta map: the store file is a `StoredMeta` value. A file holding some other type (a `ClassCastException` in `init`) is not modelled.
- `TempMetaFile.delete`: it only deletes the store file.
- I/O failures of `createNewFile`, `mkdirs`, `renameTo` and the file streams: these are taken to succeed. Only the connection can fail (an unreachable server, or a body whose read throws).
- `DefaultDownloader`'s 1 MiB buffer: the body arrives as the chunks the reads return, whatever their size.
- The `load` overloads taking a `Bitmap` or a resource id, and `setLoadBitmap(int)`: these only build a `Drawable` through Android resources. `isPause` is a plain getter.
- `Options` decode flags other than the cancel request.
- The floating-point branches of `computeInitialSampleSize` when `maxNumOfPixels` is constrained: it is only ever called unconstrained.
- BitmapUtils.InitialSampleSize: requires a minimum side of -1 or a positive value. Other values divide by zero or by a negative number in floating point.
- BitmapUtils.ThumbnailScale: is the int idealisation of the floating loop. It requires a positive target area, or an image area that already fits; otherwise the source loops for ever (see Findings). `Image.Thumbnail`, which the images use, follows the corrected `BitmapUtils.ThumbnailScaleOrGiveUp` and gives null there.
- `getThumbnail` catching `OutOfMemoryError` and returning null (BitmapUtils.java:229-233): running out of memory is a property of the device, not of the inputs, so it is not modelled.
- BitmapUtils.ComputeSampleSize: requires the image sides to be ints, as `outWidth`/`outHeight` are.
- `createBitmap` with a side of 0 or less: for a decodable file it throws, and `Thumbnail` says so. For an undecodable file whose int product of the sides is 0 or less the scale loop never ends, so this case never reaches `createBitmap`; the model gives null there, as the Findings row says. "Decodable" stands for `createThumbnailFromEXIF` returning a bitmap. The EXIF and full-decode choice of `createThumbnailFromEXIF` is not modelled, because only the final `destWidth`×`destHeight` bitmap reaches callers.
- `long` and `int` bounds of lengths and byte counts in `DefaultDownloader`: these are unbounded integers.
- `String.hashCode` works on UTF-16 code units: Dafny `char` values stand for them.
- ImageLoader.ImageLoader.constructor: takes a `nat` thread count. A negative count throws `NegativeArraySizeException` in the source.
- ImageLoader.WorkItem.Run: requires an item that has not run yet. A second run could reuse the old image when a connection fails, but a queued item only ever runs once.
- DefaultDownloader.Fetch: uses the value comparison of `check` (`TempMetaFile.Meta.Check`), not the comparison of boxed references as written. See Findings.
- DefaultDownloader.DefaultDownloader.Cancel: reports cancel to the listener, as `fireCancel` evidently intends, not success as written. See Findings.
- TempMetaFile.SameBox: treats boxes of equal values in -128..127 as the same object. After a restart the stored Meta is deserialised into new boxes, which never match.

## Findings

| source | as written | input that shows it | evidently intended | confidence | as-written member | corrected member |
|---|---|---|---|---|---|---|
| Library/src/com/github/zimengle/downloader/TempMetaFile.java:51 | `meta.lastModify == lastModify` and `meta.contentLength == contentLength` compare boxed `Long`/`Integer` references | a stored and a new Meta with no ETag, Last-Modified 1372636800000 and length 5000: the boxes differ, so check is false and the resume is refused | compare the values, as the doc comment says, so the download resumes | not executed | TempMetaFile.CheckAsWrittenRejectsEqualTimestamps | TempMetaFile.CheckIsCompatibility |
| Library/src/com/github/zimengle/downloader/DefaultDownloader.java:156-160 | `fireCancel` calls `listener.success` | `cancel()` on a downloader with a listener set: the listener hears success | call `listener.cancel` | not executed | DefaultDownloader.CancelAsWrittenReportsSuccess | DefaultDownloader.CancelReportsCancel |
| Library/src/com/github/zimengle/imageloader/BitmapUtils.java:185 | the scale loop runs while the image area divided by scale squared exceeds `MAX_SIZE`, with no way out when `MAX_SIZE` is 0 or less | an undecodable file (`outWidth` = `outHeight` = -1, area 1) thumbnailed at `Dimen(0, 100)`, so `MAX_SIZE` is 0: no scale ever passes the test | give up and return null, as `getThumbnail` does for an undecodable file | not executed | BitmapUtils.UndecodableAtWidthZeroNeverEnds | BitmapUtils.ThumbnailScaleOrGiveUp |
