# giffer in Dafny

giffer collects the GIF URLs of a web page. It has two parts: a browser extension and a small Go uploader.

- **Background worker** (`extension/background.js`). It keeps a per-tab list of GIF URLs seen in completed network requests. The list is stored under the key `tab_<id>`. It is cleared when the tab starts loading a new document or is closed.
- **Popup** (`extension/popup.js`). It injects a page scan (`scanDomForGifs`), asks the background for the tab's network list, and merges the two lists. It labels each URL `dom`, `net` or `dom+net` and offers downloads as text or JSON.
- **Uploader** (`main.go`). It cuts the sorted `.webm` files into chunks of 100. It turns each chunk into one Telegram sticker pack, creating the pack with the chunk's first file and adding the rest to it. It retries a request when Telegram asks it to.

The model is split into modules that follow those files:

| module | file | models |
|---|---|---|
| `Background` | background.dfy | the storage map, each listener as a function on it and as a method of the class `TabStore`, and the invariant the listeners keep |
| `PopupScan` | popup_scan.dfy | `addIfGif`, the `.gif` test, a hand-written matcher for the CSS `url(...)` pattern with its `exec` loop, srcset splitting, and the scan. The scan is a class `GifCollector` whose `urls` field is the scan's `Set` |
| `Popup` | popup.dfy | the merge in `runScan`, with the `Map` written as two loops; the badge; the download contents; and a class `PopupState` holding `collectedUrls` |
| `StickerPack` | sticker_pack.dfy | the chunk loop, pack names, titles, endpoints and payloads, and the retry loop |
| `InsertionSet`, `Text`, `Decimal`, `Wrappers` | | the JavaScript `Set` as an insertion-ordered sequence; `trim`, `\s`, `split`/`join` and case folding; decimal rendering of numbers; `Option` |

A JavaScript `Set` or `Map` is modelled by its iteration order, which is the order of first insertion. A `Set` is a duplicate-free `seq`. A `Map` is its key order plus a Dafny `map`.

The browser's URL parser has no Dafny model. It appears as two function parameters:

- `resolve` stands for `new URL(raw, location.href).href`.
- `pathnameOf` stands for `new URL(url).pathname`.

Each gives `None` where the constructor throws.

The page's document is modelled as the lists of attribute values the scan's selectors return.

## Model

| member | source | states |
|---|---|---|
| Background.TabKeyInjective | extension/background.js:15 | every handler derives the key `tab_<id>` the same way, and two tab ids give the same key exactly when they are equal |
| Background.RecordIgnores | extension/background.js:12-13 | a completion from a negative tab id, or for a URL whose pathname fails the test (an unparsable URL included), leaves the whole store unchanged |
| Background.RecordEffect | extension/background.js:15-19 | after recording a GIF URL for tab t, t's list holds exactly the old URLs plus the new one, and every other tab's list is unchanged |
| Background.RecordIdempotent | extension/background.js:17-19 | recording the same completion twice stores the same as recording it once |
| Background.RecordWellFormed | extension/background.js:10-22 | recording keeps the store invariant: only keys of non-negative tabs, each holding distinct URLs whose pathname passes the GIF test |
| Background.ClearEffect | extension/background.js:24-32 | removing tab t's entry makes t's list empty, leaves every other tab's list as it was, and changes nothing when t had no entry |
| Background.ApplyLookup | extension/background.js:10-32 | one event puts u in tab t's list exactly when it is a GIF completion for (t, u), and keeps u there exactly when it neither navigates nor closes t |
| Background.StoredIff | extension/background.js:1-32 | from an empty store, u is in t's list exactly when t >= 0, u's pathname passes the test, and some completion for (t, u) is not followed by a `loading` update or a close of t |
| Background.TabStore.OnCompleted | extension/background.js:10-22 | the listener's new storage is the old one with the completion recorded, and the store invariant is kept |
| Background.TabStore.OnUpdated | extension/background.js:24-28 | a `loading` status removes the tab's entry; any other status leaves the storage unchanged |
| Background.TabStore.OnRemoved | extension/background.js:30-32 | closing a tab removes its entry, and the store invariant is kept |
| Background.TabStore.OnMessage | extension/background.js:34-42 | `getNetworkGifs` answers with the tab's list, or `[]` when it has none. The answer has no repeats and only GIF URLs. Other messages get no answer, and the storage is never changed |
| PopupScan.TestGifIff | extension/popup.js:11 | the href test holds exactly when `.gif`, in any letter case, occurs followed by `?`, `#` or the end of the string |
| PopupScan.CollectOne | extension/popup.js:7-13 | one `addIfGif` call adds nothing for a missing or empty value, an unresolvable reference or a failing href; otherwise it adds the resolved href of the trimmed value to the Set |
| PopupScan.GifCollector.AddIfGif | extension/popup.js:7-13 | the method changes `urls` exactly as one `addIfGif` call does |
| PopupScan.MatchAtSound | extension/popup.js:17 | a match found at p is an occurrence of `url(`, in any case, then optional white space and quote, a non-empty group, optional quote and white space, and `)` |
| PopupScan.MatchAtComplete | extension/popup.js:17 | conversely, every occurrence of the pattern at a position is exactly the match found there |
| PopupScan.NextMatchLeftmost | extension/popup.js:17-19 | `exec` from `lastIndex` returns the leftmost match at or after it, and null only when there is none |
| PopupScan.CssTokensShape | extension/popup.js:15-20 | every token passed on is non-empty, contains no quote, `)` or white space, and is the group of a match of the pattern in the text |
| PopupScan.GifCollector.ParseUrlsFromCss | extension/popup.js:15-20 | the `exec` loop calls `addIfGif` on the groups of the successive matches, in order; an empty value calls it on nothing |
| PopupScan.SrcsetCandidatesShape | extension/popup.js:29 | the srcset is cut at every comma, and the candidate of each part is its first white-space-delimited token after trimming |
| PopupScan.GifCollector.AddSrcset | extension/popup.js:29 | `addIfGif` is called on the candidate of each comma-separated part, in order |
| PopupScan.GifCollector.ScanImage | extension/popup.js:23-30 | for one `<img>`: `src`, `data-src`, `data-original`, `data-lazy`, `data-gif`, then the srcset candidates when `srcset` is non-empty |
| PopupScan.GifCollector.ScanImages | extension/popup.js:23-30 | the images are scanned in document order |
| PopupScan.GifCollector.ScanSource | extension/popup.js:33-36 | for one `<source>`: `src`, then the srcset candidates when `srcset` is non-empty |
| PopupScan.GifCollector.ScanSources | extension/popup.js:33-36 | the sources are scanned in document order |
| PopupScan.GifCollector.ScanVideo | extension/popup.js:39-42 | for one `<video>`: `src`, then `currentSrc` |
| PopupScan.GifCollector.ScanVideos | extension/popup.js:39-42 | the videos are scanned in document order |
| PopupScan.GifCollector.AddEach | extension/popup.js:45-57 | `addIfGif` on each preload href, meta image content or anchor href, in order |
| PopupScan.GifCollector.ScanStyles | extension/popup.js:50-54 | `parseUrlsFromCss` on each style attribute or style text, in order |
| PopupScan.ScanDomForGifs | extension/popup.js:4-60 | the scan returns the Set built by `addIfGif` over every raw value of the selectors, in their order |
| PopupScan.ScanResultProperties | extension/popup.js:5-59 | the scan result has no repeats. It holds exactly the hrefs kept from some raw value, and only hrefs passing the test. It lists them in the order of their first discovery |
| Popup.AddDomUrls | extension/popup.js:104-108 | the first loop leaves the Map's keys as the DOM URLs without repeats, each with sources `[dom]` |
| Popup.AddNetUrls | extension/popup.js:109-112 | the second loop adds each new network URL as a key and adds `net` to each network URL's sources |
| Popup.Merge | extension/popup.js:104-114 | the merged list is the Map's keys in insertion order, each with its sources |
| Popup.MergedUnion | extension/popup.js:104-114 | the merge lists each URL of either list exactly once, so it has \|D ∪ N\| entries |
| Popup.MergedSources | extension/popup.js:104-114 | sources are `[dom]` for a URL only in D, `[net]` only in N, and `[dom, net]` in both |
| Popup.MergedDomFirst | extension/popup.js:104-114 | the DOM URLs come first, in their own order, and every later entry is a network-only URL |
| Popup.MergedDiscoveryOrder | extension/popup.js:104-114 | overall, the entries are in the order of first occurrence in the DOM list followed by the network list |
| Popup.MergedOneSided | extension/popup.js:85-102 | when one step contributes nothing, the merge is the other list without repeats, all labelled with that list's source |
| Popup.MergedBadge | extension/popup.js:149-158 | the badge is `dom+net` exactly for URLs in both lists, `net` exactly for network-only ones, and `dom` exactly for DOM-only ones |
| Popup.DownloadOnlyWhenCollected | extension/popup.js:185-186 | nothing is exported from an empty list, and a non-empty list always yields a file |
| Popup.TextDownloadRoundTrip | extension/popup.js:198-202 | a format other than `json` gives `text/plain` and `txt`, and cutting the text at newlines gives back the URLs in collected order |
| Popup.JsonDownloadRoundTrip | extension/popup.js:190-197 | `json` gives `application/json` and `json`, with one `{url, sources}` record per entry, in order, from which every entry is read back exactly |
| Popup.PopupState.RunScan | extension/popup.js:75-133 | a rejected tab query reports an error and leaves `collectedUrls` as it was. Otherwise `collectedUrls` becomes the merge of the two lists; a missing tab or a failed step contributes `[]`. The status is the count or "no GIFs", and the exports are enabled exactly when something was collected |
| Popup.PopupState.DownloadFile | extension/popup.js:185-211 | a download is produced exactly when something was collected |
| Popup.ScanAttribution | extension/popup.js:96-114 | every merged entry with source `dom` passed the popup's href test, and every entry with source `net` passed the background's pathname test |
| Popup.QueryStringDivergence | extension/background.js:3-4 | `https://x/y?f=a.gif` with pathname `/y` is a GIF for the popup, whose test is on the whole href, but not for the background store |
| StickerPack.PackNameInjective | main.go:48 | the pack name embeds the chunk index: two chunks get the same pack name exactly when they are the same chunk |
| StickerPack.TitleNumber | main.go:49 | the title is `Go GIF Pack Part ` followed by the chunk index plus 1 |
| StickerPack.ChunkRequestShape | main.go:57-79 | file 0 goes to `createNewStickerSet` with fields user_id, name, title, stickers and sticker_format. Every later file goes to `addStickerToSet` with fields user_id, name and sticker. All of them carry the chunk's pack name |
| StickerPack.ProcessChunk | main.go:53-83 | one request per file of the chunk, in order, file idx getting the request of position idx |
| StickerPack.NextChunk | main.go:39-43 | one round of the loop adds the chunk `files[i:min(i+100, n)]` with index i/100 and its requests |
| StickerPack.UploadAll | main.go:28-45 | there are ceil(n/100) chunks, chunk k being `files[100k:min(100k+100, n)]` with index k. Their concatenation is the file list, and file j is sent as file j%100 of chunk j/100. An empty list gives no chunks |
| StickerPack.ChunkSizes | main.go:38-42 | every chunk holds between 1 and 100 files, every chunk but the last exactly 100, and there are no chunks exactly when there are no files |
| StickerPack.SamePackIffSameChunk | main.go:38-79 | two uploads name the same pack exactly when their files fall in the same chunk, and an upload creates a pack exactly when its position is a multiple of 100 |
| StickerPack.DecideCases | main.go:105-128 | `ok` ends the request. Otherwise a positive `retry_after` waits that many seconds and a network error waits 5 seconds before retrying, and any other answer is fatal |
| StickerPack.SendRequestWithRetry | main.go:87-129 | the loop stops at the first accepted or fatal answer; every earlier attempt made it sleep the wait its answer asked for |
| StickerPack.RetryPrefixWaits | main.go:105-125 | every sleep of a finished request is positive, and follows a network error or a refused answer |

## Left out

- The `chrome.*` APIs are left out: `webRequest`, `tabs`, `storage.local`, `scripting` and `runtime` messaging. The storage is an in-memory map, and each listener is a method call that runs to completion. The async interleaving of a `get`/`set` pair with a concurrent `remove` is not modelled.
- URL parsing and resolution are function parameters (`pathnameOf`, `resolve`), as is the DOM: the selectors' results are input lists.
- Case folding is ASCII only. This is exact for the `.gif` test: a WHATWG pathname is ASCII after percent-encoding, and case-insensitive regular expressions without the `u` flag never match non-ASCII characters against these ASCII letters.
- `renderList`'s DOM construction, `setStatus` HTML, the clipboard, the tooltip timers, the Blob and object URL, the `Date.now()` file name and the scan button's enable/disable are left out. They are UI and I/O.
- The JSON download is modelled as its list of records, not as the characters `JSON.stringify(..., null, 2)` writes.
- In main.go, the file globbing, the sorting, the multipart body, the HTTP client, the JSON decoding of the answer, the printing and the sleeps are left out. `files` is the sorted glob result. An attempt is the decoded answer: an answer that fails to decode appears as a not-ok reply without `retry_after`. `token`, `userID` and `botUsername`, which main.go uses without defining, are the parameter `BotConfig`.
- Background.TabStore: storage is keyed by the string `tab_<id>`, as the source writes it, not by the tab id. `TabKeyInjective` connects the two.
- Decimal.IntToString: the tab id is rendered as an integer. The JavaScript number-to-string conversion of ids beyond 2^53 or in exponent notation is not modelled.
- StickerPack.UploadAll: lists the chunks and requests on the assumption that every request is eventually accepted. The `os.Exit(1)` of a fatal answer, which ends the run part-way, is shown only by `SendRequestWithRetry`'s `Exited` outcome.
- StickerPack.SendRequestWithRetry: the unbounded `for` loop runs over a finite list of the answers the attempts would get. When every given answer asks for another try, the outcome is `StillRetrying`.
