/** The popup's own logic (extension/popup.js outside the injected scan):
    merging the DOM and network URL lists with their sources, the badge of
    each listed URL, and the content of the text and JSON downloads. The
    browser calls (`tabs.query`, `scripting.executeScript`,
    `runtime.sendMessage`) are represented by their outcomes. */
module Popup {
  import opened Wrappers
  import opened Text
  import opened InsertionSet
  import PopupScan
  import Background

  /** Where a URL was seen: `'dom'` or `'net'`. */
  datatype Source = Dom | Net

  /** One element of `collectedUrls`: `{ url, sources }`, the sources Set in insertion order. */
  datatype Entry = Entry(url: string, sources: seq<Source>)

  function SourceName(s: Source): string {
    match s
    case Dom => "dom"
    case Net => "net"
  }

  function Urls(entries: seq<Entry>): (r: seq<string>)
    ensures |r| == |entries| && forall k | 0 <= k < |entries| :: r[k] == entries[k].url
  {
    seq(|entries|, k requires 0 <= k < |entries| => entries[k].url)
  }

  // ---------------------------------------------------------------------
  // The merge in runScan

  /** The sources Set of `u` once both lists have been processed: `'dom'` is
      added first when `u` is a DOM URL, then `'net'` when it is a network URL. */
  function SourcesOf(u: string, dom: seq<string>, net: seq<string>): seq<Source> {
    (if u in dom then [Dom] else []) + (if u in net then [Net] else [])
  }

  /** Processing one more network URL `u` adds `'net'` to u's sources only. */
  lemma SourcesOfSnoc(v: string, dom: seq<string>, net: seq<string>, u: string)
    ensures SourcesOf(v, dom, net + [u]) == if v == u then SetAdd(SourcesOf(v, dom, net), Net) else SourcesOf(v, dom, net)
  {
  }

  /** Reference definition of the merged list: the Map's keys in insertion
      order, each with its sources. */
  function Merged(dom: seq<string>, net: seq<string>): (r: seq<Entry>)
    ensures |r| == |InsertAll([], dom + net)|
    ensures forall k | 0 <= k < |r| :: r[k].url == InsertAll([], dom + net)[k]
    ensures forall k | 0 <= k < |r| :: r[k].sources == SourcesOf(r[k].url, dom, net)
  {
    var keys := InsertAll([], dom + net);
    seq(|keys|, k requires 0 <= k < |keys| => Entry(keys[k], SourcesOf(keys[k], dom, net)))
  }

  /** The JavaScript `Map` from URL to sources Set is represented by its key
      order `keys` and the map `sources`; after the DOM list `dom` and the
      network list `net` have been processed it holds every URL of either,
      each with its sources. */
  ghost predicate MapState(keys: seq<string>, sources: map<string, seq<Source>>, dom: seq<string>, net: seq<string>) {
    && keys == InsertAll([], dom + net)
    && (forall u :: u in sources <==> u in dom || u in net)
    && (forall u | u in sources :: sources[u] == SourcesOf(u, dom, net))
  }

  /** `domUrls.forEach(u => { if (!map.has(u)) map.set(u, new Set()); map.get(u).add('dom'); })` on the new Map. */
  method AddDomUrls(dom: seq<string>) returns (keys: seq<string>, sources: map<string, seq<Source>>)
    ensures MapState(keys, sources, dom, [])
  {
    keys := [];
    sources := map[];
    for i := 0 to |dom|
      invariant keys == InsertAll([], dom[..i])
      invariant forall u :: u in sources <==> u in dom[..i]
      invariant forall u | u in sources :: sources[u] == [Dom]
    {
      var u := dom[i];
      assert dom[..i + 1] == dom[..i] + [u];
      InsertAllSnoc([], dom[..i], u);
      InsertAllMembers([], dom[..i]);
      if u !in sources {
        keys := keys + [u];
        sources := sources[u := []];
      }
      sources := sources[u := SetAdd(sources[u], Dom)];
    }
    assert dom[..|dom|] == dom == dom + [];
  }

  /** A new network URL is appended to the Map's keys; a known one leaves them as they are. */
  lemma NetStepKeys(keys: seq<string>, dom: seq<string>, pre: seq<string>, u: string)
    requires keys == InsertAll([], dom + pre)
    ensures (if u in dom || u in pre then keys else keys + [u]) == InsertAll([], dom + (pre + [u]))
  {
    assert dom + (pre + [u]) == (dom + pre) + [u];
    InsertAllSnoc([], dom + pre, u);
    InsertAllMembers([], dom + pre);
  }

  /** Processing one more network URL keeps the Map in step with the lists. */
  lemma NetStep(keys: seq<string>, sources: map<string, seq<Source>>, dom: seq<string>, pre: seq<string>, u: string)
    requires MapState(keys, sources, dom, pre)
    ensures var keys' := if u in sources then keys else keys + [u];
      var old_ := if u in sources then sources[u] else [];
      MapState(keys', sources[u := SetAdd(old_, Net)], dom, pre + [u])
  {
    NetStepKeys(keys, dom, pre, u);
    var old_ := if u in sources then sources[u] else [];
    var sources' := sources[u := SetAdd(old_, Net)];
    forall v | v in sources' ensures sources'[v] == SourcesOf(v, dom, pre + [u]) {
      SourcesOfSnoc(v, dom, pre, u);
    }
  }

  /** `netUrls.forEach(u => { if (!map.has(u)) map.set(u, new Set()); map.get(u).add('net'); })`. */
  method AddNetUrls(keys0: seq<string>, sources0: map<string, seq<Source>>, ghost dom: seq<string>, net: seq<string>)
    returns (keys: seq<string>, sources: map<string, seq<Source>>)
    requires MapState(keys0, sources0, dom, [])
    ensures MapState(keys, sources, dom, net)
  {
    keys, sources := keys0, sources0;
    assert net[..0] == [];
    for i := 0 to |net|
      invariant MapState(keys, sources, dom, net[..i])
    {
      var u := net[i];
      assert net[..i + 1] == net[..i] + [u];
      NetStep(keys, sources, dom, net[..i], u);
      if u !in sources {
        keys := keys + [u];
        sources := sources[u := []];
      }
      sources := sources[u := SetAdd(sources[u], Net)];
    }
    assert net[..|net|] == net;
  }

  /** The merge in `runScan`: both `forEach` loops, then `[...map.entries()].map(...)`. */
  method Merge(dom: seq<string>, net: seq<string>) returns (entries: seq<Entry>)
    ensures entries == Merged(dom, net)
  {
    var keys, sources := AddDomUrls(dom);
    keys, sources := AddNetUrls(keys, sources, dom, net);
    InsertAllMembers([], dom + net);
    entries := seq(|keys|, k requires 0 <= k < |keys| => Entry(keys[k], sources[keys[k]]));
  }

  /** The merge lists each URL of either list exactly once, so it has |D ∪ N| entries. */
  lemma MergedUnion(dom: seq<string>, net: seq<string>)
    ensures var r := Merged(dom, net);
      && NoDup(Urls(r))
      && (forall u :: u in Urls(r) <==> u in dom || u in net)
      && |r| == |(set u | u in dom) + (set u | u in net)|
  {
    var keys := InsertAll([], dom + net);
    assert Urls(Merged(dom, net)) == keys;
    InsertAllMembers([], dom + net);
    NoDupCardinality(keys);
    assert (set u | u in keys) == (set u | u in dom) + (set u | u in net);
  }

  /** A URL only in D has sources [dom], only in N [net], in both [dom, net]. */
  lemma MergedSources(dom: seq<string>, net: seq<string>)
    ensures var r := Merged(dom, net);
      forall k | 0 <= k < |r| ::
        && (r[k].url in dom && r[k].url !in net ==> r[k].sources == [Dom])
        && (r[k].url !in dom && r[k].url in net ==> r[k].sources == [Net])
        && (r[k].url in dom && r[k].url in net ==> r[k].sources == [Dom, Net])
  {
  }

  /** The DOM URLs come first, in their own order, and the network-only URLs follow. */
  lemma MergedDomFirst(dom: seq<string>, net: seq<string>)
    ensures var r, d := Merged(dom, net), InsertAll([], dom);
      && |d| <= |r|
      && Urls(r)[..|d|] == d
      && (forall k | |d| <= k < |r| :: r[k].url !in dom && r[k].url in net)
  {
    var r := Merged(dom, net);
    var keys := InsertAll([], dom + net);
    var d := InsertAll([], dom);
    assert Urls(r) == keys;
    InsertAllMembers([], dom + net);
    InsertAllMembers([], dom);
    InsertAllAppend([], dom, net);
    InsertAllMembers(d, net);
    forall k | |d| <= k < |r| ensures r[k].url !in dom && r[k].url in net {
      assert forall j | 0 <= j < |d| :: d[j] == keys[j] && keys[j] != keys[k];
      assert keys[k] !in d;
      assert keys[k] in d + net;
    }
  }

  /** Overall the merged URLs are in the order of their first discovery in the DOM list followed by the network list. */
  lemma MergedDiscoveryOrder(dom: seq<string>, net: seq<string>)
    ensures var r := Merged(dom, net);
      forall i, j | 0 <= i < j < |r| ::
        r[i].url in dom + net && r[j].url in dom + net &&
        FirstIndex(dom + net, r[i].url) < FirstIndex(dom + net, r[j].url)
  {
    var r, keys := Merged(dom, net), InsertAll([], dom + net);
    InsertAllOrder(dom + net);
    forall i, j | 0 <= i < j < |r|
      ensures r[i].url in dom + net && r[j].url in dom + net &&
        FirstIndex(dom + net, r[i].url) < FirstIndex(dom + net, r[j].url)
    {
      assert r[i].url == keys[i] && r[j].url == keys[j];
    }
  }

  /** A failed DOM or network step contributes nothing: the merge is then the other list alone. */
  lemma MergedOneSided(urls: seq<string>)
    ensures Urls(Merged(urls, [])) == InsertAll([], urls)
    ensures Urls(Merged([], urls)) == InsertAll([], urls)
    ensures forall k | 0 <= k < |Merged(urls, [])| :: Merged(urls, [])[k].sources == [Dom]
    ensures forall k | 0 <= k < |Merged([], urls)| :: Merged([], urls)[k].sources == [Net]
  {
    assert urls + [] == urls;
    assert [] + urls == urls;
    InsertAllMembers([], urls);
  }

  // ---------------------------------------------------------------------
  // renderList badge

  function Badge(sources: seq<Source>): string {
    if Dom in sources && Net in sources then "dom+net"
    else if Net in sources then "net"
    else "dom"
  }

  /** A merged URL found in both places is badged `dom+net`, one found only
      on the network `net`, one found only in the DOM `dom`. */
  lemma MergedBadge(dom: seq<string>, net: seq<string>)
    ensures var r := Merged(dom, net);
      forall k | 0 <= k < |r| ::
        && (Badge(r[k].sources) == "dom+net" <==> r[k].url in dom && r[k].url in net)
        && (Badge(r[k].sources) == "net" <==> r[k].url !in dom && r[k].url in net)
        && (Badge(r[k].sources) == "dom" <==> r[k].url in dom && r[k].url !in net)
  {
    var r := Merged(dom, net);
    InsertAllMembers([], dom + net);
    forall k | 0 <= k < |r|
      ensures r[k].url in dom || r[k].url in net
    {
      assert r[k].url in InsertAll([], dom + net);
    }
  }

  // ---------------------------------------------------------------------
  // downloadFile

  /** One element of the JSON download: `{ url, sources: [...sources] }`. */
  datatype Record = Record(url: string, sources: seq<string>)

  datatype Content = JsonRecords(records: seq<Record>) | Text(text: string)

  /** What `downloadFile` hands to the Blob: the content, its MIME type and the file extension. */
  datatype Export = Export(content: Content, mime: string, ext: string)

  function ToRecord(e: Entry): (r: Record)
    ensures r.url == e.url && |r.sources| == |e.sources|
  {
    Record(e.url, seq(|e.sources|, i requires 0 <= i < |e.sources| => SourceName(e.sources[i])))
  }

  /** `downloadFile(format)` on the collected entries: nothing when the list is
      empty; for `'json'` the records; for anything else the newline-joined URLs. */
  function Download(collected: seq<Entry>, format: string): Option<Export> {
    if |collected| == 0 then None
    else if format == "json" then
      Some(Export(JsonRecords(seq(|collected|, k requires 0 <= k < |collected| => ToRecord(collected[k]))),
                  "application/json", "json"))
    else
      Some(Export(Text(Join(Urls(collected), '\n')), "text/plain", "txt"))
  }

  /** Reading a source name back. */
  function ParseSource(name: string): Option<Source> {
    if name == "dom" then Some(Dom) else if name == "net" then Some(Net) else None
  }

  /** Reading a JSON record back into an entry; None when a source name is unknown. */
  function FromRecord(r: Record): Option<Entry> {
    if forall i | 0 <= i < |r.sources| :: ParseSource(r.sources[i]).Some? then
      Some(Entry(r.url, seq(|r.sources|, i requires 0 <= i < |r.sources| && ParseSource(r.sources[i]).Some? =>
        ParseSource(r.sources[i]).value)))
    else None
  }

  /** Nothing is downloaded from an empty list, and a non-empty list always yields a file. */
  lemma DownloadOnlyWhenCollected(collected: seq<Entry>, format: string)
    ensures Download(collected, format).None? <==> collected == []
  {
  }

  /** The text file holds the URLs in collected order: cutting it at the
      newlines gives them back when no URL contains a newline. */
  lemma TextDownloadRoundTrip(collected: seq<Entry>, format: string)
    requires collected != [] && format != "json"
    requires forall k | 0 <= k < |collected| :: '\n' !in collected[k].url
    ensures var x := Download(collected, format);
      && x.Some? && x.value.content.Text? && x.value.ext == "txt" && x.value.mime == "text/plain"
      && Split(x.value.content.text, '\n') == Urls(collected)
  {
    SplitJoin(Urls(collected), '\n');
  }

  /** The JSON file lists one record per collected entry, in the same order,
      from which every entry is read back exactly. */
  lemma JsonDownloadRoundTrip(collected: seq<Entry>)
    requires collected != []
    ensures var x := Download(collected, "json");
      && x.Some? && x.value.content.JsonRecords? && x.value.ext == "json" && x.value.mime == "application/json"
      && |x.value.content.records| == |collected|
      && forall k | 0 <= k < |collected| :: FromRecord(x.value.content.records[k]) == Some(collected[k])
  {
    var records := Download(collected, "json").value.content.records;
    forall k | 0 <= k < |collected| ensures FromRecord(records[k]) == Some(collected[k]) {
      var e := collected[k];
      var r := records[k];
      assert r == ToRecord(e);
      forall i | 0 <= i < |r.sources| ensures ParseSource(r.sources[i]) == Some(e.sources[i]) {
        assert r.sources[i] == SourceName(e.sources[i]);
      }
      assert FromRecord(r).value.sources == e.sources;
    }
  }

  // ---------------------------------------------------------------------
  // runScan

  /** The outcome of `chrome.tabs.query`: it rejects, or yields no active
      tab, or an active tab with an id. */
  datatype TabQuery = QueryFailed | NoActiveTab | ActiveTab(tabId: int)

  /** What the status line reports (its HTML is left out). */
  datatype Status = NoGifs | Found(count: nat) | Failed

  /** `domUrls`: the injected scan's result when there is an active tab and
      the injection succeeded (`results[0]?.result || []`), otherwise `[]`
      (reading `tab.id` of a missing tab throws inside the guarded block). */
  function DomUrls(query: TabQuery, scan: Option<seq<string>>): seq<string> {
    if query.ActiveTab? then scan.GetOr([]) else []
  }

  /** `netUrls`: the background's answer (`resp?.urls || []`), likewise. */
  function NetUrls(query: TabQuery, reply: Option<seq<string>>): seq<string> {
    if query.ActiveTab? then reply.GetOr([]) else []
  }

  /** The popup's module state. */
  class PopupState {
    var collectedUrls: seq<Entry>
    var exportEnabled: bool   // the txt and json buttons

    constructor ()
      ensures collectedUrls == [] && !exportEnabled
    {
      collectedUrls := [];
      exportEnabled := false;
    }

    /** `runScan()` once the browser calls have settled: `scan` is the DOM
        injection's result (None when it rejected) and `reply` the
        background's list (None when messaging failed or gave no list). */
    method RunScan(query: TabQuery, scan: Option<seq<string>>, reply: Option<seq<string>>) returns (status: Status)
      modifies this
      ensures query.QueryFailed? ==> status == Failed && collectedUrls == old(collectedUrls) && !exportEnabled
      ensures !query.QueryFailed? ==>
        && collectedUrls == Merged(DomUrls(query, scan), NetUrls(query, reply))
        && status == (if collectedUrls == [] then NoGifs else Found(|collectedUrls|))
        && exportEnabled == (collectedUrls != [])
    {
      exportEnabled := false;
      if query.QueryFailed? {
        status := Failed;
        return;
      }
      var domUrls: seq<string> := [];
      var netUrls: seq<string> := [];
      if query.ActiveTab? {
        domUrls := scan.GetOr([]);
        netUrls := reply.GetOr([]);
      }
      collectedUrls := Merge(domUrls, netUrls);
      status := if |collectedUrls| == 0 then NoGifs else Found(|collectedUrls|);
      if |collectedUrls| > 0 {
        exportEnabled := true;
      }
    }

    function DownloadFile(format: string): (x: Option<Export>)
      reads this
      ensures x.None? <==> collectedUrls == []
    {
      Download(collectedUrls, format)
    }
  }

  // ---------------------------------------------------------------------
  // The two GIF tests side by side

  /** Every URL the popup lists came from the page scan, where its href passed
      the `.gif` test, or from the background store, where its pathname passed
      the store's test. */
  lemma ScanAttribution(doc: PopupScan.Document, resolve: string -> Option<string>,
                        storage: Background.Storage, pathnameOf: string -> Option<string>, tabId: int)
    requires Background.WellFormed(storage, pathnameOf)
    ensures var dom, net := PopupScan.ScanResult(doc, resolve), Background.Lookup(storage, Background.TabKey(tabId));
      var r := Merged(dom, net);
      forall k | 0 <= k < |r| ::
        && (Dom in r[k].sources ==> PopupScan.TestGif(r[k].url))
        && (Net in r[k].sources ==> Background.IsGifUrl(pathnameOf, r[k].url))
  {
    PopupScan.ScanResultProperties(doc, resolve);
  }

  /** The background tests the pathname while the popup tests the whole href,
      so a query string ending in `.gif` is a GIF for the popup only. */
  lemma QueryStringDivergence(pathnameOf: string -> Option<string>)
    requires pathnameOf("https://x/y?f=a.gif") == Some("/y")
    ensures !Background.IsGifUrl(pathnameOf, "https://x/y?f=a.gif")
    ensures PopupScan.TestGif("https://x/y?f=a.gif")
  {
    var s := "https://x/y?f=a.gif";
    assert PopupScan.GifMarkAt(s, 15);
    PopupScan.TestGifIff(s);
    assert Text.LowerAll("/y") == "/y";
  }
}
