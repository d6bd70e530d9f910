/** The extension's background worker: a per-tab store of GIF URLs observed
    in completed network requests, cleared when the tab starts loading a new
    document or is closed (extension/background.js). The browser's
    `chrome.storage.local` is an in-memory map from storage key to the stored
    URL list. */
module Background {
  import opened Wrappers
  import opened Text
  import opened InsertionSet
  import Decimal

  /** The storage area: key `tab_<id>` to the array of URLs written under it. */
  type Storage = map<string, seq<string>>

  /** `isGifUrl`: the lower-cased pathname of the parsed URL ends in `.gif`;
      a URL that does not parse (`pathnameOf` gives None) is not a GIF.
      `pathnameOf` stands for `new URL(url).pathname`. */
  predicate IsGifUrl(pathnameOf: string -> Option<string>, url: string) {
    match pathnameOf(url)
    case None => false
    case Some(p) => EndsWith(LowerAll(p), ".gif")
  }

  /** The storage key derived from a tab id by every handler. */
  function TabKey(tabId: int): string {
    "tab_" + Decimal.IntToString(tabId)
  }

  lemma TabKeyInjective(a: int, b: int)
    ensures TabKey(a) == TabKey(b) <==> a == b
  {
    if TabKey(a) == TabKey(b) {
      assert Decimal.IntToString(a) == TabKey(a)[4..];
      Decimal.IntToStringInjective(a, b);
    }
  }

  /** `stored[key] || []`: what a read of `key` yields. */
  function Lookup(m: Storage, key: string): seq<string> {
    if key in m then m[key] else []
  }

  /** The effect of the `onCompleted` listener on the storage. */
  function Record(m: Storage, pathnameOf: string -> Option<string>, tabId: int, url: string): Storage {
    if tabId < 0 || !IsGifUrl(pathnameOf, url) then m
    else
      var key := TabKey(tabId);
      m[key := SetAdd(InsertAll([], Lookup(m, key)), url)]
  }

  /** The effect of `chrome.storage.local.remove(`tab_${tabId}`)`. */
  function Clear(m: Storage, tabId: int): Storage {
    m - {TabKey(tabId)}
  }

  /** The store invariant: only keys of non-negative tabs, each holding
      distinct URLs that all pass the GIF test. */
  ghost predicate WellFormed(m: Storage, pathnameOf: string -> Option<string>) {
    forall key | key in m ::
      && (exists t: int :: 0 <= t && key == TabKey(t))
      && NoDup(m[key])
      && forall u | u in m[key] :: IsGifUrl(pathnameOf, u)
  }

  /** A completion event from a background request (negative tab id) or for a
      URL that is not a GIF changes nothing. */
  lemma RecordIgnores(m: Storage, pathnameOf: string -> Option<string>, tabId: int, url: string)
    requires tabId < 0 || !IsGifUrl(pathnameOf, url)
    ensures Record(m, pathnameOf, tabId, url) == m
  {
  }

  /** Recording a GIF URL for tab t adds exactly that URL to t's entry and
      leaves every other tab's entry as it was. */
  lemma RecordEffect(m: Storage, pathnameOf: string -> Option<string>, tabId: int, url: string)
    requires 0 <= tabId && IsGifUrl(pathnameOf, url)
    ensures var r := Record(m, pathnameOf, tabId, url);
      && (forall u :: u in Lookup(r, TabKey(tabId)) <==> u in Lookup(m, TabKey(tabId)) || u == url)
      && (forall t :: t != tabId ==> Lookup(r, TabKey(t)) == Lookup(m, TabKey(t)))
  {
    InsertAllMembers([], Lookup(m, TabKey(tabId)));
    forall t | t != tabId ensures TabKey(t) != TabKey(tabId) {
      TabKeyInjective(t, tabId);
    }
  }

  /** Recording the same URL twice stores the same as recording it once. */
  lemma RecordIdempotent(m: Storage, pathnameOf: string -> Option<string>, tabId: int, url: string)
    ensures var once := Record(m, pathnameOf, tabId, url);
      Record(once, pathnameOf, tabId, url) == once
  {
    if 0 <= tabId && IsGifUrl(pathnameOf, url) {
      var key := TabKey(tabId);
      ReinsertIdempotent(Lookup(m, key), url);
    }
  }

  lemma RecordWellFormed(m: Storage, pathnameOf: string -> Option<string>, tabId: int, url: string)
    requires WellFormed(m, pathnameOf)
    ensures WellFormed(Record(m, pathnameOf, tabId, url), pathnameOf)
  {
    if 0 <= tabId && IsGifUrl(pathnameOf, url) {
      var key := TabKey(tabId);
      assert key == TabKey(tabId);
      InsertAllMembers([], Lookup(m, key));
    }
  }

  /** Removing a tab's entry deletes exactly that key; removing an absent entry changes nothing. */
  lemma ClearEffect(m: Storage, tabId: int)
    ensures Lookup(Clear(m, tabId), TabKey(tabId)) == []
    ensures forall t :: t != tabId ==> Lookup(Clear(m, tabId), TabKey(t)) == Lookup(m, TabKey(t))
    ensures TabKey(tabId) !in m ==> Clear(m, tabId) == m
  {
    forall t | t != tabId ensures TabKey(t) != TabKey(tabId) {
      TabKeyInjective(t, tabId);
    }
  }

  /** The events the listeners react to. */
  datatype Event =
    | Completed(tabId: int, url: string)             // webRequest.onCompleted
    | Updated(tabId: int, status: Option<string>)    // tabs.onUpdated, changeInfo.status
    | Removed(tabId: int)                            // tabs.onRemoved

  /** Whether an event removes tab t's entry. */
  predicate ClearsTab(e: Event, t: int) {
    match e
    case Completed(_, _) => false
    case Updated(id, status) => id == t && status == Some("loading")
    case Removed(id) => id == t
  }

  function Apply(m: Storage, pathnameOf: string -> Option<string>, e: Event): Storage {
    match e
    case Completed(id, url) => Record(m, pathnameOf, id, url)
    case Updated(id, status) => if status == Some("loading") then Clear(m, id) else m
    case Removed(id) => Clear(m, id)
  }

  /** The storage after a sequence of events delivered one at a time. */
  function Run(m: Storage, pathnameOf: string -> Option<string>, events: seq<Event>): Storage
    decreases |events|
  {
    if events == [] then m
    else Apply(Run(m, pathnameOf, events[..|events| - 1]), pathnameOf, events[|events| - 1])
  }

  /** Some completion event for (t, u) in `events` is not followed by a
      navigation or close of tab t. */
  ghost predicate Survives(events: seq<Event>, t: int, u: string) {
    exists i :: 0 <= i < |events| && events[i] == Completed(t, u)
                && forall j | i < j < |events| :: !ClearsTab(events[j], t)
  }

  lemma SurvivesSnoc(p: seq<Event>, e: Event, t: int, u: string)
    ensures Survives(p + [e], t, u) <==> e == Completed(t, u) || (!ClearsTab(e, t) && Survives(p, t, u))
  {
    var events := p + [e];
    var n := |p|;
    if Survives(events, t, u) && e != Completed(t, u) {
      var i :| 0 <= i < |events| && events[i] == Completed(t, u)
               && forall j | i < j < |events| :: !ClearsTab(events[j], t);
      assert i < n && events[n] == e;
      assert p[i] == events[i];
      forall j | i < j < n ensures !ClearsTab(p[j], t) {
        assert p[j] == events[j];
      }
    }
    if !ClearsTab(e, t) && Survives(p, t, u) {
      var i :| 0 <= i < n && p[i] == Completed(t, u)
               && forall j | i < j < n :: !ClearsTab(p[j], t);
      assert events[i] == p[i];
      forall j | i < j < |events| ensures !ClearsTab(events[j], t) {
        if j < n { assert events[j] == p[j]; }
      }
    }
    if e == Completed(t, u) {
      assert events[n] == e;
    }
  }

  /** How one event changes whether u is in tab t's entry. */
  lemma ApplyLookup(m: Storage, pathnameOf: string -> Option<string>, e: Event, t: int, u: string)
    ensures u in Lookup(Apply(m, pathnameOf, e), TabKey(t)) <==>
      || (e == Completed(t, u) && 0 <= t && IsGifUrl(pathnameOf, u))
      || (!ClearsTab(e, t) && u in Lookup(m, TabKey(t)))
  {
    match e {
      case Completed(id, url) =>
        if 0 <= id && IsGifUrl(pathnameOf, url) {
          RecordEffect(m, pathnameOf, id, url);
        }
      case Updated(id, status) =>
        if status == Some("loading") {
          ClearEffect(m, id);
        }
      case Removed(id) =>
        ClearEffect(m, id);
    }
  }

  /** Starting from an empty store, a URL is in tab t's entry exactly when the
      tab id is non-negative, the URL passes the GIF test, and some completion
      event for (t, url) was not followed by a navigation or close of t. */
  lemma {:induction false} StoredIff(pathnameOf: string -> Option<string>, events: seq<Event>, t: int, u: string)
    ensures u in Lookup(Run(map[], pathnameOf, events), TabKey(t)) <==>
      0 <= t && IsGifUrl(pathnameOf, u) && Survives(events, t, u)
    decreases |events|
  {
    if events != [] {
      var n := |events| - 1;
      var p, e := events[..n], events[n];
      assert events == p + [e];
      StoredIff(pathnameOf, p, t, u);
      ApplyLookup(Run(map[], pathnameOf, p), pathnameOf, e, t, u);
      SurvivesSnoc(p, e, t, u);
    }
  }

  /** The background worker's storage, with one method per listener. */
  class TabStore {
    const pathnameOf: string -> Option<string>
    var storage: Storage

    ghost predicate Valid()
      reads this
    {
      WellFormed(storage, pathnameOf)
    }

    constructor (pathnameOf: string -> Option<string>)
      ensures Valid() && this.pathnameOf == pathnameOf && storage == map[]
    {
      this.pathnameOf := pathnameOf;
      storage := map[];
    }

    /** `webRequest.onCompleted`: read the tab's list, build a Set from it, add the URL, write it back. */
    method OnCompleted(tabId: int, url: string)
      requires Valid()
      modifies this
      ensures Valid()
      ensures storage == Record(old(storage), pathnameOf, tabId, url)
    {
      RecordWellFormed(storage, pathnameOf, tabId, url);
      if tabId < 0 {
        return;
      }
      if !IsGifUrl(pathnameOf, url) {
        return;
      }
      var key := TabKey(tabId);
      var stored := Lookup(storage, key);
      var urls := InsertAll([], stored);
      urls := SetAdd(urls, url);
      storage := storage[key := urls];
    }

    /** `tabs.onUpdated`: a tab that starts loading loses its entry. */
    method OnUpdated(tabId: int, status: Option<string>)
      requires Valid()
      modifies this
      ensures Valid()
      ensures status == Some("loading") ==> storage == Clear(old(storage), tabId)
      ensures status != Some("loading") ==> storage == old(storage)
    {
      if status == Some("loading") {
        storage := storage - {TabKey(tabId)};
      }
    }

    /** `tabs.onRemoved`: a closed tab loses its entry. */
    method OnRemoved(tabId: int)
      requires Valid()
      modifies this
      ensures Valid()
      ensures storage == Clear(old(storage), tabId)
    {
      storage := storage - {TabKey(tabId)};
    }

    /** `runtime.onMessage`: a `getNetworkGifs` request is answered with the
        tab's stored list or the empty list; other messages get no answer. */
    method OnMessage(action: string, tabId: int) returns (response: Option<seq<string>>)
      requires Valid()
      ensures action == "getNetworkGifs" ==> response == Some(Lookup(storage, TabKey(tabId)))
      ensures action != "getNetworkGifs" ==> response == None
      ensures response.Some? ==> NoDup(response.value)
      ensures response.Some? ==> forall u | u in response.value :: IsGifUrl(pathnameOf, u)
    {
      if action == "getNetworkGifs" {
        var key := TabKey(tabId);
        response := Some(Lookup(storage, key));
      } else {
        response := None;
      }
    }
  }
}
