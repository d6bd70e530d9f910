/** The uploader in main.go: the sorted `.webm` files are cut into chunks of
    at most 100, each chunk becomes one sticker pack, its first file creates
    the pack and every later file is added to it, and each request is retried
    according to Telegram's answer. File globbing, the multipart body, the
    HTTP client and the sleeps are left out; the bot token, user id and bot
    username, which main.go uses without defining, are a parameter. */
module StickerPack {
  import opened Decimal

  /** `token`, `userID` and `botUsername`. */
  datatype BotConfig = BotConfig(token: string, userID: string, botUsername: string)

  /** Files per pack. */
  const ChunkSize: nat := 100

  // ---------------------------------------------------------------------
  // processChunk: names, endpoints and payloads

  /** `fmt.Sprintf("gif_pack_%d_%s_by_%s", chunkIdx, userID, botUsername)`. */
  function PackName(chunkIdx: nat, cfg: BotConfig): string {
    "gif_pack_" + NatToString(chunkIdx) + "_" + cfg.userID + "_by_" + cfg.botUsername
  }

  /** `fmt.Sprintf("Go GIF Pack Part %d", chunkIdx+1)`. */
  function Title(chunkIdx: nat): string {
    "Go GIF Pack Part " + NatToString(chunkIdx + 1)
  }

  const TitlePrefix: string := "Go GIF Pack Part "

  /** Digits followed by `_` cannot be confused with other digits followed by `_`. */
  lemma DigitsThenUnderscore(a: string, b: string, x: string, y: string)
    requires forall i | 0 <= i < |a| :: IsDigit(a[i])
    requires forall i | 0 <= i < |b| :: IsDigit(b[i])
    requires a + "_" + x == b + "_" + y
    ensures a == b
  {
    var s := a + "_" + x;
    assert s[|a|] == '_';
    assert s[|b|] == '_';
    assert a == s[..|a|] && b == s[..|b|];
  }

  /** The pack name embeds the chunk index: different chunks get different packs. */
  lemma PackNameInjective(i: nat, j: nat, cfg: BotConfig)
    ensures PackName(i, cfg) == PackName(j, cfg) <==> i == j
  {
    if PackName(i, cfg) == PackName(j, cfg) {
      var rest := cfg.userID + "_by_" + cfg.botUsername;
      var a, b := NatToString(i), NatToString(j);
      assert PackName(i, cfg) == "gif_pack_" + (a + "_" + rest);
      assert PackName(j, cfg) == "gif_pack_" + (b + "_" + rest);
      assert a + "_" + rest == PackName(i, cfg)[9..] == b + "_" + rest;
      DigitsThenUnderscore(a, b, rest, rest);
      NatToStringInjective(i, j);
    }
  }

  /** The title reads `Go GIF Pack Part ` followed by the number of the pack, counting from 1. */
  lemma TitleNumber(chunkIdx: nat)
    ensures |Title(chunkIdx)| > |TitlePrefix| && Title(chunkIdx)[..|TitlePrefix|] == TitlePrefix
    ensures ParseNat(Title(chunkIdx)[|TitlePrefix|..]) == chunkIdx + 1
  {
    assert Title(chunkIdx)[|TitlePrefix|..] == NatToString(chunkIdx + 1);
    ParseNatToString(chunkIdx + 1);
  }

  function CreateEndpoint(cfg: BotConfig): string {
    "https://api.telegram.org/bot" + cfg.token + "/createNewStickerSet"
  }

  function AddEndpoint(cfg: BotConfig): string {
    "https://api.telegram.org/bot" + cfg.token + "/addStickerToSet"
  }

  /** `json.Marshal` of the one-element sticker list (object keys in sorted order). */
  const StickersJson: string := "[{\"emoji_list\":[\"\U{1F525}\"],\"format\":\"video\",\"sticker\":\"attach://sticker_file\"}]"

  /** `json.Marshal` of the single sticker object. */
  const StickerJson: string := "{\"emoji_list\":[\"\U{1F525}\"],\"format\":\"video\",\"sticker\":\"attach://sticker_file\"}"

  /** The form fields of one upload: those of `createNewStickerSet` or those of `addStickerToSet`. */
  datatype Payload =
    | CreateSet(userID: string, name: string, title: string, stickers: string, stickerFormat: string)
    | AddSticker(userID: string, name: string, sticker: string)
  {
    /** `payload` as the `map[string]string` written into the multipart body. */
    function Fields(): map<string, string> {
      match this
      case CreateSet(u, n, t, ss, f) =>
        map["user_id" := u, "name" := n, "title" := t, "stickers" := ss, "sticker_format" := f]
      case AddSticker(u, n, st) =>
        map["user_id" := u, "name" := n, "sticker" := st]
    }
  }

  /** One upload: endpoint, form fields, and the file sent as `sticker_file`. */
  datatype Request = Request(url: string, payload: Payload, file: string)

  /** The request for file number `idx` of chunk `chunkIdx`. */
  function ChunkRequest(cfg: BotConfig, chunkIdx: nat, idx: nat, file: string): Request {
    var name := PackName(chunkIdx, cfg);
    if idx == 0 then
      Request(CreateEndpoint(cfg), CreateSet(cfg.userID, name, Title(chunkIdx), StickersJson, "video"), file)
    else
      Request(AddEndpoint(cfg), AddSticker(cfg.userID, name, StickerJson), file)
  }

  /** The first file of a chunk creates the pack with the fields user_id, name,
      title, stickers and sticker_format; every later file adds to it with the
      fields user_id, name and sticker. All of them name the chunk's pack. */
  lemma ChunkRequestShape(cfg: BotConfig, chunkIdx: nat, idx: nat, file: string)
    ensures var r := ChunkRequest(cfg, chunkIdx, idx, file);
      var fields := r.payload.Fields();
      && r.file == file
      && "name" in fields && fields["name"] == PackName(chunkIdx, cfg)
      && "user_id" in fields && fields["user_id"] == cfg.userID
      && (idx == 0 ==>
            && r.url == CreateEndpoint(cfg)
            && fields.Keys == {"user_id", "name", "title", "stickers", "sticker_format"}
            && fields["title"] == Title(chunkIdx)
            && fields["stickers"] == StickersJson
            && fields["sticker_format"] == "video")
      && (idx != 0 ==>
            && r.url == AddEndpoint(cfg)
            && fields.Keys == {"user_id", "name", "sticker"}
            && fields["sticker"] == StickerJson)
  {
  }

  /** The two endpoints differ, so creating and adding are never confused. */
  lemma EndpointsDiffer(cfg: BotConfig)
    ensures CreateEndpoint(cfg) != AddEndpoint(cfg)
  {
    var n := |"https://api.telegram.org/bot" + cfg.token|;
    assert CreateEndpoint(cfg)[n + 1] == 'c';
    assert AddEndpoint(cfg)[n + 1] == 'a';
  }

  /** `reqs` are the requests of chunk `chunkIdx` holding `chunk`, one per file, in order. */
  ghost predicate ChunkRequests(cfg: BotConfig, chunkIdx: nat, chunk: seq<string>, reqs: seq<Request>) {
    |reqs| == |chunk| &&
    forall idx | 0 <= idx < |chunk| :: reqs[idx] == ChunkRequest(cfg, chunkIdx, idx, chunk[idx])
  }

  /** `for idx, file := range chunk`: the requests of one chunk, in order. */
  method ProcessChunk(cfg: BotConfig, chunkIdx: nat, chunk: seq<string>) returns (reqs: seq<Request>)
    ensures ChunkRequests(cfg, chunkIdx, chunk, reqs)
  {
    reqs := [];
    for idx := 0 to |chunk|
      invariant |reqs| == idx
      invariant forall j | 0 <= j < idx :: reqs[j] == ChunkRequest(cfg, chunkIdx, j, chunk[j])
    {
      reqs := reqs + [ChunkRequest(cfg, chunkIdx, idx, chunk[idx])];
    }
  }

  // ---------------------------------------------------------------------
  // main: the chunk loop

  /** One call `processChunk(i/100, files[i:end])`. */
  datatype Chunk = Chunk(index: nat, files: seq<string>)

  function Min(a: int, b: int): int {
    if a < b then a else b
  }

  function Concat(chunks: seq<Chunk>): seq<string>
    decreases |chunks|
  {
    if chunks == [] then [] else Concat(chunks[..|chunks| - 1]) + chunks[|chunks| - 1].files
  }

  lemma ConcatSnoc(chunks: seq<Chunk>, c: Chunk)
    ensures Concat(chunks + [c]) == Concat(chunks) + c.files
  {
    assert (chunks + [c])[..|chunks|] == chunks;
  }

  /** The files of chunk k sit at positions with quotient k and remainder their place in the chunk. */
  lemma ChunkPositions(k: nat, j: int)
    requires k * ChunkSize <= j < k * ChunkSize + ChunkSize
    ensures j / ChunkSize == k && j % ChunkSize == j - k * ChunkSize
  {
  }

  /** Chunk k is `files[100k : min(100k+100, n)]`. */
  ghost predicate ChunksOf(files: seq<string>, chunks: seq<Chunk>) {
    forall k | 0 <= k < |chunks| ::
      && chunks[k].index == k
      && k * ChunkSize <= Min(k * ChunkSize + ChunkSize, |files|) <= |files|
      && chunks[k].files == files[k * ChunkSize .. Min(k * ChunkSize + ChunkSize, |files|)]
  }

  /** File j is sent as file j % 100 of chunk j / 100. */
  ghost predicate RequestsOf(cfg: BotConfig, files: seq<string>, reqs: seq<Request>) {
    |reqs| <= |files| &&
    forall j | 0 <= j < |reqs| :: reqs[j] == ChunkRequest(cfg, j / ChunkSize, j % ChunkSize, files[j])
  }

  /** One more round of the chunk loop extends the chunk list by the next slice. */
  lemma ChunksOfSnoc(files: seq<string>, chunks: seq<Chunk>, i: nat, end: nat)
    requires ChunksOf(files, chunks) && i == |chunks| * ChunkSize && i < |files|
    requires end == Min(i + ChunkSize, |files|)
    ensures ChunksOf(files, chunks + [Chunk(|chunks|, files[i..end])])
  {
    var c := chunks + [Chunk(|chunks|, files[i..end])];
    forall k | 0 <= k < |c|
      ensures && c[k].index == k
              && k * ChunkSize <= Min(k * ChunkSize + ChunkSize, |files|) <= |files|
              && c[k].files == files[k * ChunkSize .. Min(k * ChunkSize + ChunkSize, |files|)]
    {
      if k < |chunks| {
        assert c[k] == chunks[k];
      }
    }
  }

  /** ... and the request list by the chunk's requests. */
  lemma RequestsOfAppend(cfg: BotConfig, files: seq<string>, reqs: seq<Request>, more: seq<Request>, c: nat, end: nat)
    requires RequestsOf(cfg, files, reqs) && |reqs| == c * ChunkSize
    requires c * ChunkSize <= end <= |files| && end <= c * ChunkSize + ChunkSize
    requires ChunkRequests(cfg, c, files[c * ChunkSize..end], more)
    ensures RequestsOf(cfg, files, reqs + more)
  {
    var i := c * ChunkSize;
    forall j | 0 <= j < |reqs + more|
      ensures (reqs + more)[j] == ChunkRequest(cfg, j / ChunkSize, j % ChunkSize, files[j])
    {
      if j >= i {
        ChunkPositions(c, j);
        assert (reqs + more)[j] == more[j - i];
      }
    }
  }

  /** What the chunk loop has done once it reaches position `i`: the chunks
      and requests of `files[..i]`. */
  ghost predicate LoopDone(cfg: BotConfig, files: seq<string>, i: nat, chunks: seq<Chunk>, reqs: seq<Request>) {
    && i == |chunks| * ChunkSize
    && (|chunks| == 0 || i - ChunkSize < |files|)
    && ChunksOf(files, chunks)
    && Concat(chunks) == files[..Min(i, |files|)]
    && |reqs| == Min(i, |files|) && RequestsOf(cfg, files, reqs)
  }

  /** One round of the chunk loop: `end = min(i+100, len(files))`, then
      `processChunk(i/100, files[i:end])`. */
  method NextChunk(cfg: BotConfig, files: seq<string>, i: nat, chunks: seq<Chunk>, reqs: seq<Request>)
    returns (chunks': seq<Chunk>, reqs': seq<Request>)
    requires i < |files| && LoopDone(cfg, files, i, chunks, reqs)
    ensures LoopDone(cfg, files, i + ChunkSize, chunks', reqs')
  {
    var end := i + ChunkSize;
    if end > |files| {
      end := |files|;
    }
    ChunkPositions(|chunks|, i);
    var chunk := Chunk(i / ChunkSize, files[i..end]);
    var more := ProcessChunk(cfg, i / ChunkSize, files[i..end]);
    ConcatSnoc(chunks, chunk);
    assert files[..end] == files[..i] + files[i..end];
    ChunksOfSnoc(files, chunks, i, end);
    RequestsOfAppend(cfg, files, reqs, more, |chunks|, end);
    chunks' := chunks + [chunk];
    reqs' := reqs + more;
  }

  /** The chunks main hands to processChunk, in order, and every request
      they issue, in order, assuming each request is eventually accepted.
      `files` is the sorted glob result. */
  method UploadAll(files: seq<string>, cfg: BotConfig) returns (chunks: seq<Chunk>, reqs: seq<Request>)
    ensures |chunks| == (|files| + ChunkSize - 1) / ChunkSize
    ensures ChunksOf(files, chunks)
    ensures Concat(chunks) == files
    ensures |reqs| == |files| && RequestsOf(cfg, files, reqs)
  {
    chunks, reqs := [], [];
    if |files| == 0 {
      return;
    }
    var i := 0;
    while i < |files|
      invariant LoopDone(cfg, files, i, chunks, reqs)
      decreases |files| - i
    {
      chunks, reqs := NextChunk(cfg, files, i, chunks, reqs);
      i := i + ChunkSize;
    }
    assert files[..|files|] == files;
  }

  /** Every chunk is non-empty and holds at most 100 files, and every chunk but the last holds exactly 100. */
  lemma ChunkSizes(files: seq<string>, chunks: seq<Chunk>)
    requires |chunks| == (|files| + ChunkSize - 1) / ChunkSize
    requires ChunksOf(files, chunks)
    ensures forall k | 0 <= k < |chunks| :: 1 <= |chunks[k].files| <= ChunkSize
    ensures forall k | 0 <= k < |chunks| - 1 :: |chunks[k].files| == ChunkSize
    ensures files == [] <==> chunks == []
  {
    forall k | 0 <= k < |chunks| ensures k * ChunkSize < |files| {
      assert (k + 1) * ChunkSize <= |files| + ChunkSize - 1;
    }
    forall k | 0 <= k < |chunks| - 1 ensures k * ChunkSize + ChunkSize <= |files| {
      assert (k + 2) * ChunkSize <= |files| + ChunkSize - 1;
    }
  }

  /** Two requests of the run name the same pack exactly when their files fall in the same chunk. */
  lemma SamePackIffSameChunk(cfg: BotConfig, files: seq<string>, reqs: seq<Request>, i: nat, j: nat)
    requires |reqs| == |files| && RequestsOf(cfg, files, reqs)
    requires i < |files| && j < |files|
    ensures "name" in reqs[i].payload.Fields() && "name" in reqs[j].payload.Fields()
    ensures reqs[i].payload.Fields()["name"] == reqs[j].payload.Fields()["name"] <==> i / ChunkSize == j / ChunkSize
    ensures reqs[i].url == CreateEndpoint(cfg) <==> i % ChunkSize == 0
  {
    ChunkRequestShape(cfg, i / ChunkSize, i % ChunkSize, files[i]);
    ChunkRequestShape(cfg, j / ChunkSize, j % ChunkSize, files[j]);
    PackNameInjective(i / ChunkSize, j / ChunkSize, cfg);
    EndpointsDiffer(cfg);
  }

  // ---------------------------------------------------------------------
  // sendRequestWithRetry

  /** The fields of the decoded answer that the client looks at. */
  datatype TelegramResponse = TelegramResponse(ok: bool, description: string, retryAfter: int)

  /** One round trip: the client's `Do` failed, or Telegram answered. */
  datatype Attempt = NetworkError | Reply(response: TelegramResponse)

  datatype Decision = Done | Wait(seconds: nat) | Fail(description: string)

  /** What the loop does after one attempt. */
  function Decide(a: Attempt): (d: Decision)
    ensures d.Wait? ==> d.seconds > 0
  {
    match a
    case NetworkError => Wait(5)
    case Reply(r) =>
      if r.ok then Done
      else if r.retryAfter > 0 then Wait(r.retryAfter)
      else Fail(r.description)
  }

  /** A successful answer ends the request; a rate limit waits `retry_after`
      seconds and a network error 5 seconds before trying again; any other
      answer is fatal. */
  lemma DecideCases(a: Attempt)
    ensures Decide(a) == Done <==> a.Reply? && a.response.ok
    ensures Decide(a).Fail? <==> a.Reply? && !a.response.ok && a.response.retryAfter <= 0
    ensures Decide(a).Wait? <==> a.NetworkError? || (!a.response.ok && a.response.retryAfter > 0)
    ensures a.Reply? && !a.response.ok && a.response.retryAfter > 0 ==> Decide(a) == Wait(a.response.retryAfter)
    ensures a.NetworkError? ==> Decide(a) == Wait(5)
  {
  }

  /** How the loop ended: the request was accepted (`return`), the process
      exited with Telegram's description (`os.Exit(1)`), or every given
      attempt asked for another try and the loop is still running. */
  datatype Outcome = Sent | Exited(description: string) | StillRetrying

  /** The loop `for { ... }` over the answers `attempts` would produce, in
      order; `sleeps` are the waits it performs. */
  method SendRequestWithRetry(attempts: seq<Attempt>) returns (outcome: Outcome, used: nat, sleeps: seq<nat>)
    ensures used <= |attempts| && |sleeps| <= used
    ensures forall k | 0 <= k < |sleeps| :: Decide(attempts[k]) == Wait(sleeps[k])
    ensures outcome == Sent ==> 0 < used && Decide(attempts[used - 1]) == Done && |sleeps| == used - 1
    ensures outcome.Exited? ==> 0 < used && Decide(attempts[used - 1]) == Fail(outcome.description) && |sleeps| == used - 1
    ensures outcome == StillRetrying ==> used == |attempts| && |sleeps| == |attempts|
  {
    used := 0;
    sleeps := [];
    while used < |attempts|
      invariant used <= |attempts| && |sleeps| == used
      invariant forall k | 0 <= k < used :: Decide(attempts[k]) == Wait(sleeps[k])
      decreases |attempts| - used
    {
      var a := attempts[used];
      used := used + 1;
      match a
      case NetworkError =>
        sleeps := sleeps + [5];
      case Reply(r) =>
        if r.ok {
          return Sent, used, sleeps;
        }
        if r.retryAfter > 0 {
          sleeps := sleeps + [r.retryAfter];
        } else {
          return Exited(r.description), used, sleeps;
        }
    }
    outcome := StillRetrying;
  }

  /** The sleeps of a retry loop that ended are exactly the waits asked for by
      all attempts before the last one, and each is positive. */
  lemma RetryPrefixWaits(attempts: seq<Attempt>, used: nat, sleeps: seq<nat>)
    requires 0 < used <= |attempts| && |sleeps| == used - 1
    requires forall k | 0 <= k < |sleeps| :: Decide(attempts[k]) == Wait(sleeps[k])
    ensures forall k | 0 <= k < used - 1 :: Decide(attempts[k]).Wait? && sleeps[k] > 0
    ensures forall k | 0 <= k < used - 1 :: attempts[k].NetworkError? || !attempts[k].response.ok
  {
    forall k | 0 <= k < used - 1
      ensures attempts[k].NetworkError? || !attempts[k].response.ok
    {
      DecideCases(attempts[k]);
    }
  }
}
