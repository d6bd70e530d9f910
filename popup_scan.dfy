/** The DOM scan the popup injects into the page (`scanDomForGifs` in
    extension/popup.js): raw URL references are read from a fixed list of
    element attributes and CSS texts, resolved against the page, kept when the
    resolved href looks like a GIF, and collected into an insertion-ordered set.
    The document is given as the lists of raw attribute values the selectors
    would return; `resolve` stands for `new URL(raw, location.href).href`
    (None when the constructor throws). */
module PopupScan {
  import opened Wrappers
  import opened Text
  import opened InsertionSet

  // ---------------------------------------------------------------------
  // The href test /\.gif(\?|#|$)/i

  /** `.gif` in any letter case at position i, followed by `?`, `#` or the end. */
  predicate GifMarkAt(s: string, i: nat) {
    && i + 4 <= |s|
    && s[i] == '.' && Lower(s[i + 1]) == 'g' && Lower(s[i + 2]) == 'i' && Lower(s[i + 3]) == 'f'
    && (i + 4 == |s| || s[i + 4] == '?' || s[i + 4] == '#')
  }

  /** The regular-expression search for the mark, from position `from` on. */
  function TestGifFrom(s: string, from: nat): bool
    requires from <= |s|
    decreases |s| - from
  {
    if from == |s| then false else GifMarkAt(s, from) || TestGifFrom(s, from + 1)
  }

  function TestGif(s: string): bool {
    TestGifFrom(s, 0)
  }

  lemma {:induction false} TestGifFromIff(s: string, from: nat)
    requires from <= |s|
    ensures TestGifFrom(s, from) <==> exists i: nat :: from <= i < |s| && GifMarkAt(s, i)
    decreases |s| - from
  {
    if from < |s| {
      TestGifFromIff(s, from + 1);
    }
  }

  /** The test holds exactly when `.gif`, in any case, occurs followed by `?`, `#` or the end. */
  lemma TestGifIff(s: string)
    ensures TestGif(s) <==> exists i: nat :: i < |s| && GifMarkAt(s, i)
  {
    TestGifFromIff(s, 0);
  }

  // ---------------------------------------------------------------------
  // addIfGif

  /** What `addIfGif(raw)` adds to the set: nothing for a missing or empty
      value, for a reference that does not resolve, or for a resolved href that
      fails the test; otherwise the resolved href of the trimmed value. */
  function Keep(resolve: string -> Option<string>, raw: Option<string>): Option<string> {
    if raw.None? || raw.value == "" then None
    else
      match resolve(Trim(raw.value))
      case None => None
      case Some(href) => if TestGif(href) then Some(href) else None
  }

  /** The href kept from one raw value, as a list of none or one. */
  function Kept(resolve: string -> Option<string>, raw: Option<string>): seq<string> {
    match Keep(resolve, raw)
    case None => []
    case Some(h) => [h]
  }

  /** `f` applied to each element of `xs`, the results concatenated in order. */
  function FlatMap<T, U>(f: T -> seq<U>, xs: seq<T>): seq<U>
    decreases |xs|
  {
    if xs == [] then [] else FlatMap(f, xs[..|xs| - 1]) + f(xs[|xs| - 1])
  }

  lemma {:induction false} FlatMapAppend<T, U>(f: T -> seq<U>, xs: seq<T>, ys: seq<T>)
    ensures FlatMap(f, xs + ys) == FlatMap(f, xs) + FlatMap(f, ys)
    decreases |ys|
  {
    if ys == [] {
      assert xs + ys == xs;
    } else {
      var n := |ys| - 1;
      var zs := xs + ys;
      FlatMapAppend(f, xs, ys[..n]);
      assert zs[..|zs| - 1] == xs + ys[..n] && zs[|zs| - 1] == ys[n];
      AppendAssoc(FlatMap(f, xs), FlatMap(f, ys[..n]), f(ys[n]));
    }
  }

  lemma {:induction false} FlatMapMembers<T, U>(f: T -> seq<U>, xs: seq<T>)
    ensures forall y :: y in FlatMap(f, xs) <==> exists i :: 0 <= i < |xs| && y in f(xs[i])
    decreases |xs|
  {
    if xs != [] {
      var n := |xs| - 1;
      FlatMapMembers(f, xs[..n]);
      assert forall i | 0 <= i < n :: xs[..n][i] == xs[i];
    }
  }

  /** The hrefs kept from a sequence of raw values, in order, repeats included. */
  function AcceptAll(resolve: string -> Option<string>, raws: seq<Option<string>>): seq<string> {
    FlatMap((raw: Option<string>) => Kept(resolve, raw), raws)
  }

  /** An href is kept from a sequence of raw values exactly when it is kept from one of them. */
  lemma AcceptAllMembers(resolve: string -> Option<string>, raws: seq<Option<string>>)
    ensures forall h :: h in AcceptAll(resolve, raws) <==> exists i :: 0 <= i < |raws| && Keep(resolve, raws[i]) == Some(h)
    ensures forall h | h in AcceptAll(resolve, raws) :: TestGif(h)
  {
    FlatMapMembers((raw: Option<string>) => Kept(resolve, raw), raws);
    forall i, h | 0 <= i < |raws| ensures h in Kept(resolve, raws[i]) <==> Keep(resolve, raws[i]) == Some(h) {
    }
    forall i, h | 0 <= i < |raws| && Keep(resolve, raws[i]) == Some(h) ensures TestGif(h) {
    }
  }

  lemma AcceptAllAppend(resolve: string -> Option<string>, xs: seq<Option<string>>, ys: seq<Option<string>>)
    ensures AcceptAll(resolve, xs + ys) == AcceptAll(resolve, xs) + AcceptAll(resolve, ys)
  {
    FlatMapAppend((raw: Option<string>) => Kept(resolve, raw), xs, ys);
  }

  // ---------------------------------------------------------------------
  // parseUrlsFromCss: /url\(\s*['"]?([^'")\s]+)['"]?\s*\)/gi

  predicate IsQuote(c: char) {
    c == '\'' || c == '"'
  }

  /** The characters of the captured group `[^'")\s]`. */
  predicate IsCssUrlChar(c: char) {
    !IsQuote(c) && c != ')' && !IsSpace(c)
  }

  function SkipSpaces(v: string, i: nat): (j: nat)
    requires i <= |v|
    ensures i <= j <= |v|
    decreases |v| - i
  {
    if i < |v| && IsSpace(v[i]) then SkipSpaces(v, i + 1) else i
  }

  function SkipUrlChars(v: string, i: nat): (j: nat)
    requires i <= |v|
    ensures i <= j <= |v|
    decreases |v| - i
  {
    if i < |v| && IsCssUrlChar(v[i]) then SkipUrlChars(v, i + 1) else i
  }

  /** `\s*` from i stops at the first character that is not white space. */
  lemma {:induction false} SkipSpacesMaximal(v: string, i: nat)
    requires i <= |v|
    ensures var j := SkipSpaces(v, i);
      (forall k | i <= k < j :: IsSpace(v[k])) && (j == |v| || !IsSpace(v[j]))
    decreases |v| - i
  {
    if i < |v| && IsSpace(v[i]) {
      SkipSpacesMaximal(v, i + 1);
    }
  }

  /** `[^'")\s]+` from i stops at the first character outside the class. */
  lemma {:induction false} SkipUrlCharsMaximal(v: string, i: nat)
    requires i <= |v|
    ensures var j := SkipUrlChars(v, i);
      (forall k | i <= k < j :: IsCssUrlChar(v[k])) && (j == |v| || !IsCssUrlChar(v[j]))
    decreases |v| - i
  {
    if i < |v| && IsCssUrlChar(v[i]) {
      SkipUrlCharsMaximal(v, i + 1);
    }
  }

  /** One match of the pattern: it spans [start, end) and its group [tokenStart, tokenEnd). */
  datatype CssMatch = CssMatch(start: nat, tokenStart: nat, tokenEnd: nat, end: nat)

  ghost predicate AllSpace(v: string, i: int, j: int) {
    0 <= i <= j <= |v| && forall k | i <= k < j :: IsSpace(v[k])
  }

  /** `\s*['"]?` spans exactly [i, j). */
  ghost predicate OpenPart(v: string, i: int, j: int) {
    AllSpace(v, i, j) || (i < j <= |v| && AllSpace(v, i, j - 1) && IsQuote(v[j - 1]))
  }

  /** `['"]?\s*` spans exactly [i, j). */
  ghost predicate ClosePart(v: string, i: int, j: int) {
    AllSpace(v, i, j) || (0 <= i < j <= |v| && IsQuote(v[i]) && AllSpace(v, i + 1, j))
  }

  /** The pattern matches `v` on [m.start, m.end) with its group on [m.tokenStart, m.tokenEnd). */
  ghost predicate UrlRef(v: string, m: CssMatch) {
    && m.start + 4 <= m.tokenStart < m.tokenEnd < m.end <= |v|
    && Lower(v[m.start]) == 'u' && Lower(v[m.start + 1]) == 'r' && Lower(v[m.start + 2]) == 'l'
    && v[m.start + 3] == '('
    && OpenPart(v, m.start + 4, m.tokenStart)
    && (forall k | m.tokenStart <= k < m.tokenEnd :: IsCssUrlChar(v[k]))
    && ClosePart(v, m.tokenEnd, m.end - 1)
    && v[m.end - 1] == ')'
  }

  /** Where `\s*['"]?` starting at i ends. */
  function OpenEnd(v: string, i: nat): (j: nat)
    requires i <= |v|
    ensures i <= j <= |v|
  {
    var a := SkipSpaces(v, i);
    if a < |v| && IsQuote(v[a]) then a + 1 else a
  }

  /** Where `['"]?\s*` starting at i ends. */
  function CloseEnd(v: string, i: nat): (j: nat)
    requires i <= |v|
    ensures i <= j <= |v|
  {
    SkipSpaces(v, if i < |v| && IsQuote(v[i]) then i + 1 else i)
  }

  lemma OpenEndSound(v: string, i: nat)
    requires i <= |v|
    ensures OpenPart(v, i, OpenEnd(v, i))
  {
    SkipSpacesMaximal(v, i);
  }

  /** Before a group character, `\s*['"]?` ends exactly where the pattern's open part does. */
  lemma OpenEndExact(v: string, i: nat, t: nat)
    requires OpenPart(v, i, t) && t < |v| && IsCssUrlChar(v[t])
    ensures OpenEnd(v, i) == t
  {
    SkipSpacesMaximal(v, i);
    var a := SkipSpaces(v, i);
    if AllSpace(v, i, t) {
      assert a == t;
    } else {
      assert a == t - 1;
    }
  }

  lemma CloseEndSound(v: string, i: nat)
    requires i <= |v|
    ensures ClosePart(v, i, CloseEnd(v, i))
  {
    SkipSpacesMaximal(v, if i < |v| && IsQuote(v[i]) then i + 1 else i);
  }

  /** Before the closing `)`, `['"]?\s*` ends exactly where the pattern's close part does. */
  lemma CloseEndExact(v: string, i: nat, e: nat)
    requires ClosePart(v, i, e) && e < |v| && v[e] == ')' && (i == |v| || !IsCssUrlChar(v[i]))
    ensures CloseEnd(v, i) == e
  {
    var d := if i < |v| && IsQuote(v[i]) then i + 1 else i;
    SkipSpacesMaximal(v, d);
    if AllSpace(v, i, e) {
      assert d == i;
    } else {
      assert d == i + 1;
    }
  }

  lemma SkipUrlCharsExact(v: string, i: nat, j: nat)
    requires i <= j <= |v| && (forall k | i <= k < j :: IsCssUrlChar(v[k])) && (j == |v| || !IsCssUrlChar(v[j]))
    ensures SkipUrlChars(v, i) == j
  {
    SkipUrlCharsMaximal(v, i);
  }

  /** The regular-expression engine's attempt at position p. Because the
      group excludes quotes, `)` and white space, no backtracking alternative
      can succeed, so each part is matched greedily once. */
  function MatchAt(v: string, p: nat): (r: Option<CssMatch>)
    requires p <= |v|
    ensures r.Some? ==> r.value.start == p <= r.value.tokenStart <= r.value.tokenEnd < r.value.end <= |v|
  {
    if p + 4 > |v| then None
    else if !(Lower(v[p]) == 'u' && Lower(v[p + 1]) == 'r' && Lower(v[p + 2]) == 'l' && v[p + 3] == '(') then None
    else
      var b := OpenEnd(v, p + 4);
      var c := SkipUrlChars(v, b);
      var e := CloseEnd(v, c);
      if b < c && e < |v| && v[e] == ')' then Some(CssMatch(p, b, c, e + 1)) else None
  }

  /** A match found at p is a match of the pattern starting at p. */
  lemma MatchAtSound(v: string, p: nat)
    requires p <= |v|
    ensures var r := MatchAt(v, p); r.Some? ==> r.value.start == p && UrlRef(v, r.value)
  {
    if p + 4 <= |v| {
      var b := OpenEnd(v, p + 4);
      OpenEndSound(v, p + 4);
      SkipUrlCharsMaximal(v, b);
      CloseEndSound(v, SkipUrlChars(v, b));
    }
  }

  /** Conversely, whenever the pattern matches at m.start, MatchAt finds exactly that match. */
  lemma MatchAtComplete(v: string, m: CssMatch)
    requires UrlRef(v, m)
    ensures MatchAt(v, m.start) == Some(m)
  {
    OpenEndExact(v, m.start + 4, m.tokenStart);
    assert !IsCssUrlChar(v[m.tokenEnd]);
    SkipUrlCharsExact(v, m.tokenStart, m.tokenEnd);
    CloseEndExact(v, m.tokenEnd, m.end - 1);
  }

  /** `re.exec(value)` with `re.lastIndex == from`: the leftmost match at or after `from`. */
  function NextMatch(v: string, from: nat): (r: Option<CssMatch>)
    requires from <= |v|
    ensures r.Some? ==> from <= r.value.start <= r.value.tokenStart <= r.value.tokenEnd < r.value.end <= |v|
    decreases |v| - from
  {
    match MatchAt(v, from)
    case Some(m) => Some(m)
    case None => if from == |v| then None else NextMatch(v, from + 1)
  }

  /** What `exec` returns is the engine's match at its own start position. */
  lemma {:induction false} NextMatchFound(v: string, from: nat)
    requires from <= |v|
    ensures var r := NextMatch(v, from); r.Some? ==> MatchAt(v, r.value.start) == r
    decreases |v| - from
  {
    if MatchAt(v, from).None? && from < |v| {
      NextMatchFound(v, from + 1);
    }
  }

  /** The match `exec` returns is the leftmost one; when it returns null there is none. */
  lemma {:induction false} NextMatchLeftmost(v: string, from: nat)
    requires from <= |v|
    ensures var r := NextMatch(v, from);
      && (r.Some? ==> forall q | from <= q < r.value.start :: MatchAt(v, q).None?)
      && (r.None? ==> forall q | from <= q <= |v| :: MatchAt(v, q).None?)
    decreases |v| - from
  {
    if MatchAt(v, from).None? && from < |v| {
      NextMatchLeftmost(v, from + 1);
    }
  }

  /** The captured groups of the successive matches from `from` on, as the
      `while ((m = re.exec(value)) !== null)` loop sees them. */
  function CssTokensFrom(v: string, from: nat): seq<string>
    requires from <= |v|
    decreases |v| - from
  {
    match NextMatch(v, from)
    case None => []
    case Some(m) => [v[m.tokenStart..m.tokenEnd]] + CssTokensFrom(v, m.end)
  }

  /** One step of the `exec` loop: a match yields its group, and the search resumes at its end. */
  lemma CssTokensFromStep(v: string, from: nat)
    requires from <= |v| && NextMatch(v, from).Some?
    ensures var m := NextMatch(v, from).value;
      && from <= m.start < m.end <= |v|
      && m.tokenStart <= m.tokenEnd <= |v|
      && CssTokensFrom(v, from) == [v[m.tokenStart..m.tokenEnd]] + CssTokensFrom(v, m.end)
  {
    NextMatchFound(v, from);
    MatchAtSound(v, NextMatch(v, from).value.start);
  }

  /** A non-empty run of group characters. */
  predicate IsUrlToken(t: string) {
    t != [] && forall i | 0 <= i < |t| :: IsCssUrlChar(t[i])
  }

  /** `t` is the group of some match of the pattern starting at or after `from`. */
  ghost predicate IsGroupFrom(v: string, from: nat, t: string) {
    exists m :: UrlRef(v, m) && from <= m.start && t == v[m.tokenStart..m.tokenEnd]
  }

  /** Every extracted token is non-empty, free of quotes, `)` and white space,
      and is the group of a match of the pattern in the text. */
  lemma {:induction false} CssTokensShape(v: string, from: nat)
    requires from <= |v|
    ensures forall t | t in CssTokensFrom(v, from) :: IsUrlToken(t) && IsGroupFrom(v, from, t)
    decreases |v| - from
  {
    match NextMatch(v, from)
    case None =>
    case Some(m) =>
      CssTokensFromStep(v, from);
      NextMatchFound(v, from);
      MatchAtSound(v, m.start);
      CssTokensShape(v, m.end);
      var head := v[m.tokenStart..m.tokenEnd];
      assert IsUrlToken(head) by {
        forall i | 0 <= i < |head| ensures IsCssUrlChar(head[i]) {
          assert head[i] == v[m.tokenStart + i];
        }
      }
      assert IsGroupFrom(v, from, head);
      forall t | t in CssTokensFrom(v, m.end) ensures IsGroupFrom(v, from, t) {
        var m' :| UrlRef(v, m') && m.end <= m'.start && t == v[m'.tokenStart..m'.tokenEnd];
      }
  }

  lemma AppendAssoc<T>(a: seq<T>, b: seq<T>, c: seq<T>)
    ensures a + (b + c) == (a + b) + c
  {
  }

  /** The tokens `parseUrlsFromCss(value)` passes on; an empty value yields none. */
  function CssTokens(value: string): seq<string> {
    if value == "" then [] else CssTokensFrom(value, 0)
  }

  // ---------------------------------------------------------------------
  // srcset

  /** `srcset.split(',').map(s => s.trim().split(/\s+/)[0])`. */
  function SrcsetCandidates(srcset: string): seq<string> {
    var parts := Split(srcset, ',');
    seq(|parts|, k requires 0 <= k < |parts| => FirstToken(Trim(parts[k])))
  }

  /** The srcset is cut at every comma, and each candidate is the first
      white-space-delimited token of its trimmed part. */
  lemma SrcsetCandidatesShape(srcset: string)
    ensures var parts := Split(srcset, ',');
      && Join(parts, ',') == srcset
      && (forall k | 0 <= k < |parts| :: ',' !in parts[k])
      && |SrcsetCandidates(srcset)| == |parts|
      && forall k | 0 <= k < |parts| ::
           var t, c := Trim(parts[k]), SrcsetCandidates(srcset)[k];
           && (t == [] || (!IsSpace(t[0]) && !IsSpace(t[|t| - 1])))
           && c <= t
           && (forall i | 0 <= i < |c| :: !IsSpace(c[i]))
           && (|c| == |t| || IsSpace(t[|c|]))
  {
    var parts := Split(srcset, ',');
    JoinSplit(srcset, ',');
    SplitPartsHaveNoSeparator(srcset, ',');
    forall k | 0 <= k < |parts|
      ensures var t := Trim(parts[k]); t == [] || (!IsSpace(t[0]) && !IsSpace(t[|t| - 1]))
    {
      TrimShape(parts[k]);
    }
  }

  // ---------------------------------------------------------------------
  // The document and the values each selector contributes

  /** An `<img>`: `src`, the `data-src`, `data-original`, `data-lazy` and
      `data-gif` attributes (absent ones are None) and `srcset`. */
  datatype ImgElement = ImgElement(
    src: string, dataSrc: Option<string>, dataOriginal: Option<string>,
    dataLazy: Option<string>, dataGif: Option<string>, srcset: string)

  /** A `<source>`: `src` and `srcset`. */
  datatype SourceElement = SourceElement(src: string, srcset: string)

  /** A `<video>`: `src` and `currentSrc`. */
  datatype VideoElement = VideoElement(src: string, currentSrc: string)

  /** What the selectors of the scan return, in document order. */
  datatype Document = Document(
    images: seq<ImgElement>,
    sources: seq<SourceElement>,
    videos: seq<VideoElement>,
    preloadImageHrefs: seq<string>,   // link[rel="preload"][as="image"] href
    metaImageContents: seq<string>,   // meta og:image / twitter:image content
    styleAttributes: seq<string>,     // [style] getAttribute('style')
    styleTexts: seq<string>,          // <style> textContent
    anchorHrefs: seq<string>)         // a[href] getAttribute('href')

  function MapSome(xs: seq<string>): (r: seq<Option<string>>)
    ensures |r| == |xs| && forall i | 0 <= i < |xs| :: r[i] == Some(xs[i])
  {
    seq(|xs|, i requires 0 <= i < |xs| => Some(xs[i]))
  }

  lemma MapSomeSnoc(xs: seq<string>, x: string)
    ensures MapSome(xs + [x]) == MapSome(xs) + [Some(x)]
  {
    assert MapSome(xs + [x]) == MapSome(xs) + [Some(x)];
  }

  function SrcsetRaws(srcset: string): seq<Option<string>> {
    if srcset == "" then [] else MapSome(SrcsetCandidates(srcset))
  }

  function ImgRaws(el: ImgElement): seq<Option<string>> {
    [Some(el.src), el.dataSrc, el.dataOriginal, el.dataLazy, el.dataGif] + SrcsetRaws(el.srcset)
  }

  function SourceRaws(el: SourceElement): seq<Option<string>> {
    [Some(el.src)] + SrcsetRaws(el.srcset)
  }

  function VideoRaws(el: VideoElement): seq<Option<string>> {
    [Some(el.src), Some(el.currentSrc)]
  }

  function AttrRaws(value: string): seq<Option<string>> {
    [Some(value)]
  }

  function StyleRaws(value: string): seq<Option<string>> {
    MapSome(CssTokens(value))
  }

  /** Every raw value handed to `addIfGif` during a scan, in call order. */
  function DocumentRaws(doc: Document): seq<Option<string>> {
    FlatMap(ImgRaws, doc.images)
    + FlatMap(SourceRaws, doc.sources)
    + FlatMap(VideoRaws, doc.videos)
    + FlatMap(AttrRaws, doc.preloadImageHrefs)
    + FlatMap(AttrRaws, doc.metaImageContents)
    + FlatMap(StyleRaws, doc.styleAttributes)
    + FlatMap(StyleRaws, doc.styleTexts)
    + FlatMap(AttrRaws, doc.anchorHrefs)
  }

  /** `[...urls]` at the end of the scan. */
  function ScanResult(doc: Document, resolve: string -> Option<string>): seq<string> {
    InsertAll([], AcceptAll(resolve, DocumentRaws(doc)))
  }

  /** The scan lists each kept href once, lists exactly the hrefs kept from
      some raw value, only hrefs passing the test, in order of first discovery. */
  lemma ScanResultProperties(doc: Document, resolve: string -> Option<string>)
    ensures var raws, r := DocumentRaws(doc), ScanResult(doc, resolve);
      && NoDup(r)
      && (forall h :: h in r <==> exists i :: 0 <= i < |raws| && Keep(resolve, raws[i]) == Some(h))
      && (forall h | h in r :: TestGif(h))
      && forall i, j | 0 <= i < j < |r| ::
           r[i] in AcceptAll(resolve, raws) && r[j] in AcceptAll(resolve, raws) &&
           FirstIndex(AcceptAll(resolve, raws), r[i]) < FirstIndex(AcceptAll(resolve, raws), r[j])
  {
    var raws := DocumentRaws(doc);
    var kept := AcceptAll(resolve, raws);
    AcceptAllMembers(resolve, raws);
    InsertAllMembers([], kept);
    InsertAllOrder(kept);
  }

  // ---------------------------------------------------------------------
  // The scan itself

  /** The `urls` Set after `addIfGif` has been called on each of `raws`, starting from `urls`. */
  function Collect(resolve: string -> Option<string>, urls: seq<string>, raws: seq<Option<string>>): seq<string> {
    InsertAll(urls, AcceptAll(resolve, raws))
  }

  /** Two batches of `addIfGif` calls one after the other are one batch. */
  lemma CollectAppend(resolve: string -> Option<string>, urls: seq<string>, xs: seq<Option<string>>, ys: seq<Option<string>>)
    ensures Collect(resolve, Collect(resolve, urls, xs), ys) == Collect(resolve, urls, xs + ys)
  {
    AcceptAllAppend(resolve, xs, ys);
    InsertAllAppend(urls, AcceptAll(resolve, xs), AcceptAll(resolve, ys));
  }

  /** One `addIfGif` call adds the kept href, if any, to the Set. */
  lemma CollectOne(resolve: string -> Option<string>, urls: seq<string>, raw: Option<string>)
    ensures Collect(resolve, urls, [raw]) ==
      match Keep(resolve, raw) case None => urls case Some(h) => SetAdd(urls, h)
  {
    var f := (r: Option<string>) => Kept(resolve, r);
    assert [raw][..0] == [];
    assert FlatMap(f, [raw]) == FlatMap(f, []) + f(raw);
    assert AcceptAll(resolve, [raw]) == Kept(resolve, raw);
    match Keep(resolve, raw)
    case None =>
    case Some(h) =>
      assert [h][..0] == [];
      assert InsertAll(urls, [h]) == SetAdd(InsertAll(urls, []), h);
  }

  lemma CollectToken(resolve: string -> Option<string>, urls: seq<string>, done: seq<string>, token: string)
    ensures Collect(resolve, Collect(resolve, urls, MapSome(done)), [Some(token)]) == Collect(resolve, urls, MapSome(done + [token]))
  {
    CollectAppend(resolve, urls, MapSome(done), [Some(token)]);
    MapSomeSnoc(done, token);
  }

  /** The state of one `scanDomForGifs` invocation: the `urls` Set its inner
      functions add to. */
  class GifCollector {
    const resolve: string -> Option<string>
    var urls: seq<string>

    constructor (resolve: string -> Option<string>)
      ensures this.resolve == resolve && urls == []
    {
      this.resolve := resolve;
      urls := [];
    }

    method AddIfGif(raw: Option<string>)
      modifies this
      ensures urls == Collect(resolve, old(urls), [raw])
    {
      CollectOne(resolve, urls, raw);
      if raw.None? || raw.value == "" {
        return;
      }
      var href := resolve(Trim(raw.value));
      if href.Some? && TestGif(href.value) {
        urls := SetAdd(urls, href.value);
      }
    }

    /** `srcset.split(',').forEach(s => addIfGif(s.trim().split(/\s+/)[0]))`. */
    method AddSrcset(srcset: string)
      modifies this
      ensures urls == Collect(resolve, old(urls), MapSome(SrcsetCandidates(srcset)))
    {
      var parts := Split(srcset, ',');
      ghost var candidates := SrcsetCandidates(srcset);
      for k := 0 to |parts|
        invariant urls == Collect(resolve, old(urls), MapSome(candidates[..k]))
      {
        AddIfGif(Some(FirstToken(Trim(parts[k]))));
        CollectAppend(resolve, old(urls), MapSome(candidates[..k]), [Some(candidates[k])]);
        assert candidates[..k + 1] == candidates[..k] + [candidates[k]];
        MapSomeSnoc(candidates[..k], candidates[k]);
      }
      assert candidates[..|parts|] == candidates;
    }

    method ParseUrlsFromCss(value: string)
      modifies this
      ensures urls == Collect(resolve, old(urls), StyleRaws(value))
    {
      if value == "" {
        assert StyleRaws(value) == [];
        return;
      }
      var last := 0;
      ghost var done: seq<string> := [];
      var m := NextMatch(value, last);
      while m.Some?
        invariant last <= |value| && m == NextMatch(value, last)
        invariant done + CssTokensFrom(value, last) == CssTokens(value)
        invariant urls == Collect(resolve, old(urls), MapSome(done))
        decreases |value| - last
      {
        CssTokensFromStep(value, last);
        var token := value[m.value.tokenStart..m.value.tokenEnd];
        AddIfGif(Some(token));
        CollectToken(resolve, old(urls), done, token);
        ghost var rest := CssTokensFrom(value, m.value.end);
        assert CssTokensFrom(value, last) == [token] + rest;
        AppendAssoc(done, [token], rest);
        done := done + [token];
        last := m.value.end;
        m := NextMatch(value, last);
      }
      assert CssTokensFrom(value, last) == [];
      assert done + [] == done;
    }

    method ScanImage(el: ImgElement)
      modifies this
      ensures urls == Collect(resolve, old(urls), ImgRaws(el))
    {
      ghost var u := urls;
      ghost var p1 := [Some(el.src)];
      AddIfGif(Some(el.src));
      AddIfGif(el.dataSrc);
      CollectAppend(resolve, u, p1, [el.dataSrc]);
      ghost var p2 := p1 + [el.dataSrc];
      AddIfGif(el.dataOriginal);
      CollectAppend(resolve, u, p2, [el.dataOriginal]);
      ghost var p3 := p2 + [el.dataOriginal];
      AddIfGif(el.dataLazy);
      CollectAppend(resolve, u, p3, [el.dataLazy]);
      ghost var p4 := p3 + [el.dataLazy];
      AddIfGif(el.dataGif);
      CollectAppend(resolve, u, p4, [el.dataGif]);
      ghost var first := p4 + [el.dataGif];
      assert first == [Some(el.src), el.dataSrc, el.dataOriginal, el.dataLazy, el.dataGif];
      if el.srcset != "" {
        AddSrcset(el.srcset);
        CollectAppend(resolve, u, first, SrcsetRaws(el.srcset));
      } else {
        assert first + SrcsetRaws(el.srcset) == first;
      }
    }

    method ScanSource(el: SourceElement)
      modifies this
      ensures urls == Collect(resolve, old(urls), SourceRaws(el))
    {
      AddIfGif(Some(el.src));
      if el.srcset != "" {
        AddSrcset(el.srcset);
        CollectAppend(resolve, old(urls), [Some(el.src)], SrcsetRaws(el.srcset));
      } else {
        assert [Some(el.src)] + SrcsetRaws(el.srcset) == [Some(el.src)];
      }
    }

    method ScanVideo(el: VideoElement)
      modifies this
      ensures urls == Collect(resolve, old(urls), VideoRaws(el))
    {
      AddIfGif(Some(el.src));
      AddIfGif(Some(el.currentSrc));
      CollectAppend(resolve, old(urls), [Some(el.src)], [Some(el.currentSrc)]);
      assert [Some(el.src)] + [Some(el.currentSrc)] == VideoRaws(el);
    }

    method ScanImages(els: seq<ImgElement>)
      modifies this
      ensures urls == Collect(resolve, old(urls), FlatMap(ImgRaws, els))
    {
      for k := 0 to |els|
        invariant urls == Collect(resolve, old(urls), FlatMap(ImgRaws, els[..k]))
      {
        ScanImage(els[k]);
        CollectAppend(resolve, old(urls), FlatMap(ImgRaws, els[..k]), ImgRaws(els[k]));
        assert els[..k + 1][..k] == els[..k];
      }
      assert els[..|els|] == els;
    }

    method ScanSources(els: seq<SourceElement>)
      modifies this
      ensures urls == Collect(resolve, old(urls), FlatMap(SourceRaws, els))
    {
      for k := 0 to |els|
        invariant urls == Collect(resolve, old(urls), FlatMap(SourceRaws, els[..k]))
      {
        ScanSource(els[k]);
        CollectAppend(resolve, old(urls), FlatMap(SourceRaws, els[..k]), SourceRaws(els[k]));
        assert els[..k + 1][..k] == els[..k];
      }
      assert els[..|els|] == els;
    }

    method ScanVideos(els: seq<VideoElement>)
      modifies this
      ensures urls == Collect(resolve, old(urls), FlatMap(VideoRaws, els))
    {
      for k := 0 to |els|
        invariant urls == Collect(resolve, old(urls), FlatMap(VideoRaws, els[..k]))
      {
        ScanVideo(els[k]);
        CollectAppend(resolve, old(urls), FlatMap(VideoRaws, els[..k]), VideoRaws(els[k]));
        assert els[..k + 1][..k] == els[..k];
      }
      assert els[..|els|] == els;
    }

    /** `querySelectorAll(...).forEach(el => addIfGif(<attribute>))`. */
    method AddEach(values: seq<string>)
      modifies this
      ensures urls == Collect(resolve, old(urls), FlatMap(AttrRaws, values))
    {
      for k := 0 to |values|
        invariant urls == Collect(resolve, old(urls), FlatMap(AttrRaws, values[..k]))
      {
        AddIfGif(Some(values[k]));
        CollectAppend(resolve, old(urls), FlatMap(AttrRaws, values[..k]), AttrRaws(values[k]));
        assert values[..k + 1][..k] == values[..k];
      }
      assert values[..|values|] == values;
    }

    /** `querySelectorAll(...).forEach(el => parseUrlsFromCss(<css text>))`. */
    method ScanStyles(values: seq<string>)
      modifies this
      ensures urls == Collect(resolve, old(urls), FlatMap(StyleRaws, values))
    {
      for k := 0 to |values|
        invariant urls == Collect(resolve, old(urls), FlatMap(StyleRaws, values[..k]))
      {
        ParseUrlsFromCss(values[k]);
        CollectAppend(resolve, old(urls), FlatMap(StyleRaws, values[..k]), StyleRaws(values[k]));
        assert values[..k + 1][..k] == values[..k];
      }
      assert values[..|values|] == values;
    }
  }

  /** `scanDomForGifs()`: the distinct GIF hrefs of the document, in order of discovery. */
  method ScanDomForGifs(doc: Document, resolve: string -> Option<string>) returns (found: seq<string>)
    ensures found == ScanResult(doc, resolve)
  {
    var c := new GifCollector(resolve);
    var p0 := FlatMap(ImgRaws, doc.images);
    var p1 := p0 + FlatMap(SourceRaws, doc.sources);
    var p2 := p1 + FlatMap(VideoRaws, doc.videos);
    var p3 := p2 + FlatMap(AttrRaws, doc.preloadImageHrefs);
    var p4 := p3 + FlatMap(AttrRaws, doc.metaImageContents);
    var p5 := p4 + FlatMap(StyleRaws, doc.styleAttributes);
    var p6 := p5 + FlatMap(StyleRaws, doc.styleTexts);
    c.ScanImages(doc.images);
    c.ScanSources(doc.sources);
    CollectAppend(resolve, [], p0, FlatMap(SourceRaws, doc.sources));
    c.ScanVideos(doc.videos);
    CollectAppend(resolve, [], p1, FlatMap(VideoRaws, doc.videos));
    c.AddEach(doc.preloadImageHrefs);
    CollectAppend(resolve, [], p2, FlatMap(AttrRaws, doc.preloadImageHrefs));
    c.AddEach(doc.metaImageContents);
    CollectAppend(resolve, [], p3, FlatMap(AttrRaws, doc.metaImageContents));
    c.ScanStyles(doc.styleAttributes);
    CollectAppend(resolve, [], p4, FlatMap(StyleRaws, doc.styleAttributes));
    c.ScanStyles(doc.styleTexts);
    CollectAppend(resolve, [], p5, FlatMap(StyleRaws, doc.styleTexts));
    c.AddEach(doc.anchorHrefs);
    CollectAppend(resolve, [], p6, FlatMap(AttrRaws, doc.anchorHrefs));
    found := c.urls;
    assert DocumentRaws(doc) == p6 + FlatMap(AttrRaws, doc.anchorHrefs);
  }
}
