/** The playlist read-through cache and pager of `get_playlist_tracks`: a cache entry
    younger than 300 seconds is returned as it is; otherwise the playlist is read page by
    page (limit 50, offset advancing by 50) with an app-level token, playable tracks are
    kept in order, and the complete list is written back with a fresh timestamp. */
module Playlists {
  import opened Common

  const PageLimit := 50
  const PlaylistTtlSeconds := 300

  /** A track object of the playlist provider; `id` is null for local files. */
  datatype Track = Track(id: Option<string>, name: string, artists: seq<string>, album: string, releaseDate: string)

  /** A playlist item; `track` is null for removed or unavailable entries. */
  datatype Item = Item(track: Option<Track>)

  /** The body of a page: not JSON at all, or JSON lacking or holding the `items` field. */
  datatype PageBody = BodyNotJson | NoItemsField | ItemsField(items: seq<Item>)

  /** One HTTP exchange for a page: no response at all, or a status and a body. */
  datatype PageReply = PageUnreachable | PageAnswer(status: int, body: PageBody)

  /** What the outside world does for one page request: the first reply, whether a fresh
      client-credentials token is granted if that reply is a 401, and the reply to the retry. */
  datatype PageAnswers = PageAnswers(first: PageReply, refreshGranted: bool, retry: PageReply)

  /** Past the end of a playlist the provider answers with an empty page. */
  const BeyondEnd := PageAnswers(PageAnswer(200, ItemsField([])), true, PageAnswer(200, ItemsField([])))

  /** The answers to page `j`; past the end of the playlist, an empty page. */
  function PageSource(pages: seq<PageAnswers>, j: nat): PageAnswers {
    if j < |pages| then pages[j] else BeyondEnd
  }

  /** The provider's answers to the request at `offset`: `pages[k]` answers offset 50·k. */
  function Provider(pages: seq<PageAnswers>, offset: nat): PageAnswers {
    if offset % PageLimit == 0 then PageSource(pages, offset / PageLimit) else BeyondEnd
  }

  lemma ProviderAtPage(pages: seq<PageAnswers>, j: nat)
    ensures Provider(pages, j * PageLimit) == PageSource(pages, j)
  {
    assert (j * PageLimit) % PageLimit == 0 && (j * PageLimit) / PageLimit == j;
  }

  /** `item['track'] and item['track']['id']`. */
  predicate Playable(item: Item) {
    item.track.Some? && Truthy(item.track.value.id)
  }

  /** `[item['track'] for item in items if item['track'] and item['track']['id']]`. */
  function KeepPlayable(items: seq<Item>): seq<Track> {
    if items == [] then []
    else (if Playable(items[0]) then [items[0].track.value] else []) + KeepPlayable(items[1..])
  }

  /** The kept tracks are exactly the tracks of the playable items, each with a truthy id. */
  lemma {:induction false} KeepPlayableSpec(items: seq<Item>)
    ensures |KeepPlayable(items)| <= |items|
    ensures forall t :: t in KeepPlayable(items) ==> Truthy(t.id)
    ensures forall t :: t in KeepPlayable(items) <==>
      exists i :: 0 <= i < |items| && Playable(items[i]) && items[i].track.value == t
  {
    if items != [] {
      KeepPlayableSpec(items[1..]);
      forall t | t in KeepPlayable(items)
        ensures exists i :: 0 <= i < |items| && Playable(items[i]) && items[i].track.value == t
      {
        if !(Playable(items[0]) && items[0].track.value == t) {
          assert t in KeepPlayable(items[1..]);
          var i :| 0 <= i < |items[1..]| && Playable(items[1..][i]) && items[1..][i].track.value == t;
          assert items[i + 1] == items[1..][i];
        }
      }
      forall t | exists i :: 0 <= i < |items| && Playable(items[i]) && items[i].track.value == t
        ensures t in KeepPlayable(items)
      {
        var i :| 0 <= i < |items| && Playable(items[i]) && items[i].track.value == t;
        if i > 0 {
          assert items[1..][i - 1] == items[i];
        }
      }
    }
  }

  /** The filter keeps order and multiplicity: filtering two runs of items one after the
      other gives the filtered runs one after the other. */
  lemma {:induction false} KeepPlayableConcat(a: seq<Item>, b: seq<Item>)
    ensures KeepPlayable(a + b) == KeepPlayable(a) + KeepPlayable(b)
  {
    if a != [] {
      assert (a + b)[0] == a[0];
      assert (a + b)[1..] == a[1..] + b;
      KeepPlayableConcat(a[1..], b);
    } else {
      assert a + b == b;
    }
  }

  /** The result of one page request, after at most one token refresh and retry. */
  datatype PageOutcome = PageItems(items: seq<Item>) | PageGaveUp | PageRaised

  /** A 401 asks for a new token once and retries once; failing to get a token gives up,
      an unreachable provider, an error status or a body that is not JSON after that
      raises, and a body without `items` gives up. */
  function ReadPage(p: PageAnswers): PageOutcome {
    var unauthorized := p.first.PageAnswer? && p.first.status == 401;
    if unauthorized && !p.refreshGranted then PageGaveUp
    else
      match if unauthorized then p.retry else p.first
      case PageUnreachable => PageRaised
      case PageAnswer(status, body) =>
        if RaisesForStatus(status) then PageRaised
        else
          match body
          case BodyNotJson => PageRaised
          case NoItemsField => PageGaveUp
          case ItemsField(items) => PageItems(items)
  }

  /** How a whole fetch ends: with the collected tracks, by returning `[]` early, or with
      an exception that leaves `get_playlist_tracks`. */
  datatype FetchOutcome = Completed(tracks: seq<Track>) | GaveUp | Raised

  function Prepend(acc: seq<Track>, o: FetchOutcome): FetchOutcome {
    match o
    case Completed(ts) => Completed(acc + ts)
    case _ => o
  }

  lemma PrependNothing(o: FetchOutcome)
    ensures Prepend([], o) == o
  {
    if o.Completed? {
      assert [] + o.tracks == o.tracks;
    }
  }

  lemma PrependPrepend(a: seq<Track>, b: seq<Track>, o: FetchOutcome)
    ensures Prepend(a, Prepend(b, o)) == Prepend(a + b, o)
  {
    if o.Completed? {
      assert a + (b + o.tracks) == (a + b) + o.tracks;
    }
  }

  /** The outcome of reading each page of the playlist, in order. */
  function Outcomes(pages: seq<PageAnswers>): (os: seq<PageOutcome>)
    ensures |os| == |pages| && forall i :: 0 <= i < |pages| ==> os[i] == ReadPage(pages[i])
  {
    seq(|pages|, i requires 0 <= i < |pages| => ReadPage(pages[i]))
  }

  /** The outcome of page `j`: past the end of the playlist, an empty page. */
  function OutcomeAt(os: seq<PageOutcome>, j: nat): PageOutcome {
    if j < |os| then os[j] else PageItems([])
  }

  /** Page `j` of the outcomes is what reading the answers to offset 50·j gives. */
  lemma OutcomeAtPage(pages: seq<PageAnswers>, j: nat)
    ensures OutcomeAt(Outcomes(pages), j) == ReadPage(Provider(pages, j * PageLimit))
  {
    ProviderAtPage(pages, j);
  }

  /** The fetch from page `j` on: take the page's outcome, keep its playable tracks, stop
      after a page shorter than the limit, otherwise continue with the next page. */
  function FetchFrom(os: seq<PageOutcome>, j: nat): FetchOutcome
    decreases |os| - j
  {
    match OutcomeAt(os, j)
    case PageGaveUp => GaveUp
    case PageRaised => Raised
    case PageItems(items) =>
      if |items| < PageLimit then Completed(KeepPlayable(items))
      else Prepend(KeepPlayable(items), FetchFrom(os, j + 1))
  }

  /** A fetch needs a client-credentials token first; without one it gives up. */
  function Fetch(tokenGranted: bool, pages: seq<PageAnswers>): FetchOutcome {
    if tokenGranted then FetchFrom(Outcomes(pages), 0) else GaveUp
  }

  /** The `while True` loop of `get_playlist_tracks`, from the token request to the last
      page: the request at `offset` is page `offset / 50`. */
  method FetchPlaylistPages(tokenGranted: bool, pages: seq<PageAnswers>) returns (outcome: FetchOutcome)
    ensures outcome == Fetch(tokenGranted, pages)
  {
    if !tokenGranted {
      return GaveUp;
    }
    ghost var os := Outcomes(pages);
    var tracks: seq<Track> := [];
    var offset: nat := 0;
    ghost var j: nat := 0;
    while true
      invariant offset == j * PageLimit
      invariant FetchFrom(os, 0) == Prepend(tracks, FetchFrom(os, j))
      decreases |os| - j
    {
      OutcomeAtPage(pages, j);
      var answers := Provider(pages, offset);
      var response := answers.first;
      if response.PageAnswer? && response.status == 401 {
        if !answers.refreshGranted {
          return GaveUp;
        }
        response := answers.retry;
      }
      if response.PageUnreachable? || RaisesForStatus(response.status) || response.body.BodyNotJson? {
        return Raised;
      }
      if response.body.NoItemsField? {
        return GaveUp;
      }
      var items := response.body.items;
      var kept := KeepPlayable(items);
      PrependPrepend(tracks, kept, FetchFrom(os, j + 1));
      tracks := tracks + kept;
      if |items| < PageLimit {
        break;
      }
      offset := offset + PageLimit;
      j := j + 1;
    }
    return Completed(tracks);
  }

  /** The tracks taken from the first `n` pages, in page order. */
  function Collected(os: seq<PageOutcome>, n: nat): seq<Track> {
    if n == 0 then []
    else
      Collected(os, n - 1) +
        match OutcomeAt(os, n - 1)
        case PageItems(items) => KeepPlayable(items)
        case _ => []
  }

  /** Pages 0 .. n-1 were all read, every one but the last was full, and the last was short. */
  predicate CompletedRun(os: seq<PageOutcome>, n: nat) {
    && n >= 1
    && (forall j: nat :: j < n ==> OutcomeAt(os, j).PageItems?)
    && (forall j: nat :: j < n - 1 ==> |OutcomeAt(os, j).items| >= PageLimit)
    && |OutcomeAt(os, n - 1).items| < PageLimit
  }

  /** A full page `j` contributes its playable tracks and hands over to page `j + 1`. */
  lemma FullPageStep(os: seq<PageOutcome>, j: nat)
    requires OutcomeAt(os, j).PageItems? && |OutcomeAt(os, j).items| >= PageLimit
    ensures FetchFrom(os, j) == Prepend(KeepPlayable(OutcomeAt(os, j).items), FetchFrom(os, j + 1))
    ensures Collected(os, j + 1) == Collected(os, j) + KeepPlayable(OutcomeAt(os, j).items)
  {
  }

  /** A short page `j` ends the fetch with its playable tracks. */
  lemma ShortPageStep(os: seq<PageOutcome>, j: nat)
    requires OutcomeAt(os, j).PageItems? && |OutcomeAt(os, j).items| < PageLimit
    ensures FetchFrom(os, j) == Completed(KeepPlayable(OutcomeAt(os, j).items))
    ensures Collected(os, j + 1) == Collected(os, j) + KeepPlayable(OutcomeAt(os, j).items)
  {
  }

  lemma {:induction false} RunPrefix(os: seq<PageOutcome>, m: nat)
    requires forall j: nat :: j < m ==> OutcomeAt(os, j).PageItems?
    requires forall j: nat :: j < m ==> |OutcomeAt(os, j).items| >= PageLimit
    ensures FetchFrom(os, 0) == Prepend(Collected(os, m), FetchFrom(os, m))
  {
    if m == 0 {
      PrependNothing(FetchFrom(os, 0));
    } else {
      RunPrefix(os, m - 1);
      FullPageStep(os, m - 1);
      PrependPrepend(Collected(os, m - 1), KeepPlayable(OutcomeAt(os, m - 1).items), FetchFrom(os, m));
    }
  }

  lemma {:induction false} RunFromCompleted(os: seq<PageOutcome>, m: nat)
    requires forall j: nat :: j < m ==> OutcomeAt(os, j).PageItems?
    requires forall j: nat :: j < m ==> |OutcomeAt(os, j).items| >= PageLimit
    requires FetchFrom(os, m).Completed?
    ensures exists n: nat :: CompletedRun(os, n) && FetchFrom(os, 0) == Completed(Collected(os, n))
    decreases |os| - m
  {
    RunPrefix(os, m);
    assert OutcomeAt(os, m).PageItems?;
    if |OutcomeAt(os, m).items| < PageLimit {
      ShortPageStep(os, m);
      assert CompletedRun(os, m + 1);
    } else {
      assert m < |os|;
      FullPageStep(os, m);
      RunFromCompleted(os, m + 1);
    }
  }

  /** A run of n pages completes the fetch with the tracks collected from them. */
  lemma RunCompletesFetch(os: seq<PageOutcome>, n: nat)
    requires CompletedRun(os, n)
    ensures FetchFrom(os, 0) == Completed(Collected(os, n))
  {
    RunPrefix(os, n - 1);
    ShortPageStep(os, n - 1);
  }

  /** A fetch completes with `ts` exactly when some run of n pages was read at offsets
      0, 50, …, 50·(n-1), every page but the last full and the last short, and `ts` is the
      in-order concatenation of their playable tracks. */
  lemma FetchCompletedIff(os: seq<PageOutcome>, ts: seq<Track>)
    ensures FetchFrom(os, 0) == Completed(ts) <==>
      exists n: nat :: CompletedRun(os, n) && ts == Collected(os, n)
  {
    if FetchFrom(os, 0) == Completed(ts) {
      RunFromCompleted(os, 0);
    } else if exists n: nat :: CompletedRun(os, n) && ts == Collected(os, n) {
      var n: nat :| CompletedRun(os, n) && ts == Collected(os, n);
      RunCompletesFetch(os, n);
      assert false;
    }
  }

  /** Every track a fetch returns has a truthy id. */
  lemma {:induction false} FetchedTracksPlayable(os: seq<PageOutcome>, j: nat)
    ensures FetchFrom(os, j).Completed? ==>
      forall t :: t in FetchFrom(os, j).tracks ==> Truthy(t.id)
    decreases |os| - j
  {
    var page := OutcomeAt(os, j);
    if page.PageItems? {
      KeepPlayableSpec(page.items);
      if |page.items| >= PageLimit {
        FetchedTracksPlayable(os, j + 1);
      }
    }
  }

  /** A `playlist_tracks` document. */
  datatype PlaylistCacheEntry = PlaylistCacheEntry(tracks: seq<Track>, cachedAt: Option<int>)

  /** `cache and cache.get('cached_at') and (now - cached_at) < 300 seconds`. */
  predicate PlaylistCacheFresh(cached: Option<PlaylistCacheEntry>, now: int) {
    cached.Some? && cached.value.cachedAt.Some? && now - cached.value.cachedAt.value < PlaylistTtlSeconds
  }

  /** What the caller of `get_playlist_tracks` sees: a list, or an exception. */
  datatype TracksAnswer = Returned(tracks: seq<Track>) | Propagated

  /** The answer and the cache entry upserted, if any. */
  datatype TracksLookup = TracksLookup(answer: TracksAnswer, write: Option<PlaylistCacheEntry>)

  function PlaylistTracks(cached: Option<PlaylistCacheEntry>, now: int, tokenGranted: bool,
                          pages: seq<PageAnswers>): TracksLookup
  {
    if PlaylistCacheFresh(cached, now) then TracksLookup(Returned(cached.value.tracks), None)
    else
      match Fetch(tokenGranted, pages)
      case Completed(ts) => TracksLookup(Returned(ts), Some(PlaylistCacheEntry(ts, Some(now))))
      case GaveUp => TracksLookup(Returned([]), None)
      case Raised => TracksLookup(Propagated, None)
  }

  /** A fresh cache entry is returned verbatim; no token and no page is requested. */
  lemma FreshCacheVerbatim(cached: Option<PlaylistCacheEntry>, now: int,
                           t1: bool, p1: seq<PageAnswers>, t2: bool, p2: seq<PageAnswers>)
    requires PlaylistCacheFresh(cached, now)
    ensures PlaylistTracks(cached, now, t1, p1) == PlaylistTracks(cached, now, t2, p2)
    ensures PlaylistTracks(cached, now, t1, p1) == TracksLookup(Returned(cached.value.tracks), None)
  {
  }

  /** The cache is written exactly when a fetch completed, with that list and the time of
      the call; then every returned track has a truthy id. Without a token, or when a page
      lacks `items`, `[]` is returned and nothing is written. */
  lemma PlaylistWrites(cached: Option<PlaylistCacheEntry>, now: int, tokenGranted: bool, pages: seq<PageAnswers>)
    ensures var r := PlaylistTracks(cached, now, tokenGranted, pages);
      && (r.write.Some? <==> !PlaylistCacheFresh(cached, now) && Fetch(tokenGranted, pages).Completed?)
      && (r.write.Some? ==> r.answer.Returned? && r.write.value == PlaylistCacheEntry(r.answer.tracks, Some(now)))
      && (r.write.Some? ==> forall t :: t in r.answer.tracks ==> Truthy(t.id))
      && (!PlaylistCacheFresh(cached, now) && Fetch(tokenGranted, pages).GaveUp? ==> r == TracksLookup(Returned([]), None))
  {
    FetchedTracksPlayable(Outcomes(pages), 0);
  }

  /** After a call that fetched and wrote the cache, a call less than 300 seconds later
      gets the same list from the cache, whatever the provider would answer. */
  lemma PlaylistCacheRoundTrip(cached: Option<PlaylistCacheEntry>, now: int, tokenGranted: bool, pages: seq<PageAnswers>,
                               later: int, t2: bool, p2: seq<PageAnswers>)
    requires PlaylistTracks(cached, now, tokenGranted, pages).write.Some?
    requires later - now < PlaylistTtlSeconds
    ensures var r1 := PlaylistTracks(cached, now, tokenGranted, pages);
      PlaylistTracks(r1.write, later, t2, p2) == TracksLookup(r1.answer, None)
  {
  }
}
