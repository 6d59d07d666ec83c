# Songamizer backend core, modelled in Dafny

Songamizer is the backend of a "guess the song's release year" party game. A player
logs in with a music-streaming account. The backend reads a playlist, plays a track on
the player's device and resolves the track's original release year, which the players
then guess.

This project models the stateful core of `server.py`:

- **Session credentials** (`refresh_access_token`). Renewing the access token with the
  stored refresh token updates only the token and its expiry.
- **Release-year resolution** (`get_original_release_year`). The order is: a usable
  fallback year; then an unexpired `track_metadata` entry; then the earliest valid year
  among the release dates a discography lookup returns, cached for 30 days; otherwise the
  current year. The Python `int()` parse of each date's year part is modelled on ASCII
  digits. The model includes the whitespace `int()` strips, one sign, `_` digit
  separators and the 4300-digit limit of Python 3.11 and later.
- **Playlist reading** (`get_playlist_tracks`). A cache entry younger than 300 seconds is
  returned as it is. Otherwise the playlist is paged in steps of 50 with one token renewal
  per page on a 401, and tracks without an id are dropped. The complete list is written
  back with a timestamp.
- **Playback** (`play_track`). The device is the first active one, else the first listed
  one. The play command is sent to it. A 401 on the device listing or on the play command
  renews the user's token and retries once. The final status maps to a (success, reason)
  pair.
- **Game reset** (the state update of `reset_game`). The session's history and theme are
  cleared and its played-track records deleted.

The document collections become the fields of `GameStore.Store`, a class whose methods
change them in place:

| collection | field |
|---|---|
| `sessions` | `sessions` |
| `playlist_tracks` | `playlistCache` |
| `track_metadata` | `metadata` |
| `tracks` | `played` |

Every method is proved equal to a pure specification function in the other modules:
`RefreshedSession`, `Resolve`, `PlaylistTracks`, `Play`, `ResetSession` and
`DropSessionRecords`. The properties themselves are proved as lemmas about those
functions.

The replies of remote services are inputs to the model:

- discography lookup: `LookupReply`
- playlist pages: `PageAnswers`
- token endpoint: `TokenReply`
- device listing and play command: `PlayEnv`

The clock is the parameters `now` and `currentYear`. `now` is the current UTC time in
whole seconds since the Unix epoch, rounded down.

Files:

- `common.dfy`: option type, truthiness, the statuses `raise_for_status` rejects, keyed
  upsert.
- `pyint.dfy`: Python `int()` on decimal text.
- `year_resolver.dfy`: the release-year policy and the release-date scan loop.
- `playlist_tracks.dfy`: the playlist cache and the paging loop.
- `credentials.dfy`: session documents, token renewal, game reset.
- `playback.dfy`: device choice, play command, retry discipline.
- `store.dfy`: the stored state and the operations that change it.

## Model

| member | source | states |
|---|---|---|
| PyInt.ParseDecimal | server.py:168 | `int()` inverts the decimal rendering of every natural number of at most 4300 digits: `int(str(n)) == n` |
| PyInt.ParsePlusDecimal | server.py:168 | `int('+' + str(n)) == n` within the same limit: one leading plus sign is accepted |
| PyInt.ParseRejectsLong | server.py:168-175 | a run of more than 4300 digits raises `ValueError`, whatever its value, so the release is skipped |
| PyInt.ParseRejectsForeign | server.py:168-175 | text with a character other than an ASCII digit, `_`, a sign or the whitespace `int()` strips raises `ValueError`; this includes the separators U+001C to U+001F |
| YearResolver.BeforeFirstDashSpec | server.py:168 | `split('-')[0]` is the longest dash-free prefix of the date: it contains no `-` and either is the whole date or is followed by a `-` |
| YearResolver.DateYearOfDecimal | server.py:166-169 | a date written `YYYY-…` counts for year `YYYY` whenever that year is within [1900, current year] and its rendering within the digit limit |
| YearResolver.DateYearRejectsForeign | server.py:166-175 | a date whose part before the first `-` holds a character other than an ASCII digit, `_`, a sign or the whitespace `int()` strips counts for no year: the release is skipped |
| YearResolver.DateYearSeparatorExample | server.py:166-175 | the date "\u001c1999-01-01" counts for no year |
| YearResolver.EarliestOfIsMinimum | server.py:165-172 | the in-order fold keeps the minimum: it finds nothing exactly when no release counts, it is one of the counting years, and it is no later than any of them |
| YearResolver.EarliestYearIsMinimum | server.py:163-175 | the earliest year of the scan is the minimum of the counting release years, and there is none exactly when no date counts |
| YearResolver.EarliestYearInRange | server.py:169 | the earliest year found lies in [1900, current year] |
| YearResolver.ScanReleaseDates | server.py:163-175 | the release loop sets `found_valid_year` exactly when some release counts, leaving `earliest_year` at the minimum counting year, or at the current year when none counts |
| YearResolver.ResolveFallbackWins | server.py:147-149 | a fallback year within [1900, current year] is returned unchanged, whatever the cache and the lookup hold, and nothing is written |
| YearResolver.ResolveCacheHit | server.py:150-153 | without a usable fallback, an unexpired metadata entry decides the year, whatever the lookup would answer |
| YearResolver.ResolveByLookup | server.py:154-190 | past fallback and cache, the minimum counting release year is returned and written with a 30-day expiry; with no counting year, or a failed lookup, the current year is returned and nothing is written |
| YearResolver.ResolveWritesOnlyValidYears | server.py:176-185 | the metadata cache is written only after a lookup, with an in-range year and an expiry 30 days from now |
| YearResolver.ResolveInRange | server.py:145-190 | when the current year is at least 1900 and the cached years are in range, every returned year is in [1900, current year] |
| YearResolver.ResolveServedFromCache | server.py:150-153 | a year found by a lookup is returned from the cache, with no lookup, by any later call within 30 days that has no usable fallback |
| YearResolver.ResolveExample1967 | server.py:145-190 | with no fallback and a lookup answering "1967-03-01", the result is 1967 and is cached; a later call whose lookup fails still gets 1967 |
| Playlists.KeepPlayableSpec | server.py:223 | the kept tracks are exactly the tracks of the items that have a track with a truthy id, so no more than the items; each kept track has a truthy id |
| Playlists.KeepPlayableConcat | server.py:223-224 | the filter keeps order and multiplicity: filtering `a + b` gives the filtered `a` followed by the filtered `b` |
| Playlists.OutcomeAtPage | server.py:205-208 | the request at offset 50·j reads page j of the playlist |
| Playlists.FetchPlaylistPages | server.py:197-227 | the paging loop returns what `Fetch` decides: the tracks collected, `[]` when no token is granted or a page lacks `items`, or an exception |
| Playlists.RunCompletesFetch | server.py:204-227 | a run of pages, all full but the short last one, completes the fetch with the in-order concatenation of their playable tracks |
| Playlists.FetchCompletedIff | server.py:204-227 | a fetch completes with list `ts` exactly when some run of n pages, read at offsets 0, 50, …, all full but the short last one, yields `ts` |
| Playlists.FetchedTracksPlayable | server.py:223-224 | every track a completed fetch returns has a truthy id |
| Playlists.FreshCacheVerbatim | server.py:194-196 | a cache entry younger than 300 seconds is returned as it is, with no token or page requested and nothing written |
| Playlists.PlaylistWrites | server.py:197-233 | the cache is written exactly when a fetch completes, with that list and the time of the call; without a token or `items`, `[]` is returned and nothing is written |
| Playlists.PlaylistCacheRoundTrip | server.py:194-196 | after a call that wrote the cache, a call less than 300 seconds later returns the same list, whatever the provider would answer |
| Credentials.RefreshSpec | server.py:110-142 | a refresh succeeds exactly when the session has a refresh token, the token endpoint answers without an error status with a JSON object, `expires_in` is absent or a number of seconds a `timedelta` holds, and the expiry falls within the years 1 to 9999; it stores the new token and an expiry `expires_in` (default 3600) seconds from now, and nothing else |
| Credentials.RefreshRejectsOverflow | server.py:127-142 | a lifetime of 10^14 seconds, or of 10^12 seconds after 1970, raises `OverflowError`, so the refresh returns False and writes nothing |
| Credentials.RefreshIdempotent | server.py:127-134 | the refresh token survives a refresh, so the same refresh at the same time leaves the renewed session unchanged |
| Credentials.RefreshedTokenLive | server.py:127-132 | a token renewed with a positive or default lifetime is not expired at the moment of renewal |
| Credentials.ResetSpec | server.py:505-508 | the reset empties the history and the theme and keeps every other field; it is idempotent |
| Credentials.DropSessionRecordsSpec | server.py:509 | deleting a session's played-track records removes all of them and keeps every other record with its multiplicity |
| Credentials.DropSessionRecordsIdempotent | server.py:509 | deleting a session's records a second time changes nothing |
| Playback.FirstActiveSpec | server.py:283 | `next(...)` finds no device exactly when none is active, and otherwise it finds the first active one |
| Playback.ChooseDeviceSpec | server.py:283-286 | the first active device decides when there is one, else the first listed device, and with no devices nothing is chosen; a chosen id is non-empty and belongs to a listed device |
| Playback.ChooseDeviceFallbackExample | server.py:284 | of two inactive devices "a" and "b", "a" is targeted |
| Playback.PlayStatusResultSpec | server.py:303-306 | the final status 403 gives the premium reason; otherwise success is exactly status 204 |
| Playback.PlayEarlyExits | server.py:258-265 | without a session, or without an access token, nothing is sent and nothing changes |
| Playback.PlayWithoutDevice | server.py:281-286 | a listing with no usable device ends with the no-device reason after only the listing request |
| Playback.PlayNoDevicesNoCommand | server.py:266-286 | an empty device list never leads to a play command and never to success |
| Playback.SendPlayDecides | server.py:287-306 | the play command goes to the chosen device with the requested track; a 401 renews the token and repeats the command once with the new token, and the final status decides the result; a failed renewal contacts the token endpoint only if the session has a refresh token |
| Playback.PlayTargetsChosenDevice | server.py:266-291 | with a usable listing, the second request is the play command to the chosen device with the requested track |
| Playback.PlayListingUnauthorized | server.py:270-286 | a 401 on the device listing renews the token once: a failed renewal ends with the refresh reason after the listing and the renewal; after a successful one the listing is repeated with the new token and never renewed again, so a 401 on it is a request error, a retried listing without a usable device gives the no-device reason, and any later renewal directly follows a play command |
| Playback.PlayRetryDiscipline | server.py:256-312 | every call sends at most six requests and at most two renewals; each renewal follows a request and is followed only by that same request again; of two renewals the first follows the listing and the second the play command, so no request is renewed twice; every play command carries the track and a non-empty device; success is reported only right after a play command |
| Playback.PlayWithoutRefreshToken | server.py:113-115 | a session without a refresh token never contacts the token endpoint, and a 401 on the listing ends the call after the listing alone |
| Playback.MessageTextDistinct | server.py:259-309 | the reasons `play_track` gives have pairwise different texts |
| Playback.PlayKeepsSession | server.py:256-312 | `play_track` changes only the session's access token and its expiry, and only through a renewal |
| GameStore.Store.constructor | server.py:76-81 | all collections start empty |
| GameStore.Store.RefreshAccessToken | server.py:110-142 | True exactly when the session exists and its refresh succeeds; the session document is updated only then, as `RefreshedSession` says |
| GameStore.Store.GetOriginalReleaseYear | server.py:145-190 | the year `Resolve` decides, with its entry upserted under (track name, artist name); cached years stay in [1900, current year], and so does the result |
| GameStore.Store.GetPlaylistTracks | server.py:193-233 | the answer `PlaylistTracks` decides, with its entry upserted under the playlist id |
| GameStore.Store.PlayTrack | server.py:256-312 | the result and the exact sequence of requests `Play` decides, and the session document as the renewals inside it leave it |
| GameStore.Store.ResetGame | server.py:501-509 | an unknown session is rejected with nothing changed; otherwise its history and theme are cleared, its played-track records are deleted, and nothing else changes |

## Left out

- HTTP, the document store and the client libraries are not modelled; their answers are
  inputs. `sessions`, `playlist_tracks` and `track_metadata` are in-memory maps keyed by the fields the queries filter on; `tracks` is a sequence of records.
  Session ids are strings; `ObjectId` validation is not modelled.
- `time.sleep` before each lookup, logging, the Flask routes, gunicorn, configuration
  checks, OAuth and the YouTube Music stream lookup are not modelled. No code adds
  played-track records; the only read of that collection, in a route, is not modelled.
  There is no random unplayed-track choice and no automatic cycle reset of the game: the
  code does not implement them.
- TTL-index expiry of stored documents by the database is not modelled. Freshness is
  modelled only through the timestamp checks the code makes.
- The clock is one `now` and one `currentYear` per call; the code reads the clock several
  times within a call.
- `play_track` renews only after a 401; it never checks `token_expires_at`, and neither
  does the model. A second 401 after the retried play command is not an error; it yields
  `(False, None)`, since only 204 succeeds (server.py:306).
- After a failed lookup, the code returns the current year (server.py:188-190), never the
  fallback year, and so does the model.
- The text of exception messages is not modelled. "Error checking devices: " stands for
  every request exception, and the separate "Error playing track" branch (a non-request
  exception, such as a missing key in the provider's JSON) is not modelled.
- Playlists.FetchPlaylistPages: the provider is scripted by a finite list of pages.
  Past its end, and at offsets that are not multiples of 50, the provider answers with an
  empty page. The script is what makes the code's `while True` loop terminate.
- Replies whose body is not JSON are modelled. A token reply fails the refresh, a page
  raises out of `get_playlist_tracks`, and a device listing ends in the request-error
  reason. A lookup reply of that kind is one case of `LookupFailed`.
- Bodies that are JSON but not of the expected shape are not modelled, apart from the
  token body. Examples: a device listing or page that is a JSON array, a `null` `items`
  field, and an `access_token` that is not a string. A release with a missing, null or empty date is skipped, as in the code.
- A metadata entry without `expires_at` makes the comparison on line 151 raise a
  `TypeError` in the code. The model's entries always carry an expiry.
- PyInt.ParseRejectsForeign: Python's `int()` also accepts non-ASCII Unicode decimal
  digits, and the model does not. Only ASCII digits are modelled.
- YearResolver.DateYearRejectsForeign: a non-ASCII decimal digit before the first `-`
  counts as foreign here. Python's `int()` accepts it, so the code counts the date
  "١٩٩٩-01-01" for 1999 and the model for no year.
- Credentials.RefreshSpec: other JSON values for `expires_in` are not modelled. A
  fractional number of seconds or `true` yields a lifetime in the code; the model treats
  every non-integer value like a string, so the refresh fails.
- The album name only shapes the lookup query, whose answer is an input, so the model
  does not use it.
- The client-credentials token request is an input: whether a token is granted at the
  start and after each 401.
