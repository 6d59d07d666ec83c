/** The backend's stored state and the operations that change it: the `sessions`,
    `playlist_tracks`, `track_metadata` and `tracks` collections become fields, and every
    operation is proved to leave them exactly as the corresponding specification function
    says. */
module GameStore {
  import opened Common
  import opened YearResolver
  import opened Playlists
  import opened Credentials
  import opened Playback

  class Store {
    /** `sessions`, by session id. */
    var sessions: map<string, Session>
    /** `playlist_tracks`, by playlist id. */
    var playlistCache: map<string, PlaylistCacheEntry>
    /** `track_metadata`, by (track name, artist name). */
    var metadata: map<(string, string), MetadataEntry>
    /** `tracks`: the played-track records of every session. */
    var played: seq<PlayedRecord>

    constructor ()
      ensures sessions == map[] && playlistCache == map[] && metadata == map[] && played == []
    {
      sessions := map[];
      playlistCache := map[];
      metadata := map[];
      played := [];
    }

    /** Every cached original year is a valid release year. */
    predicate MetadataInRange(currentYear: int)
      reads this
    {
      forall k :: k in metadata ==> InRange(metadata[k].originalYear, currentYear)
    }

    /** `refresh_access_token(session_id)`: True exactly when the session exists and its
        refresh succeeds; only then is the session document updated. */
    method RefreshAccessToken(sessionId: string, reply: TokenReply, now: int) returns (ok: bool)
      modifies this`sessions
      ensures ok <==> sessionId in old(sessions) && RefreshedSession(old(sessions)[sessionId], reply, now).Some?
      ensures sessions == if ok then old(sessions)[sessionId := RefreshedSession(old(sessions)[sessionId], reply, now).value]
                          else old(sessions)
    {
      if sessionId !in sessions {
        return false;
      }
      var s := sessions[sessionId];
      if !Truthy(s.refreshToken) {
        return false;
      }
      match reply
      case TokenUnreachable =>
        ok := false;
      case TokenAnswer(status, body) =>
        if RaisesForStatus(status) || body.TokenNotObject? {
          return false;
        }
        var lifetime := DefaultExpiresIn;
        match body.expiresIn {
          case ExpiresAbsent =>
          case ExpiresSeconds(n) =>
            if !TimedeltaSeconds(n) {
              return false;
            }
            lifetime := n;
          case _ =>
            return false;
        }
        if !DatetimeSeconds(now + lifetime) {
          return false;
        }
        sessions := sessions[sessionId := s.(accessToken := body.accessToken, tokenExpiresAt := Some(now + lifetime))];
        ok := true;
    }

    /** `get_original_release_year`: the year `Resolve` decides, with the metadata entry it
        decides upserted under (track name, artist name). The album name only shapes the
        lookup query, whose answer is `lookup`. Cached years stay valid release years. */
    method GetOriginalReleaseYear(trackName: string, artistName: string, albumName: string, fallbackYear: int,
                                  lookup: LookupReply, now: int, currentYear: int) returns (year: int)
      modifies this`metadata
      ensures var r := Resolve(fallbackYear, Get(old(metadata), (trackName, artistName)), lookup, now, currentYear);
        year == r.year && metadata == StoreEntry(old(metadata), (trackName, artistName), r.write)
      ensures old(MetadataInRange(currentYear)) ==> MetadataInRange(currentYear)
      ensures currentYear >= MinYear && old(MetadataInRange(currentYear)) ==> InRange(year, currentYear)
    {
      if fallbackYear != 0 && MinYear <= fallbackYear <= currentYear {
        return fallbackYear;
      }
      var key := (trackName, artistName);
      if key in metadata && metadata[key].expiresAt > now {
        return metadata[key].originalYear;
      }
      match lookup
      case LookupFailed =>
        year := currentYear;
      case LookupOk(dates) =>
        var found, earliest := ScanReleaseDates(dates, currentYear);
        EarliestYearInRange(dates, currentYear);
        if found {
          metadata := metadata[key := MetadataEntry(earliest, now + MetadataTtlSeconds)];
          year := earliest;
        } else {
          year := currentYear;
        }
    }

    /** `get_playlist_tracks`: the answer `PlaylistTracks` decides, with the cache entry it
        decides upserted under the playlist id. */
    method GetPlaylistTracks(playlistId: string, now: int, tokenGranted: bool, pages: seq<PageAnswers>)
      returns (answer: TracksAnswer)
      modifies this`playlistCache
      ensures var r := PlaylistTracks(Get(old(playlistCache), playlistId), now, tokenGranted, pages);
        answer == r.answer && playlistCache == StoreEntry(old(playlistCache), playlistId, r.write)
    {
      if playlistId in playlistCache {
        var cache := playlistCache[playlistId];
        if cache.cachedAt.Some? && now - cache.cachedAt.value < PlaylistTtlSeconds {
          return Returned(cache.tracks);
        }
      }
      var outcome := FetchPlaylistPages(tokenGranted, pages);
      match outcome
      case Completed(ts) =>
        playlistCache := playlistCache[playlistId := PlaylistCacheEntry(ts, Some(now))];
        answer := Returned(ts);
      case GaveUp =>
        answer := Returned([]);
      case Raised =>
        answer := Propagated;
    }

    /** `play_track(track_id, session_id)`: the result and the requests `Play` decides, and
        the session document as the renewals inside it leave it. */
    method PlayTrack(trackId: string, sessionId: string, env: PlayEnv, now: int)
      returns (result: PlayResult, calls: seq<Call>)
      modifies this`sessions
      ensures var run := Play(trackId, Get(old(sessions), sessionId), env, now);
        && result == run.result && calls == run.calls
        && sessions == StoreEntry(old(sessions), sessionId, run.session)
    {
      if sessionId !in sessions {
        return Fail(NoSession), [];
      }
      var token := sessions[sessionId].accessToken;
      if !Truthy(token) {
        return Fail(NoAccessToken), [];
      }
      calls := [GetDevices(token)];
      var devices := env.devices;
      if !devices.DevicesUnreachable? && devices.status == 401 {
        var renewal := Renewal(sessions[sessionId]);
        var ok := RefreshAccessToken(sessionId, env.devicesRefresh, now);
        if !ok {
          return Fail(RefreshFailed), calls + renewal;
        }
        token := sessions[sessionId].accessToken;
        calls := calls + [RefreshToken, GetDevices(token)];
        devices := env.devicesRetry;
      }
      if devices.DevicesUnreachable? || RaisesForStatus(devices.status) || devices.DevicesNotJson? {
        return Fail(RequestError), calls;
      }
      var deviceId := ChooseDevice(devices.devices);
      if deviceId.None? {
        return Fail(NoActiveDevice), calls;
      }
      calls := calls + [PutPlay(token, deviceId.value, trackId)];
      var play := env.play;
      if play.PlayAnswer? && play.status == 401 {
        var renewal := Renewal(sessions[sessionId]);
        var ok := RefreshAccessToken(sessionId, env.playRefresh, now);
        if !ok {
          return Fail(RefreshFailed), calls + renewal;
        }
        token := sessions[sessionId].accessToken;
        calls := calls + [RefreshToken, PutPlay(token, deviceId.value, trackId)];
        play := env.playRetry;
      }
      if play.PlayUnreachable? {
        return Fail(RequestError), calls;
      }
      result := PlayStatusResult(play.status);
    }

    /** The state update of `reset_game`: an unknown session is rejected and nothing
        changes; otherwise its history and theme are cleared and its played-track records
        deleted, and no other session or record changes. */
    method ResetGame(sessionId: string) returns (ok: bool)
      modifies this`sessions, this`played
      ensures ok <==> sessionId in old(sessions)
      ensures ok ==> sessions == old(sessions)[sessionId := ResetSession(old(sessions)[sessionId])]
      ensures ok ==> played == DropSessionRecords(old(played), sessionId)
      ensures !ok ==> sessions == old(sessions) && played == old(played)
    {
      if sessionId !in sessions {
        return false;
      }
      sessions := sessions[sessionId := ResetSession(sessions[sessionId])];
      played := DropSessionRecords(played, sessionId);
      ok := true;
    }
  }
}
