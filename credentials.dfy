/** Session documents and the two updates the core makes to them: renewing the access
    token (`refresh_access_token`) and clearing the game history (`reset_game`). */
module Credentials {
  import opened Common

  /** The token lifetime assumed when the token endpoint does not say `expires_in`. */
  const DefaultExpiresIn := 3600

  /** A `sessions` document. Absent optional fields are `None`. */
  datatype Session = Session(
    accessToken: Option<string>,
    refreshToken: Option<string>,
    tokenExpiresAt: Option<int>,
    tracksPlayed: seq<string>,
    playlistTheme: Option<string>,
    isActive: bool,
    createdAt: int)

  /** A `tracks` document: one played track of one session. */
  datatype PlayedRecord = PlayedRecord(
    sessionId: string,
    trackId: string,
    title: string,
    artist: string,
    album: string,
    releaseYear: int,
    playlistTheme: Option<string>,
    playedAt: int)

  /** The `expires_in` field of the token body: absent, `null`, a whole number of
      seconds, or some other JSON value (such as a string). */
  datatype ExpiresIn = ExpiresAbsent | ExpiresNull | ExpiresSeconds(seconds: int) | ExpiresNotNumber

  /** The token body: not a JSON object at all, or an object with its `access_token`
      (`None` when absent or null) and its `expires_in` fields. */
  datatype TokenBody = TokenNotObject | TokenObject(accessToken: Option<string>, expiresIn: ExpiresIn)

  /** The token endpoint's answer to a refresh request: no response, or a status and a body. */
  datatype TokenReply = TokenUnreachable | TokenAnswer(status: int, body: TokenBody)

  /** The whole seconds a `timedelta` can hold: its days must have magnitude at most
      999999999, and it adds less than a day of seconds on top. */
  const MinTimedeltaSeconds := -999999999 * 86400
  const MaxTimedeltaSeconds := 999999999 * 86400 + 86399

  /** The first and the last whole second a `datetime` can hold (0001-01-01 00:00:00 and
      9999-12-31 23:59:59), counted from the Unix epoch as `now` is. */
  const DatetimeMin := -62135596800
  const DatetimeMax := 253402300799

  /** `timedelta(seconds=n)` raises `OverflowError` outside this range. */
  predicate TimedeltaSeconds(n: int) {
    MinTimedeltaSeconds <= n <= MaxTimedeltaSeconds
  }

  /** `utcnow() + timedelta(...)` raises `OverflowError` when the sum falls outside the
      years 1 to 9999. `now` is the current time rounded down to the second, so the sum
      with its fraction fits exactly when the whole-second sum does. */
  predicate DatetimeSeconds(t: int) {
    DatetimeMin <= t <= DatetimeMax
  }

  /** The token lifetime `timedelta(seconds=data.get('expires_in', 3600))` accepts, or
      `None` where it raises: `TypeError` for `null` and for non-numbers, `OverflowError`
      for a number of seconds beyond the range of a `timedelta`. */
  function Lifetime(e: ExpiresIn): Option<int> {
    match e
    case ExpiresAbsent => Some(DefaultExpiresIn)
    case ExpiresSeconds(n) => if TimedeltaSeconds(n) then Some(n) else None
    case _ => None
  }

  /** The session after a successful refresh, or `None` when `refresh_access_token`
      returns False and writes nothing: no refresh token, no response, an error status, a
      body that is not a JSON object (the decoding error is a request exception, a
      non-object body fails on `.get`), an `expires_in` that is no lifetime, or an expiry
      past the range of a `datetime`. */
  function RefreshedSession(s: Session, reply: TokenReply, now: int): Option<Session> {
    if !Truthy(s.refreshToken) then None
    else
      match reply
      case TokenUnreachable => None
      case TokenAnswer(status, body) =>
        if RaisesForStatus(status) then None
        else
          match body
          case TokenNotObject => None
          case TokenObject(token, expiresIn) =>
            match Lifetime(expiresIn)
            case None => None
            case Some(lifetime) =>
              if DatetimeSeconds(now + lifetime) then Some(s.(accessToken := token, tokenExpiresAt := Some(now + lifetime)))
              else None
  }

  /** Two sessions agree on everything but the access token and its expiry. */
  predicate SameExceptCredentials(a: Session, b: Session) {
    a.(accessToken := b.accessToken, tokenExpiresAt := b.tokenExpiresAt) == b
  }

  /** The access token must be renewed before use once `now >= token_expires_at`. */
  predicate TokenExpired(s: Session, now: int) {
    s.tokenExpiresAt.None? || now >= s.tokenExpiresAt.value
  }

  /** A refresh succeeds exactly when the session has a refresh token and the endpoint
      answers without an error status, with a JSON object whose `expires_in` is absent or
      a number of seconds a `timedelta` holds, and the expiry is a representable
      `datetime`; it then stores the new access token and an expiry `expires_in` (default
      3600) seconds from now, and changes nothing else. */
  lemma RefreshSpec(s: Session, reply: TokenReply, now: int)
    ensures RefreshedSession(s, reply, now).Some? <==>
      && Truthy(s.refreshToken) && reply.TokenAnswer? && !RaisesForStatus(reply.status)
      && reply.body.TokenObject?
      && (|| (reply.body.expiresIn.ExpiresAbsent? && DatetimeSeconds(now + DefaultExpiresIn))
          || (&& reply.body.expiresIn.ExpiresSeconds?
              && TimedeltaSeconds(reply.body.expiresIn.seconds)
              && DatetimeSeconds(now + reply.body.expiresIn.seconds)))
    ensures RefreshedSession(s, reply, now).Some? ==>
      var s' := RefreshedSession(s, reply, now).value;
      && SameExceptCredentials(s, s')
      && s'.accessToken == reply.body.accessToken
      && s'.tokenExpiresAt == Some(now + if reply.body.expiresIn.ExpiresSeconds? then reply.body.expiresIn.seconds
                                         else DefaultExpiresIn)
  {
  }

  /** A lifetime of 10^14 seconds is beyond a `timedelta`, and 10^12 seconds from any
      time after 1970 is beyond the year 9999: both refreshes fail and write nothing. */
  lemma RefreshRejectsOverflow(s: Session, now: int)
    requires Truthy(s.refreshToken) && now >= 0
    ensures RefreshedSession(s, TokenAnswer(200, TokenObject(Some("t"), ExpiresSeconds(100000000000000))), now) == None
    ensures RefreshedSession(s, TokenAnswer(200, TokenObject(Some("t"), ExpiresSeconds(1000000000000))), now) == None
  {
  }

  /** The refresh token survives a refresh, so refreshing again with the same answer at
      the same time leaves the session as it is. */
  lemma RefreshIdempotent(s: Session, reply: TokenReply, now: int)
    requires RefreshedSession(s, reply, now).Some?
    ensures var s' := RefreshedSession(s, reply, now).value;
      s'.refreshToken == s.refreshToken && RefreshedSession(s', reply, now) == Some(s')
  {
  }

  /** A token granted with a positive (or the default) lifetime is not expired at the
      moment of the refresh. */
  lemma RefreshedTokenLive(s: Session, reply: TokenReply, now: int)
    requires RefreshedSession(s, reply, now).Some?
    requires reply.TokenAnswer? && reply.body.TokenObject? && reply.body.expiresIn.ExpiresSeconds? ==>
      reply.body.expiresIn.seconds > 0
    ensures !TokenExpired(RefreshedSession(s, reply, now).value, now)
  {
  }

  /** `{'$set': {'tracks_played': [], 'playlist_theme': None}}`. */
  function ResetSession(s: Session): Session {
    s.(tracksPlayed := [], playlistTheme := None)
  }

  /** A reset empties the history and the theme and keeps the credentials; doing it twice
      is the same as doing it once. */
  lemma ResetSpec(s: Session)
    ensures ResetSession(s).tracksPlayed == [] && ResetSession(s).playlistTheme == None
    ensures ResetSession(s).(tracksPlayed := s.tracksPlayed, playlistTheme := s.playlistTheme) == s
    ensures ResetSession(ResetSession(s)) == ResetSession(s)
  {
  }

  /** `tracks.delete_many({'session_id': session_id})`. */
  function DropSessionRecords(records: seq<PlayedRecord>, sessionId: string): seq<PlayedRecord> {
    if records == [] then []
    else
      (if records[0].sessionId == sessionId then [] else [records[0]]) +
        DropSessionRecords(records[1..], sessionId)
  }

  /** The deletion removes every record of that session and keeps every other record
      exactly as often as it occurred. */
  lemma {:induction false} DropSessionRecordsSpec(records: seq<PlayedRecord>, sessionId: string)
    ensures forall r :: r in DropSessionRecords(records, sessionId) ==> r.sessionId != sessionId
    ensures forall r: PlayedRecord :: r.sessionId != sessionId ==>
      multiset(DropSessionRecords(records, sessionId))[r] == multiset(records)[r]
  {
    if records != [] {
      DropSessionRecordsSpec(records[1..], sessionId);
      assert records == [records[0]] + records[1..];
      assert multiset(records) == multiset([records[0]]) + multiset(records[1..]);
    }
  }

  /** Deleting a session's records a second time changes nothing. */
  lemma {:induction false} DropSessionRecordsIdempotent(records: seq<PlayedRecord>, sessionId: string)
    ensures DropSessionRecords(DropSessionRecords(records, sessionId), sessionId) ==
      DropSessionRecords(records, sessionId)
  {
    if records != [] {
      DropSessionRecordsIdempotent(records[1..], sessionId);
      var rest := DropSessionRecords(records[1..], sessionId);
      if records[0].sessionId != sessionId {
        var d := [records[0]] + rest;
        assert d[0] == records[0] && d[1..] == rest;
        assert DropSessionRecords(d, sessionId) == [records[0]] + DropSessionRecords(rest, sessionId);
      } else {
        assert DropSessionRecords(records, sessionId) == rest;
      }
    }
  }
}
