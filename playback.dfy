/** The playback decisions of `play_track(track_id, session_id)`: pick a device (the first
    active one, else the first listed one), send the play command to it, renew the user's
    token once and retry once on a 401 at either step, and turn the final status into a
    (success, reason) pair. */
module Playback {
  import opened Common
  import opened Credentials

  /** An entry of the provider's device list. */
  datatype Device = Device(id: Option<string>, isActive: bool)

  /** `next((d for d in devices if d['is_active']), None)`. */
  function FirstActive(devices: seq<Device>): Option<Device> {
    if devices == [] then None
    else if devices[0].isActive then Some(devices[0])
    else FirstActive(devices[1..])
  }

  lemma {:induction false} FirstActiveSpec(devices: seq<Device>)
    ensures FirstActive(devices).None? <==> forall i :: 0 <= i < |devices| ==> !devices[i].isActive
    ensures forall i :: (0 <= i < |devices| && devices[i].isActive &&
      (forall j :: 0 <= j < i ==> !devices[j].isActive)) ==> FirstActive(devices) == Some(devices[i])
  {
    if devices != [] {
      FirstActiveSpec(devices[1..]);
      assert forall i :: 1 <= i < |devices| ==> devices[1..][i - 1] == devices[i];
    }
  }

  /** `device_id = active['id'] if active else devices[0]['id'] if devices else None`,
      followed by `if not device_id`: the chosen id, or `None` when it is missing or empty. */
  function ChooseDevice(devices: seq<Device>): Option<string> {
    var candidate :=
      match FirstActive(devices)
      case Some(d) => d.id
      case None => if |devices| > 0 then devices[0].id else None;
    if Truthy(candidate) then candidate else None
  }

  /** The first active device decides when there is one; otherwise the first listed
      device; with no devices nothing is chosen. A chosen id is non-empty and belongs to a
      listed device. */
  lemma ChooseDeviceSpec(devices: seq<Device>)
    ensures forall i :: (0 <= i < |devices| && devices[i].isActive &&
      (forall j :: 0 <= j < i ==> !devices[j].isActive)) ==>
        ChooseDevice(devices) == if Truthy(devices[i].id) then devices[i].id else None
    ensures (forall i :: 0 <= i < |devices| ==> !devices[i].isActive) ==>
      ChooseDevice(devices) == if |devices| > 0 && Truthy(devices[0].id) then devices[0].id else None
    ensures devices == [] ==> ChooseDevice(devices) == None
    ensures ChooseDevice(devices).Some? ==>
      Truthy(ChooseDevice(devices)) && exists i :: 0 <= i < |devices| && devices[i].id == ChooseDevice(devices)
  {
    FirstActiveSpec(devices);
    if FirstActive(devices).Some? {
      var i :| 0 <= i < |devices| && devices[i].isActive && (forall j :: 0 <= j < i ==> !devices[j].isActive)
        by {
          FirstActiveIndex(devices);
        }
    }
  }

  lemma {:induction false} FirstActiveIndex(devices: seq<Device>)
    requires FirstActive(devices).Some?
    ensures exists i :: (0 <= i < |devices| && devices[i].isActive &&
      (forall j :: 0 <= j < i ==> !devices[j].isActive) && FirstActive(devices) == Some(devices[i]))
  {
    if !devices[0].isActive {
      FirstActiveIndex(devices[1..]);
      var k :| 0 <= k < |devices[1..]| && devices[1..][k].isActive &&
        (forall j :: 0 <= j < k ==> !devices[1..][j].isActive) && FirstActive(devices[1..]) == Some(devices[1..][k]);
      assert forall j :: 1 <= j < k + 1 ==> devices[j] == devices[1..][j - 1];
      assert devices[k + 1] == devices[1..][k];
    }
  }

  /** Two inactive devices: the first listed one is targeted. */
  lemma ChooseDeviceFallbackExample()
    ensures ChooseDevice([Device(Some("a"), false), Device(Some("b"), false)]) == Some("a")
  {
  }

  /** The reasons `play_track` gives for a failure. */
  datatype PlayMessage = NoSession | NoAccessToken | RefreshFailed | NoActiveDevice | PremiumRequired | RequestError

  /** The user-facing text of each reason; a request exception's own text follows the
      prefix in the source and is not modelled. */
  function MessageText(m: PlayMessage): string {
    match m
    case NoSession => "No session found"
    case NoAccessToken => "No access token available"
    case RefreshFailed => "Failed to refresh access token"
    case NoActiveDevice => "No active devices found. Open Spotify and play/pause a track."
    case PremiumRequired => "Premium account required to play tracks."
    case RequestError => "Error checking devices: "
  }

  /** Every reason has its own text, so a caller can tell them apart by the text alone. */
  lemma MessageTextDistinct(m1: PlayMessage, m2: PlayMessage)
    ensures MessageText(m1) == MessageText(m2) <==> m1 == m2
  {
  }

  /** The pair `play_track` returns. */
  datatype PlayResult = PlayResult(ok: bool, message: Option<PlayMessage>)

  function Fail(m: PlayMessage): PlayResult {
    PlayResult(false, Some(m))
  }

  /** The outbound requests, in the order they are sent; `RefreshToken` is the POST to the
      token endpoint inside `refresh_access_token`. */
  datatype Call = GetDevices(token: Option<string>) | RefreshToken | PutPlay(token: Option<string>, deviceId: string, trackId: string)

  /** The device listing: no response, a status with the `devices` of the JSON body
      (`[]` when the field is absent), or a status with a body that is not JSON. */
  datatype DevicesReply = DevicesUnreachable | DevicesAnswer(status: int, devices: seq<Device>) | DevicesNotJson(status: int)
  datatype PlayReply = PlayUnreachable | PlayAnswer(status: int)

  /** What the outside world answers during one call: the device listing, the token
      endpoint if that listing is a 401, the repeated listing, the play command, the token
      endpoint if the play command is a 401, and the repeated play command. */
  datatype PlayEnv = PlayEnv(
    devices: DevicesReply,
    devicesRefresh: TokenReply,
    devicesRetry: DevicesReply,
    play: PlayReply,
    playRefresh: TokenReply,
    playRetry: PlayReply)

  /** The result, the session document afterwards, and the requests that were sent. */
  datatype PlayRun = PlayRun(result: PlayResult, session: Option<Session>, calls: seq<Call>)

  /** After the play command: 403 means no premium account; otherwise success is exactly 204. */
  function PlayStatusResult(status: int): PlayResult {
    if status == 403 then Fail(PremiumRequired) else PlayResult(status == 204, None)
  }

  lemma PlayStatusResultSpec(status: int)
    ensures PlayStatusResult(status).ok <==> status == 204
    ensures PlayStatusResult(status).message.Some? <==> status == 403
    ensures status == 403 ==> PlayStatusResult(status) == Fail(PremiumRequired)
  {
  }

  /** `play_track`, from the session lookup to the final status. */
  function Play(trackId: string, session: Option<Session>, env: PlayEnv, now: int): PlayRun {
    if session.None? then PlayRun(Fail(NoSession), None, [])
    else if !Truthy(session.value.accessToken) then PlayRun(Fail(NoAccessToken), session, [])
    else ListDevices(trackId, session.value, env, now)
  }

  /** What a call of `refresh_access_token` sends: the token endpoint is contacted only
      when the session holds a refresh token. */
  function Renewal(s: Session): seq<Call> {
    if Truthy(s.refreshToken) then [RefreshToken] else []
  }

  function ListDevices(trackId: string, s: Session, env: PlayEnv, now: int): PlayRun {
    var calls := [GetDevices(s.accessToken)];
    if !env.devices.DevicesUnreachable? && env.devices.status == 401 then
      match RefreshedSession(s, env.devicesRefresh, now)
      case None => PlayRun(Fail(RefreshFailed), Some(s), calls + Renewal(s))
      case Some(s1) => UseDevices(trackId, s1, env.devicesRetry, calls + [RefreshToken, GetDevices(s1.accessToken)], env, now)
    else UseDevices(trackId, s, env.devices, calls, env, now)
  }

  function UseDevices(trackId: string, s: Session, reply: DevicesReply, calls: seq<Call>, env: PlayEnv, now: int): PlayRun {
    if reply.DevicesUnreachable? || RaisesForStatus(reply.status) || reply.DevicesNotJson? then
      PlayRun(Fail(RequestError), Some(s), calls)
    else
      match ChooseDevice(reply.devices)
      case None => PlayRun(Fail(NoActiveDevice), Some(s), calls)
      case Some(d) => SendPlay(trackId, d, s, calls, env, now)
  }

  function SendPlay(trackId: string, d: string, s: Session, calls: seq<Call>, env: PlayEnv, now: int): PlayRun {
    var sent := calls + [PutPlay(s.accessToken, d, trackId)];
    match env.play
    case PlayUnreachable => PlayRun(Fail(RequestError), Some(s), sent)
    case PlayAnswer(status) =>
      if status != 401 then PlayRun(PlayStatusResult(status), Some(s), sent)
      else
        match RefreshedSession(s, env.playRefresh, now)
        case None => PlayRun(Fail(RefreshFailed), Some(s), sent + Renewal(s))
        case Some(s2) =>
          var resent := sent + [RefreshToken, PutPlay(s2.accessToken, d, trackId)];
          match env.playRetry
          case PlayUnreachable => PlayRun(Fail(RequestError), Some(s2), resent)
          case PlayAnswer(status2) => PlayRun(PlayStatusResult(status2), Some(s2), resent)
  }

  /** Without a session, or without an access token, nothing is sent and nothing changes. */
  lemma PlayEarlyExits(trackId: string, session: Option<Session>, env: PlayEnv, now: int)
    ensures session.None? ==> Play(trackId, session, env, now) == PlayRun(Fail(NoSession), None, [])
    ensures session.Some? && !Truthy(session.value.accessToken) ==>
      Play(trackId, session, env, now) == PlayRun(Fail(NoAccessToken), session, [])
  {
  }

  /** A device listing that yields no usable device ends the call with the no-device
      reason; only the listing was sent, never a play command. */
  lemma PlayWithoutDevice(trackId: string, s: Session, env: PlayEnv, now: int)
    requires Truthy(s.accessToken)
    requires env.devices.DevicesAnswer? && env.devices.status != 401 && !RaisesForStatus(env.devices.status)
    requires ChooseDevice(env.devices.devices).None?
    ensures Play(trackId, Some(s), env, now) == PlayRun(Fail(NoActiveDevice), Some(s), [GetDevices(s.accessToken)])
  {
  }

  /** An empty device list never leads to a play command, whatever else happens. */
  lemma PlayNoDevicesNoCommand(trackId: string, s: Session, env: PlayEnv, now: int)
    requires env.devices.DevicesAnswer? && env.devices.devices == []
    requires env.devicesRetry.DevicesAnswer? ==> env.devicesRetry.devices == []
    ensures forall c :: c in Play(trackId, Some(s), env, now).calls ==> !c.PutPlay?
    ensures Play(trackId, Some(s), env, now).result.ok == false
  {
  }

  /** Once a device is chosen, the play command goes to that device with that track, and
      the final status decides: 403 is the premium reason, anything else is success
      exactly when it is 204. A 401 renews the token and repeats the command once, with
      the new token; a second 401 is not retried. */
  lemma SendPlayDecides(trackId: string, d: string, s: Session, calls: seq<Call>, env: PlayEnv, now: int)
    ensures var run := SendPlay(trackId, d, s, calls, env, now);
      && |run.calls| > |calls| && run.calls[..|calls|] == calls
      && run.calls[|calls|] == PutPlay(s.accessToken, d, trackId)
      && match env.play
         case PlayUnreachable => run.result == Fail(RequestError)
         case PlayAnswer(status) =>
           if status != 401 then run.result == PlayStatusResult(status) && |run.calls| == |calls| + 1
           else
             match RefreshedSession(s, env.playRefresh, now)
             case None =>
               && run.result == Fail(RefreshFailed)
               && (Truthy(s.refreshToken) ==> run.calls == calls + [PutPlay(s.accessToken, d, trackId), RefreshToken])
               && (!Truthy(s.refreshToken) ==> run.calls == calls + [PutPlay(s.accessToken, d, trackId)])
             case Some(s2) =>
               && run.calls == calls + [PutPlay(s.accessToken, d, trackId), RefreshToken, PutPlay(s2.accessToken, d, trackId)]
               && run.session == Some(s2)
               && (env.playRetry.PlayAnswer? ==> run.result == PlayStatusResult(env.playRetry.status))
  {
  }

  /** The first active device, else the first listed device, is the one the play command
      targets, and the command carries the requested track. */
  lemma PlayTargetsChosenDevice(trackId: string, s: Session, env: PlayEnv, now: int)
    requires Truthy(s.accessToken)
    requires env.devices.DevicesAnswer? && env.devices.status != 401 && !RaisesForStatus(env.devices.status)
    requires ChooseDevice(env.devices.devices).Some?
    ensures var run := Play(trackId, Some(s), env, now);
      |run.calls| >= 2 && run.calls[0] == GetDevices(s.accessToken) &&
      run.calls[1] == PutPlay(s.accessToken, ChooseDevice(env.devices.devices).value, trackId)
  {
    SendPlayDecides(trackId, ChooseDevice(env.devices.devices).value, s, [GetDevices(s.accessToken)], env, now);
  }

  /** A 401 on the device listing renews the token once. If the renewal fails the call
      ends with the refresh reason; otherwise the listing is sent once more with the new
      token, and that second listing is never renewed: a 401 on it is a request error, and
      any later renewal belongs to the play command. */
  lemma PlayListingUnauthorized(trackId: string, s: Session, env: PlayEnv, now: int)
    requires Truthy(s.accessToken)
    requires !env.devices.DevicesUnreachable? && env.devices.status == 401
    ensures var run := Play(trackId, Some(s), env, now);
      match RefreshedSession(s, env.devicesRefresh, now)
      case None => run == PlayRun(Fail(RefreshFailed), Some(s), [GetDevices(s.accessToken)] + Renewal(s))
      case Some(s1) =>
        var listed := [GetDevices(s.accessToken), RefreshToken, GetDevices(s1.accessToken)];
        && |run.calls| >= 3 && run.calls[..3] == listed
        && (forall i :: 3 <= i < |run.calls| ==> !run.calls[i].GetDevices?)
        && (forall i :: 3 <= i < |run.calls| && run.calls[i].RefreshToken? ==> run.calls[i - 1].PutPlay?)
        && (!env.devicesRetry.DevicesUnreachable? && env.devicesRetry.status == 401 ==>
              run == PlayRun(Fail(RequestError), Some(s1), listed))
        && (env.devicesRetry.DevicesAnswer? && !RaisesForStatus(env.devicesRetry.status) &&
            ChooseDevice(env.devicesRetry.devices).None? ==>
              run == PlayRun(Fail(NoActiveDevice), Some(s1), listed))
  {
    match RefreshedSession(s, env.devicesRefresh, now)
    case None =>
    case Some(s1) =>
      var listed := [GetDevices(s.accessToken), RefreshToken, GetDevices(s1.accessToken)];
      assert [GetDevices(s.accessToken)] + [RefreshToken, GetDevices(s1.accessToken)] == listed;
      var reply := env.devicesRetry;
      if !(reply.DevicesUnreachable? || RaisesForStatus(reply.status) || reply.DevicesNotJson?) {
        var d := ChooseDevice(reply.devices);
        if d.Some? {
          SendPlayDecides(trackId, d.value, s1, listed, env, now);
        }
      }
  }

  predicate SameRequest(a: Call, b: Call) {
    || (a.GetDevices? && b.GetDevices?)
    || (a.PutPlay? && b.PutPlay? && a.deviceId == b.deviceId && a.trackId == b.trackId)
  }

  /** The retry discipline of one call: at most six requests and two token renewals;
      every renewal directly follows a request and is followed, if by anything, by that
      same request once more; of two renewals the first follows the device listing and
      the second the play command, so each request is renewed at most once; every play
      command carries the track and a non-empty device. */
  predicate Disciplined(calls: seq<Call>, trackId: string) {
    && |calls| <= 6
    && multiset(calls)[RefreshToken] <= 2
    && (forall i :: 0 <= i < |calls| && calls[i].RefreshToken? ==>
          0 < i && !calls[i - 1].RefreshToken? &&
          (i + 1 < |calls| ==> SameRequest(calls[i - 1], calls[i + 1])))
    && (forall i, j :: 0 < i < j < |calls| && calls[i].RefreshToken? && calls[j].RefreshToken? ==>
          calls[i - 1].GetDevices? && calls[j - 1].PutPlay?)
    && (forall c :: c in calls && c.PutPlay? ==> c.trackId == trackId && c.deviceId != "")
  }

  /** The discipline holds of every prefix of a disciplined trace. */
  lemma DisciplinedPrefix(calls: seq<Call>, prefix: seq<Call>, trackId: string)
    requires Disciplined(calls, trackId) && prefix <= calls
    ensures Disciplined(prefix, trackId)
  {
    var n := |prefix|;
    assert prefix == calls[..n];
    assert calls == prefix + calls[n..];
    assert multiset(calls) == multiset(prefix) + multiset(calls[n..]);
    forall c | c in prefix
      ensures c in calls
    {
    }
  }

  /** The token of the repeated play command: the renewed one, if the renewal succeeds. */
  function RetryToken(s: Session, reply: TokenReply, now: int): Option<string> {
    match RefreshedSession(s, reply, now)
    case Some(s2) => s2.accessToken
    case None => None
  }

  /** The play phase appends a prefix of: the command, a renewal, the command again. */
  lemma SendPlayPrefix(trackId: string, d: string, s: Session, calls: seq<Call>, env: PlayEnv, now: int)
    ensures var run := SendPlay(trackId, d, s, calls, env, now);
      var full := calls + [PutPlay(s.accessToken, d, trackId), RefreshToken, PutPlay(RetryToken(s, env.playRefresh, now), d, trackId)];
      && run.calls <= full && |run.calls| > |calls|
      && (run.result.ok ==> run.calls[|run.calls| - 1].PutPlay?)
  {
  }

  /** The device listing on its own: the request, possibly a renewal, possibly the request again. */
  lemma ListingDisciplined(calls: seq<Call>, trackId: string)
    requires 1 <= |calls| <= 3 && calls[0].GetDevices?
    requires |calls| >= 2 ==> calls[1] == RefreshToken
    requires |calls| == 3 ==> calls[2].GetDevices?
    ensures Disciplined(calls, trackId)
  {
    assert calls == [calls[0]] + calls[1..];
    assert multiset(calls[1..])[RefreshToken] <= |calls[1..]|;
    if |calls| == 3 {
      assert calls[1..] == [calls[1]] + [calls[2]];
    }
  }

  /** The longest trace without a renewal of the listing token: listing, play command,
      renewal, play command again. */
  lemma ShortTraceDisciplined(calls: seq<Call>, d: string, trackId: string)
    requires d != "" && |calls| == 4
    requires calls[0].GetDevices? && calls[1].PutPlay? && calls[2] == RefreshToken && calls[3].PutPlay?
    requires calls[1].deviceId == d && calls[3].deviceId == d && calls[1].trackId == trackId && calls[3].trackId == trackId
    ensures Disciplined(calls, trackId)
  {
    assert multiset(calls)[RefreshToken] == 1 by {
      assert calls == [calls[0], calls[1], calls[2], calls[3]];
    }
    forall c | c in calls && c.PutPlay?
      ensures c.trackId == trackId && c.deviceId != ""
    {
      var i :| 0 <= i < 4 && calls[i] == c;
    }
  }

  /** The longest trace of all: both the listing and the play command are renewed and retried. */
  lemma LongTraceDisciplined(calls: seq<Call>, d: string, trackId: string)
    requires d != "" && |calls| == 6
    requires calls[0].GetDevices? && calls[1] == RefreshToken && calls[2].GetDevices?
    requires calls[3].PutPlay? && calls[4] == RefreshToken && calls[5].PutPlay?
    requires calls[3].deviceId == d && calls[5].deviceId == d && calls[3].trackId == trackId && calls[5].trackId == trackId
    ensures Disciplined(calls, trackId)
  {
    assert multiset(calls)[RefreshToken] == 2 by {
      assert calls == [calls[0], calls[1], calls[2], calls[3], calls[4], calls[5]];
    }
    forall c | c in calls && c.PutPlay?
      ensures c.trackId == trackId && c.deviceId != ""
    {
      var i :| 0 <= i < 6 && calls[i] == c;
    }
  }

  /** The retry discipline after a device listing `calls` that ends with the token of `s`. */
  lemma UseDevicesDisciplined(trackId: string, s: Session, reply: DevicesReply, calls: seq<Call>, env: PlayEnv, now: int)
    requires |calls| == 1 || (|calls| == 3 && calls[1] == RefreshToken)
    requires calls[0].GetDevices? && calls[|calls| - 1].GetDevices?
    ensures var run := UseDevices(trackId, s, reply, calls, env, now);
      Disciplined(run.calls, trackId) && (run.result.ok ==> run.calls[|run.calls| - 1].PutPlay?)
  {
    var run := UseDevices(trackId, s, reply, calls, env, now);
    if !(reply.DevicesUnreachable? || RaisesForStatus(reply.status) || reply.DevicesNotJson?) && ChooseDevice(reply.devices).Some? {
      var d := ChooseDevice(reply.devices).value;
      assert run == SendPlay(trackId, d, s, calls, env, now);
      var full := calls + [PutPlay(s.accessToken, d, trackId), RefreshToken, PutPlay(RetryToken(s, env.playRefresh, now), d, trackId)];
      SendPlayPrefix(trackId, d, s, calls, env, now);
      if |calls| == 3 {
        LongTraceDisciplined(full, d, trackId);
      } else {
        ShortTraceDisciplined(full, d, trackId);
      }
      DisciplinedPrefix(full, run.calls, trackId);
    } else {
      ListingDisciplined(calls, trackId);
    }
  }

  /** The retry discipline from the device listing on. */
  lemma ListDevicesDisciplined(trackId: string, s: Session, env: PlayEnv, now: int)
    ensures var run := ListDevices(trackId, s, env, now);
      && Disciplined(run.calls, trackId)
      && (run.result.ok ==> run.calls[|run.calls| - 1].PutPlay?)
  {
    var g := GetDevices(s.accessToken);
    if !env.devices.DevicesUnreachable? && env.devices.status == 401 {
      match RefreshedSession(s, env.devicesRefresh, now)
      case None =>
        ListingDisciplined([g] + Renewal(s), trackId);
      case Some(s1) =>
        UseDevicesDisciplined(trackId, s1, env.devicesRetry, [g] + [RefreshToken, GetDevices(s1.accessToken)], env, now);
    } else {
      UseDevicesDisciplined(trackId, s, env.devices, [g], env, now);
    }
  }

  /** Every call obeys the retry discipline, and success is reported only after a play command. */
  lemma PlayRetryDiscipline(trackId: string, session: Option<Session>, env: PlayEnv, now: int)
    ensures var run := Play(trackId, session, env, now);
      && Disciplined(run.calls, trackId)
      && (run.result.ok ==> run.calls != [] && run.calls[|run.calls| - 1].PutPlay?)
  {
    if session.Some? && Truthy(session.value.accessToken) {
      ListDevicesDisciplined(trackId, session.value, env, now);
    }
  }

  /** A session without a refresh token never contacts the token endpoint: a 401 ends the
      call with the refresh reason right after the request that drew it. */
  lemma PlayWithoutRefreshToken(trackId: string, s: Session, env: PlayEnv, now: int)
    requires !Truthy(s.refreshToken)
    ensures var run := Play(trackId, Some(s), env, now);
      && RefreshToken !in run.calls
      && run.session == Some(s)
      && (Truthy(s.accessToken) && !env.devices.DevicesUnreachable? && env.devices.status == 401 ==>
            run == PlayRun(Fail(RefreshFailed), Some(s), [GetDevices(s.accessToken)]))
  {
  }

  /** `play_track` touches only the session's access token and its expiry, and only by
      renewing them; without a renewal the session is unchanged. */
  lemma PlayKeepsSession(trackId: string, session: Option<Session>, env: PlayEnv, now: int)
    ensures var run := Play(trackId, session, env, now);
      && (run.session.Some? <==> session.Some?)
      && (session.Some? ==> SameExceptCredentials(session.value, run.session.value))
      && (RefreshToken !in run.calls ==> run.session == session)
  {
  }
}
