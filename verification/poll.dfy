/**
 * One run of `setPresence` once the `/Sessions` request has settled: select a session, then
 * show it, clear the presence, or leave it as it was.
 */
module Poll {
  import opened Wrappers
  import opened Sessions
  import opened EndTime
  import opened Presence
  import Js
  import Settings

  /** How the `/Sessions` request settled: a transport error, or a status code and the decoded body */
  datatype Response = RequestError | Reply(statusCode: int, sessions: seq<Session>)

  /**
   * What the poll does to the presence. `Show` carries the `setActivity` payload and the delay,
   * in milliseconds, after which the next refresh is scheduled.
   */
  datatype Action = Unchanged | Clear | Show(payload: Payload, retryMs: int)

  /**
   * A poll: failures are only logged; a selected session is shown and a refresh is scheduled for
   * when it ends; with no qualifying session the presence is cleared if a Discord client exists.
   */
  function PollOnce(resp: Response, userName: string, appName: string, nowMs: int,
                    hasClient: bool, toZero: int -> string): (a: Action)
    ensures resp.RequestError? || resp.statusCode != 200 ==> a == Unchanged
    ensures a.Show? <==> resp.Reply? && resp.statusCode == 200 && Select(resp.sessions, userName, appName).Some?
    ensures a.Clear? <==> resp.Reply? && resp.statusCode == 200 && hasClient
                          && forall i :: 0 <= i < |resp.sessions| ==> !Qualifies(resp.sessions[i], userName, appName)
    ensures a.Show? ==> exists i :: 0 <= i < |resp.sessions| && Qualifies(resp.sessions[i], userName, appName)
                                    && a.payload == MapPresence(resp.sessions[i], nowMs, toZero)
  {
    match resp
    case RequestError => Unchanged
    case Reply(status, sessions) =>
      if status != 200 then Unchanged
      else
        match Select(sessions, userName, appName)
        case Some(s) =>
          var endsIn := EndsIn(s.nowPlaying.value, s.playState, nowMs);
          Show(MapPresence(s, nowMs, toZero), endsIn * MillisecondsPerSecond)
        case None => if hasClient then Clear else Unchanged
  }

  /**
   * The shown payload belongs to the first qualifying session in the server's list, and the
   * refresh is scheduled when its playback is predicted to end.
   */
  lemma ShowsFirstQualifyingSession(resp: Response, userName: string, appName: string, nowMs: int,
                                    hasClient: bool, toZero: int -> string)
    requires PollOnce(resp, userName, appName, nowMs, hasClient, toZero).Show?
    ensures var a := PollOnce(resp, userName, appName, nowMs, hasClient, toZero);
            exists k :: IsFirstMatch(resp.sessions, userName, appName, k)
                        && a.payload == MapPresence(resp.sessions[k], nowMs, toZero)
                        && a.retryMs == 1000 * EndsIn(resp.sessions[k].nowPlaying.value, resp.sessions[k].playState, nowMs)
  {
    SelectIsFirstMatch(resp.sessions, userName, appName);
  }

  /** The presence currently shown by Discord: at most one payload, or nothing */
  type Display = Option<Payload>

  /** `setActivity` replaces whatever was shown, `clearActivity` removes it, a failed poll keeps it */
  function Apply(a: Action, shown: Display): (d: Display)
    ensures a.Unchanged? ==> d == shown
    ensures d.Some? <==> a.Show? || (a.Unchanged? && shown.Some?)
    ensures a.Show? ==> d == Some(a.payload)
  {
    match a
    case Unchanged => shown
    case Clear => None
    case Show(p, _) => Some(p)
  }

  /**
   * A successful reply polled while a client exists decides the display on its own: what was shown
   * before does not matter.
   */
  lemma ReplyDecidesDisplay(sessions: seq<Session>, userName: string, appName: string, nowMs: int,
                            toZero: int -> string, d1: Display, d2: Display)
    ensures var a := PollOnce(Reply(200, sessions), userName, appName, nowMs, true, toZero);
            Apply(a, d1) == Apply(a, d2)
  {
  }

  /** Clearing twice is the same as clearing once (under the assumed Discord behaviour of Apply) */
  lemma ClearIsIdempotent(shown: Display)
    ensures Apply(Clear, Apply(Clear, shown)) == Apply(Clear, shown)
  {
  }

  /**
   * With no qualifying session the presence is never set: it is cleared when a client exists and
   * otherwise left alone.
   */
  lemma NoSessionNeverShows(sessions: seq<Session>, userName: string, appName: string, nowMs: int,
                            hasClient: bool, toZero: int -> string, shown: Display)
    requires forall i :: 0 <= i < |sessions| ==> !Qualifies(sessions[i], userName, appName)
    ensures var a := PollOnce(Reply(200, sessions), userName, appName, nowMs, hasClient, toZero);
            && !a.Show?
            && Apply(a, shown) == (if hasClient then None else shown)
  {
  }

  /**
   * As written, the refresh never reads the display flag. The refresh scheduled by the last poll
   * (`setTimeout(setPresence, endsIn * 1000)`) is not cancelled when display is turned off, and
   * when it fires a qualifying session is set again.
   */
  lemma RefreshIgnoresDisplayOff(db: Settings.Db, s: Session, userName: string, appName: string,
                                 nowMs: int, toZero: int -> string)
    requires Js.Truthy(Settings.Get(db, "doDisplayStatus")) && Qualifies(s, userName, appName)
    ensures !Js.Truthy(Settings.Get(Settings.ToggleDisplay(db).0, "doDisplayStatus"))
    ensures PollOnce(Reply(200, [s]), userName, appName, nowMs, true, toZero).Show?
  {
    FirstMatchIsSelected([s], userName, appName, 0);
  }

  /**
   * The refresh as evidently intended: it acts only while the app is configured and display is on,
   * the same guard `connectRPC` uses, and is otherwise a poll as above.
   */
  function GatedPoll(db: Settings.Db, resp: Response, userName: string, appName: string, nowMs: int,
                     hasClient: bool, toZero: int -> string): (a: Action)
    ensures Settings.ConnectRpc(db).None? ==> a == Unchanged
    ensures Settings.ConnectRpc(db).Some? ==> a == PollOnce(resp, userName, appName, nowMs, hasClient, toZero)
  {
    if Settings.ConnectRpc(db).Some? then PollOnce(resp, userName, appName, nowMs, hasClient, toZero)
    else Unchanged
  }

  /** With the gate, turning display off or resetting the app keeps every later refresh from showing anything */
  lemma GatedPollSilentWhenOff(db: Settings.Db, resp: Response, userName: string, appName: string, nowMs: int,
                               hasClient: bool, toZero: int -> string, hasTimer: bool)
    ensures Js.Truthy(Settings.Get(db, "doDisplayStatus")) ==>
              GatedPoll(Settings.ToggleDisplay(db).0, resp, userName, appName, nowMs, hasClient, toZero) == Unchanged
    ensures GatedPoll(Settings.Reset(db, hasTimer, hasClient).db, resp, userName, appName, nowMs, hasClient, toZero) == Unchanged
  {
    if Js.Truthy(Settings.Get(db, "doDisplayStatus")) {
      Settings.DisplayOffRefusesConnect(db);
    }
  }
}
