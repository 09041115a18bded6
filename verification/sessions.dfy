/**
 * The media server's session records, as returned by the `/Sessions` endpoint, and the
 * selector that picks the session whose playback should be shown as the user's presence.
 */
module Sessions {
  import opened Wrappers

  /**
   * The `NowPlayingItem` of a session; `kind` is the server's `Type` string.
   * Durations and positions are in ticks of 100 nanoseconds.
   */
  datatype Item = Item(
    kind: string,
    name: string,
    seriesName: Option<string>,
    parentIndexNumber: Option<int>,   // season number
    indexNumber: Option<int>,         // episode number
    albumArtist: Option<string>,
    runTimeTicks: int)

  datatype PlayState = PlayState(isPaused: bool, positionTicks: int)

  datatype Session = Session(
    userName: string,
    deviceName: string,
    client: string,
    nowPlaying: Option<Item>,
    playState: PlayState)

  /**
   * A session is shown when it belongs to the configured user, is not this application's own
   * device registration, and is playing something.
   */
  predicate Qualifies(s: Session, userName: string, appName: string) {
    s.userName == userName && s.deviceName != appName && s.nowPlaying.Some?
  }

  /** `sessions.filter(...)`: the qualifying sessions, in server order */
  function Filter(sessions: seq<Session>, userName: string, appName: string): (r: seq<Session>)
    ensures |r| <= |sessions|
    ensures forall i :: 0 <= i < |r| ==> Qualifies(r[i], userName, appName)
    ensures forall s :: s in r <==> s in sessions && Qualifies(s, userName, appName)
  {
    if |sessions| == 0 then []
    else
      var rest := Filter(sessions[1..], userName, appName);
      assert forall s :: s in sessions <==> s == sessions[0] || s in sessions[1..];
      if Qualifies(sessions[0], userName, appName) then [sessions[0]] + rest else rest
  }

  /** Filtering works session by session: it distributes over concatenation, so it keeps server order */
  lemma {:induction false} FilterAppend(a: seq<Session>, b: seq<Session>, userName: string, appName: string)
    ensures Filter(a + b, userName, appName) == Filter(a, userName, appName) + Filter(b, userName, appName)
  {
    if |a| > 0 {
      assert (a + b)[1..] == a[1..] + b;
      FilterAppend(a[1..], b, userName, appName);
    } else {
      assert a + b == b;
    }
  }

  /** `filter(...)[0]`: the first qualifying session, or none (JavaScript's `undefined`) */
  function Select(sessions: seq<Session>, userName: string, appName: string): (r: Option<Session>)
    ensures r.Some? ==> r.value in sessions && Qualifies(r.value, userName, appName)
    ensures r.None? <==> forall i :: 0 <= i < |sessions| ==> !Qualifies(sessions[i], userName, appName)
  {
    var matches := Filter(sessions, userName, appName);
    if |matches| > 0 then Some(matches[0])
    else
      assert forall i :: 0 <= i < |sessions| ==> sessions[i] in sessions;
      None
  }

  /** The position of the first qualifying session, if there is one */
  predicate IsFirstMatch(sessions: seq<Session>, userName: string, appName: string, k: int) {
    && 0 <= k < |sessions|
    && Qualifies(sessions[k], userName, appName)
    && forall j :: 0 <= j < k ==> !Qualifies(sessions[j], userName, appName)
  }

  /**
   * First match wins: when a session is selected, it sits at some position k such that every
   * earlier session fails the filter.
   */
  lemma {:induction false} SelectIsFirstMatch(sessions: seq<Session>, userName: string, appName: string)
    requires Select(sessions, userName, appName).Some?
    ensures exists k :: IsFirstMatch(sessions, userName, appName, k)
                     && sessions[k] == Select(sessions, userName, appName).value
  {
    if Qualifies(sessions[0], userName, appName) {
      assert IsFirstMatch(sessions, userName, appName, 0);
    } else {
      var tail := sessions[1..];
      assert Filter(sessions, userName, appName) == Filter(tail, userName, appName);
      SelectIsFirstMatch(tail, userName, appName);
      var k :| IsFirstMatch(tail, userName, appName, k) && tail[k] == Select(tail, userName, appName).value;
      assert IsFirstMatch(sessions, userName, appName, k + 1);
    }
  }

  /** Conversely, whatever sits at the first qualifying position is what gets selected */
  lemma {:induction false} FirstMatchIsSelected(sessions: seq<Session>, userName: string, appName: string, k: int)
    requires IsFirstMatch(sessions, userName, appName, k)
    ensures Select(sessions, userName, appName) == Some(sessions[k])
  {
    if k > 0 {
      var tail := sessions[1..];
      assert Filter(sessions, userName, appName) == Filter(tail, userName, appName);
      assert IsFirstMatch(tail, userName, appName, k - 1);
      FirstMatchIsSelected(tail, userName, appName, k - 1);
    }
  }

  /** Sessions appended after a qualifying one never change the selection */
  lemma {:induction false} SelectIgnoresLaterSessions(sessions: seq<Session>, later: seq<Session>, userName: string, appName: string)
    requires Select(sessions, userName, appName).Some?
    ensures Select(sessions + later, userName, appName) == Select(sessions, userName, appName)
  {
    SelectIsFirstMatch(sessions, userName, appName);
    var k :| IsFirstMatch(sessions, userName, appName, k) && sessions[k] == Select(sessions, userName, appName).value;
    assert IsFirstMatch(sessions + later, userName, appName, k);
    FirstMatchIsSelected(sessions + later, userName, appName, k);
  }
}
