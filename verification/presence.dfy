/**
 * Translation of the selected session into the Discord presence payload, branching on the
 * item's `Type`.
 */
module Presence {
  import opened Wrappers
  import opened Js
  import opened Sessions
  import opened EndTime

  /** The four branches of the `switch (NowPlayingItem.Type)` */
  datatype Kind = Episode | Movie | Audio | Other

  function KindOf(kind: string): Kind {
    if kind == "Episode" then Episode
    else if kind == "Movie" then Movie
    else if kind == "Audio" then Audio
    else Other
  }

  /**
   * The activity handed to `setActivity`. `state` is None where main.js passes `undefined`
   * or `null`; `endTimestamp` is None where it passes `false` (no countdown).
   */
  datatype Payload = Payload(
    details: string,
    state: Option<string>,
    largeImageKey: string,
    largeImageText: string,
    smallImageKey: string,
    smallImageText: string,
    instance: bool,
    endTimestamp: Option<int>)

  /** The verb shared by `details` and `largeImageText` */
  function Verb(k: Kind): string {
    if k == Audio then "Listening" else "Watching"
  }

  /** `S{toZero(season)}E{toZero(episode)}: {Name}` when both numbers are truthy, else the name */
  function EpisodeState(item: Item, toZero: int -> string): string {
    if Truthy(OfInt(item.parentIndexNumber)) && Truthy(OfInt(item.indexNumber))
    then "S" + toZero(item.parentIndexNumber.value) + "E" + toZero(item.indexNumber.value) + ": " + item.name
    else item.name
  }

  /** `NPItem.AlbumArtist && "By " + AlbumArtist`: a falsy artist is passed through as it is */
  function AudioState(item: Item): Option<string> {
    if Truthy(OfString(item.albumArtist)) then Some("By " + item.albumArtist.value)
    else item.albumArtist
  }

  /**
   * The payload for a session that has a now-playing item. `toZero` is main.js's
   * zero-padding helper, which is not part of this model and is taken as a parameter.
   */
  function MapPresence(s: Session, nowMs: int, toZero: int -> string): (p: Payload)
    requires s.nowPlaying.Some?
    ensures var k := KindOf(s.nowPlaying.value.kind);
            && p.largeImageText == Verb(k) + " on " + s.client
            && |p.details| > |Verb(k)| && p.details[..|Verb(k)| + 1] == Verb(k) + " "
    ensures p.largeImageKey == "large" && !p.instance
    ensures s.playState.isPaused <==> p.smallImageKey == "pause"
    ensures s.playState.isPaused ==> p.smallImageText == "Paused" && p.endTimestamp.None?
    ensures !s.playState.isPaused ==>
              && p.smallImageKey == "play" && p.smallImageText == "Playing"
              && p.endTimestamp == Some(CalcEndTimestamp(s.nowPlaying.value, s.playState, nowMs))
    ensures p.state.None? ==> KindOf(s.nowPlaying.value.kind) == Audio && s.nowPlaying.value.albumArtist.None?
  {
    var item := s.nowPlaying.value;
    var paused := s.playState.isPaused;
    var smallImageKey := if paused then "pause" else "play";
    var smallImageText := if paused then "Paused" else "Playing";
    var endTimestamp := if !paused then Some(CalcEndTimestamp(item, s.playState, nowMs)) else None;
    match KindOf(item.kind)
    case Episode =>
      var series := if Truthy(OfString(item.seriesName)) then item.seriesName.value else "a TV Show";
      Payload("Watching " + series, Some(EpisodeState(item, toZero)), "large", "Watching on " + s.client,
              smallImageKey, smallImageText, false, endTimestamp)
    case Movie =>
      Payload("Watching a Movie", Some(item.name), "large", "Watching on " + s.client,
              smallImageKey, smallImageText, false, endTimestamp)
    case Audio =>
      Payload("Listening to " + item.name, AudioState(item), "large", "Listening on " + s.client,
              smallImageKey, smallImageText, false, endTimestamp)
    case Other =>
      Payload("Watching Other Content", Some(item.name), "large", "Watching on " + s.client,
              smallImageKey, smallImageText, false, endTimestamp)
  }

  /** Is `suffix` a suffix of `s`? */
  predicate EndsWith(s: string, suffix: string) {
    |suffix| <= |s| && s[|s| - |suffix|..] == suffix
  }

  /** Outside Audio the state always names the item: it is the name, or ends with ": " and the name */
  lemma StateNamesItem(s: Session, nowMs: int, toZero: int -> string)
    requires s.nowPlaying.Some? && KindOf(s.nowPlaying.value.kind) != Audio
    ensures var p := MapPresence(s, nowMs, toZero);
            p.state.Some? && EndsWith(p.state.value, s.nowPlaying.value.name)
  {
  }

  /**
   * Episode formatting: the series name when it is non-empty, otherwise "a TV Show"; the
   * season/episode prefix exactly when both numbers are present and non-zero (season 0 counts
   * as absent).
   */
  lemma EpisodeFormatting(s: Session, nowMs: int, toZero: int -> string)
    requires s.nowPlaying.Some? && s.nowPlaying.value.kind == "Episode"
    ensures var item := s.nowPlaying.value;
            var p := MapPresence(s, nowMs, toZero);
            && (item.seriesName.Some? && item.seriesName.value != "" ==> p.details == "Watching " + item.seriesName.value)
            // "Watching a TV Show", kept split as in the template for the solver's sake
            && (item.seriesName.None? || item.seriesName.value == "" ==> p.details == "Watching " + "a TV Show")
            && (item.parentIndexNumber.Some? && item.parentIndexNumber.value != 0
                && item.indexNumber.Some? && item.indexNumber.value != 0
                ==> p.state == Some("S" + toZero(item.parentIndexNumber.value) + "E"
                                    + toZero(item.indexNumber.value) + ": " + item.name))
            && (item.parentIndexNumber.None? || item.parentIndexNumber.value == 0
                || item.indexNumber.None? || item.indexNumber.value == 0
                ==> p.state == Some(item.name))
  {
    var item := s.nowPlaying.value;
    assert Truthy(OfString(item.seriesName)) <==> item.seriesName.Some? && item.seriesName.value != "";
    assert Truthy(OfInt(item.parentIndexNumber)) <==> item.parentIndexNumber.Some? && item.parentIndexNumber.value != 0;
    assert Truthy(OfInt(item.indexNumber)) <==> item.indexNumber.Some? && item.indexNumber.value != 0;
    if !Truthy(OfString(item.seriesName)) {
      // the literal is kept split as in the template: the joined literal is not proved reliably
      assert MapPresence(s, nowMs, toZero).details == "Watching " + "a TV Show";
    }
  }

  /**
   * Audio formatting: "Listening to" the track; the state is "By" the album artist when there is a
   * non-empty one, absent when there is none, and the empty string passed through when it is empty.
   */
  lemma AudioFormatting(s: Session, nowMs: int, toZero: int -> string)
    requires s.nowPlaying.Some? && s.nowPlaying.value.kind == "Audio"
    ensures var item := s.nowPlaying.value;
            var p := MapPresence(s, nowMs, toZero);
            && p.details == "Listening to " + item.name
            && p.largeImageText == "Listening on " + s.client
            && (item.albumArtist.Some? && item.albumArtist.value != "" ==> p.state == Some("By " + item.albumArtist.value))
            && (item.albumArtist.None? <==> p.state.None?)
            && (item.albumArtist == Some("") ==> p.state == Some(""))
  {
  }

  /**
   * Movies and unrecognised types: fixed details and the item name as state; every type other
   * than the three named ones takes the Other branch.
   */
  lemma MovieAndOtherFormatting(s: Session, nowMs: int, toZero: int -> string)
    requires s.nowPlaying.Some?
    ensures var item := s.nowPlaying.value;
            var p := MapPresence(s, nowMs, toZero);
            && (item.kind == "Movie" ==> p.details == "Watching a Movie" && p.state == Some(item.name))
            && (item.kind !in {"Episode", "Movie", "Audio"} ==>
                  p.details == "Watching Other Content" && p.state == Some(item.name))
            && (item.kind != "Audio" ==> p.largeImageText == "Watching on " + s.client)
  {
  }

  /** Pausing changes only the small image and the countdown; the text of the presence stays */
  lemma PauseChangesOnlyPlaybackFields(s: Session, nowMs: int, toZero: int -> string)
    requires s.nowPlaying.Some?
    ensures var t := s.(playState := s.playState.(isPaused := !s.playState.isPaused));
            var p, q := MapPresence(s, nowMs, toZero), MapPresence(t, nowMs, toZero);
            && p.details == q.details && p.state == q.state
            && p.largeImageKey == q.largeImageKey && p.largeImageText == q.largeImageText
            && p.instance == q.instance
            && p.smallImageKey != q.smallImageKey && p.smallImageText != q.smallImageText
            && p.endTimestamp.Some? != q.endTimestamp.Some?
  {
  }

  /** The clock only moves the countdown: two polls of the same session differ in endTimestamp alone */
  lemma ClockChangesOnlyEndTimestamp(s: Session, t1: int, t2: int, toZero: int -> string)
    requires s.nowPlaying.Some?
    ensures MapPresence(s, t1, toZero).(endTimestamp := None) == MapPresence(s, t2, toZero).(endTimestamp := None)
  {
  }

  /**
   * The movie "Arrival", 7200 s long and half watched, polled at 1000 s: 3600 s remain, so the
   * presence ends at 4600; paused, it shows the pause image and no countdown.
   */
  lemma ArrivalExample(toZero: int -> string)
    ensures var item := Item("Movie", "Arrival", None, None, None, None, 72000000000);
            var s := Session("alice", "Chrome", "Emby Web", Some(item), PlayState(false, 36000000000));
            var p := MapPresence(s, 1000000, toZero);
            var q := MapPresence(s.(playState := PlayState(true, 36000000000)), 1000000, toZero);
            && p.details == "Watching a Movie" && p.state == Some("Arrival")
            && p.endTimestamp == Some(4600)
            && q.endTimestamp.None? && q.smallImageKey == "pause"
  {
  }
}
