/** The media-player widget: a playlist with a current index, the
    previous/next rules, the play/pause button states and the position
    label. The `QMediaPlayer` is reduced to its source, position, duration
    and playback state; its own reactions to these calls are not modelled. */
module Player {

  import opened Optional
  import opened Text

  datatype PlaybackState = StoppedState | PlayingState | PausedState

  /** Within this many milliseconds of the start, "previous" goes back a track. */
  const RestartThreshold: int := 5000
  const FallbackMimeType: string := "audio/mpeg"
  const InitialPositionText: string := "00:00 / 00:00"

  /** `get_supported_mime_types`: the mime name of every decodable format,
      in order, then "audio/mpeg". */
  method GetSupportedMimeTypes<F>(decodeFormats: seq<F>, mimeName: F -> string) returns (result: seq<string>)
    ensures |result| == |decodeFormats| + 1
    ensures forall i :: 0 <= i < |decodeFormats| ==> result[i] == mimeName(decodeFormats[i])
    ensures result[|decodeFormats|] == FallbackMimeType
  {
    result := [];
    for i := 0 to |decodeFormats|
      invariant |result| == i
      invariant forall j :: 0 <= j < i ==> result[j] == mimeName(decodeFormats[j])
    {
      result := result + [mimeName(decodeFormats[i])];
    }
    result := result + [FallbackMimeType];
  }

  function PlayEnabled(hasMedia: bool, state: PlaybackState): (r: bool)
    ensures r <==> hasMedia && (state == StoppedState || state == PausedState)
  {
    hasMedia && state != PlayingState
  }

  function PauseEnabled(state: PlaybackState): (r: bool)
    ensures r <==> !(state == StoppedState || state == PausedState)
  {
    state == PlayingState
  }

  /** Play and pause are never enabled together; with media loaded exactly
      one of them is, and with an empty playlist play is not. */
  lemma ButtonsExclusive(hasMedia: bool, state: PlaybackState)
    ensures !(PlayEnabled(hasMedia, state) && PauseEnabled(state))
    ensures hasMedia ==> PlayEnabled(hasMedia, state) != PauseEnabled(state)
    ensures !hasMedia ==> !PlayEnabled(hasMedia, state)
  {
  }

  /** Python's `f"{n:02}"` for an int. */
  function Pad2(n: int): (s: string)
    ensures |s| >= 2 && (0 <= n < 100 ==> |s| == 2)
    ensures n >= 0 ==> ParseDecimal(s) == Some(n)
  {
    Pad2Reads(n);
    FormatZeroPadded(n, 2)
  }

  lemma Pad2Reads(n: int)
    ensures n >= 0 ==> ParseDecimal(FormatZeroPadded(n, 2)) == Some(n)
    ensures 0 <= n < 100 ==> |FormatZeroPadded(n, 2)| == 2
  {
    assert Pow10(2) == 100;
    if 0 <= n < 100 {
      ZeroPaddedRoundTrip(n, 2);
    } else if n >= 100 {
      assert |NatToDecimal(n)| >= 2;
      assert FormatZeroPadded(n, 2) == NatToDecimal(n);
      ParseNatToDecimal(n);
    }
  }

  /** `f"{ms // 60000:02}:{(ms // 1000) % 60:02}"`. Python's `//` and `%`
      by a positive divisor agree with Dafny's; minutes are not reduced. */
  function Clock(ms: int): (s: string)
    ensures |s| >= 5 && s[|s| - 3] == ':'
  {
    Pad2(ms / 60000) + ":" + Pad2((ms / 1000) % 60)
  }

  /** Reads "M...M:SS" back into minutes and seconds. */
  function ParseClock(s: string): (r: Option<(nat, nat)>)
    ensures r.Some? ==> r.value.1 < 60
  {
    if |s| < 4 || s[|s| - 3] != ':' then None
    else
      match (ParseDecimal(s[..|s| - 3]), ParseDecimal(s[|s| - 2..]))
      case (Some(m), Some(sec)) => if sec < 60 then Some((m, sec)) else None
      case _ => None
  }

  lemma DivisionsCompose(ms: nat)
    ensures ms / 60000 == (ms / 1000) / 60
  {
    var q := ms / 1000;
    var a := q / 60;
    assert ms == 1000 * q + ms % 1000;
    assert q == 60 * a + q % 60;
    assert ms == 60000 * a + 1000 * (q % 60) + ms % 1000;
    assert 0 <= 1000 * (q % 60) + ms % 1000 < 60000;
  }

  /** For a non-negative position the label shows the whole minutes and the
      seconds within the minute, which together give the elapsed seconds. */
  lemma ClockRoundTrip(ms: nat)
    ensures ParseClock(Clock(ms)) == Some((ms / 60000, (ms / 1000) % 60))
    ensures (ms / 60000) * 60 + (ms / 1000) % 60 == ms / 1000
  {
    var minutes := ms / 60000;
    var seconds := (ms / 1000) % 60;
    ParseClockOf(Pad2(minutes), Pad2(seconds), minutes, seconds);
    DivisionsCompose(ms);
  }

  lemma ParseClockOf(m: string, sec: string, minutes: nat, seconds: nat)
    requires |m| >= 2 && |sec| == 2 && seconds < 60
    requires ParseDecimal(m) == Some(minutes) && ParseDecimal(sec) == Some(seconds)
    ensures ParseClock(m + ":" + sec) == Some((minutes, seconds))
  {
    var s := m + ":" + sec;
    assert s[..|s| - 3] == m;
    assert s[|s| - 2..] == sec;
  }

  lemma ClockExample()
    ensures Clock(754000) == "12:34"
  {
    assert 754000 / 60000 == 12 && 754000 / 1000 == 754 && 754 % 60 == 34;
    assert Pad2(12) == "12" by { assert NatToDecimal(12) == "12"; }
    assert Pad2(34) == "34" by { assert NatToDecimal(34) == "34"; }
  }

  class MediaPlayerWidget {
    var playlist: seq<string>
    var playlistIndex: int
    // the media player, as far as the widget observes it
    var source: Option<string>
    var position: int
    var duration: int
    var state: PlaybackState
    // the widgets the slots update
    var positionText: string
    var sliderValue: int
    var sliderMaximum: int
    var playEnabled: bool
    var pauseEnabled: bool

    /** The playlist index is -1 exactly when the playlist is empty and
        otherwise names the loaded source. */
    ghost predicate PlaylistValid()
      reads this
    {
      && -1 <= playlistIndex < |playlist|
      && (playlistIndex == -1 <==> playlist == [])
      && (playlistIndex == -1 ==> source == None)
      && (playlistIndex >= 0 ==> source == Some(playlist[playlistIndex]))
    }

    /** The buttons show what `update_buttons` computed for the current state. */
    ghost predicate ButtonsCurrent()
      reads this
    {
      && playEnabled == PlayEnabled(|playlist| > 0, state)
      && pauseEnabled == PauseEnabled(state)
    }

    ghost predicate Valid()
      reads this
    {
      PlaylistValid() && ButtonsCurrent()
    }

    constructor ()
      ensures Valid()
      ensures playlist == [] && playlistIndex == -1 && source == None
      ensures state == StoppedState && !playEnabled && !pauseEnabled
      ensures position == 0 && duration == 0
      ensures positionText == InitialPositionText && sliderValue == 0 && sliderMaximum == 0
    {
      playlist, playlistIndex := [], -1;
      source, position, duration, state := None, 0, 0, StoppedState;
      positionText, sliderValue, sliderMaximum := InitialPositionText, 0, 0;
      playEnabled, pauseEnabled := false, false;
      new;
      UpdateButtons(state);
    }

    /** `update_buttons`, called with the player's current state. */
    method UpdateButtons(newState: PlaybackState)
      requires newState == state
      modifies this`playEnabled, this`pauseEnabled
      ensures playEnabled == PlayEnabled(|playlist| > 0, newState)
      ensures pauseEnabled == PauseEnabled(newState)
    {
      var hasMedia := |playlist| > 0;
      playEnabled := hasMedia && newState != PlayingState;
      pauseEnabled := newState == PlayingState;
    }

    /** A playback-state change of the player, with the `playbackStateChanged`
        signal (emitted only on a change) connected to `update_buttons`. */
    method SetState(newState: PlaybackState)
      requires PlaylistValid() && (ButtonsCurrent() || newState != state)
      modifies this`state, this`playEnabled, this`pauseEnabled
      ensures Valid() && state == newState
    {
      if newState != state {
        state := newState;
        UpdateButtons(newState);
      }
    }

    method EnsureStopped()
      requires Valid()
      modifies this`state, this`playEnabled, this`pauseEnabled
      ensures Valid() && state == StoppedState
    {
      if state != StoppedState {
        SetState(StoppedState);
      }
    }

    /** The Play button, wired to `play`; it can be clicked only while enabled,
        so there is a loaded source and the player is not already playing. */
    method PlayClicked()
      requires Valid() && playEnabled
      modifies this`state, this`playEnabled, this`pauseEnabled
      ensures Valid() && state == PlayingState && !playEnabled && pauseEnabled
      ensures source.Some?
    {
      SetState(PlayingState);
    }

    /** The Pause button, wired to `pause`; it is enabled only while playing. */
    method PauseClicked()
      requires Valid() && pauseEnabled
      modifies this`state, this`playEnabled, this`pauseEnabled
      ensures Valid() && state == PausedState && !pauseEnabled
      ensures playEnabled == (|playlist| > 0)
    {
      SetState(PausedState);
    }

    /** `open`: stops playback, then, when the dialog was accepted with `url`
        as its first selection, appends it, makes it current and plays it. */
    method Open(selected: Option<string>)
      requires Valid()
      modifies this`playlist, this`playlistIndex, this`source, this`state, this`playEnabled, this`pauseEnabled
      ensures Valid()
      ensures selected.None? ==>
        playlist == old(playlist) && playlistIndex == old(playlistIndex) &&
        source == old(source) && state == StoppedState
      ensures selected.Some? ==>
        playlist == old(playlist) + [selected.value] && playlistIndex == |playlist| - 1 &&
        source == Some(selected.value) && state == PlayingState
    {
      EnsureStopped();
      if selected.Some? {
        var url := selected.value;
        playlist := playlist + [url];
        playlistIndex := |playlist| - 1;
        source := Some(url);
        SetState(PlayingState);
      }
    }

    /** `setSource` of the track at `index`: it becomes the current one, and
        setting a source stops the player. */
    method LoadTrack(index: int)
      requires PlaylistValid() && ButtonsCurrent() && 0 <= index < |playlist|
      modifies this`playlistIndex, this`source, this`state, this`playEnabled, this`pauseEnabled
      ensures Valid() && playlistIndex == index && source == Some(playlist[index])
      ensures state == StoppedState && playEnabled && !pauseEnabled
    {
      playlistIndex := index;
      source := Some(playlist[index]);
      SetState(StoppedState);
    }

    /** Goes back a track when within the first five seconds and not on the
        first track; otherwise restarts the current track. */
    method PreviousClicked()
      requires Valid()
      modifies this`playlistIndex, this`source, this`position, this`state, this`playEnabled, this`pauseEnabled
      ensures Valid()
      ensures old(position) <= RestartThreshold && old(playlistIndex) > 0 ==>
        playlistIndex == old(playlistIndex) - 1 && source == Some(playlist[playlistIndex]) &&
        position == old(position) && state == StoppedState
      ensures !(old(position) <= RestartThreshold && old(playlistIndex) > 0) ==>
        playlistIndex == old(playlistIndex) && source == old(source) && position == 0 &&
        state == old(state)
    {
      if position <= RestartThreshold && playlistIndex > 0 {
        LoadTrack(playlistIndex - 1);
      } else {
        position := 0;
      }
    }

    /** Advances to and loads the next track, unless on the last (or there is none). */
    method NextClicked()
      requires Valid()
      modifies this`playlistIndex, this`source, this`state, this`playEnabled, this`pauseEnabled
      ensures Valid()
      ensures old(playlistIndex) < |playlist| - 1 ==>
        playlistIndex == old(playlistIndex) + 1 && source == Some(playlist[playlistIndex]) &&
        state == StoppedState
      ensures old(playlistIndex) == |playlist| - 1 ==>
        playlistIndex == old(playlistIndex) && source == old(source) && state == old(state)
    {
      if playlistIndex < |playlist| - 1 {
        LoadTrack(playlistIndex + 1);
      }
    }

    /** `_update_position`: only with a known duration, moves the slider and
        shows "position / duration". */
    method UpdatePosition(newPosition: int)
      modifies this`sliderValue, this`positionText
      ensures duration > 0 ==>
        sliderValue == newPosition && positionText == Clock(newPosition) + " / " + Clock(duration)
      ensures duration <= 0 ==> sliderValue == old(sliderValue) && positionText == old(positionText)
    {
      if duration > 0 {
        sliderValue := newPosition;
        var positionFormatted := Clock(newPosition);
        var durationFormatted := Clock(duration);
        positionText := positionFormatted + " / " + durationFormatted;
      }
    }

    /** `_update_duration`: the slider ranges over the new duration. */
    method UpdateDuration(newDuration: int)
      modifies this`sliderMaximum
      ensures sliderMaximum == newDuration
    {
      sliderMaximum := newDuration;
    }

    /** The player reports a new position (`positionChanged`). */
    method PositionChanged(newPosition: int)
      requires Valid()
      modifies this`position, this`sliderValue, this`positionText
      ensures Valid() && position == newPosition
      ensures duration > 0 ==>
        sliderValue == newPosition && positionText == Clock(newPosition) + " / " + Clock(duration)
      ensures duration <= 0 ==> sliderValue == old(sliderValue) && positionText == old(positionText)
    {
      position := newPosition;
      UpdatePosition(newPosition);
    }

    /** The player reports a new duration (`durationChanged`). */
    method DurationChanged(newDuration: int)
      requires Valid()
      modifies this`duration, this`sliderMaximum
      ensures Valid() && duration == newDuration && sliderMaximum == newDuration
    {
      duration := newDuration;
      UpdateDuration(newDuration);
    }
  }
}
