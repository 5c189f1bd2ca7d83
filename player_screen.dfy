/**
 * The playback screen's controller logic: the `mm:ss` / `hh:mm:ss` time label, the
 * play/pause toggle, the position slider (which ignores position updates while the user
 * holds it and seeks on release) and the reactions to duration, state and media-status
 * changes. The video service is seen through the calls the screen makes on it.
 */
module PlayerScreen {
  import opened PyStr
  import opened DomainModels
  import opened Arith

  // ---------------------------------------------------------------------------
  // format_time

  /** `(ms // 1000) % 60`; Python's `//` and `%` by a positive number agree with Dafny's. */
  function Seconds(ms: int): (s: int)
    ensures 0 <= s < 60
  {
    (ms / 1000) % 60
  }

  /** `(ms // 60000) % 60`. */
  function Minutes(ms: int): (m: int)
    ensures 0 <= m < 60
  {
    (ms / 60000) % 60
  }

  /** `ms // 3600000`. */
  function Hours(ms: int): int {
    ms / 3600000
  }

  /** Hours, minutes and seconds together are the whole seconds of `ms`. */
  lemma ClockDecomposition(ms: int)
    ensures Hours(ms) * 3600 + Minutes(ms) * 60 + Seconds(ms) == ms / 1000
  {
    var t := ms / 1000;
    var q := t / 60;
    assert t == q * 60 + t % 60;
    assert ms / 60000 == q by { DivDiv(ms, 1000, 60); }
    assert ms / 3600000 == q / 60 by { DivDiv(ms, 60000, 60); DivDiv(ms, 1000, 60); }
    assert q == (q / 60) * 60 + q % 60;
  }

  /** `t[i..j]` is a run of at least two digits denoting `v`. */
  predicate Field(t: string, i: nat, j: nat, v: nat) {
    && i + 2 <= j <= |t|
    && (forall k :: i <= k < j ==> IsDigit(t[k]))
    && DigitsOrUnderscores(t[i..j], 10)
    && GroupValue(t[i..j], 10) == v
  }

  /** A copy of `Pad2(v)` inside `t` is a field denoting `v`. */
  lemma PaddedField(t: string, i: nat, v: nat)
    requires i + |Pad2(v)| <= |t| && t[i..i + |Pad2(v)|] == Pad2(v)
    ensures Field(t, i, i + |Pad2(v)|, v)
  {
    var p := Pad2(v);
    forall k | i <= k < i + |p| ensures IsDigit(t[k]) {
      assert t[k] == p[k - i];
    }
  }

  /** `format_time(ms)`: hours only when there is at least one, each field zero-padded to
      two digits. */
  function FormatTime(ms: int): (t: string)
    ensures |t| >= 5 && t[|t| - 3] == ':'
    ensures Hours(ms) <= 0 ==> |t| == 5
    ensures Hours(ms) > 0 ==> |t| >= 8 && t[|t| - 6] == ':'
  {
    var tail := Pad2(Minutes(ms)) + ":" + Pad2(Seconds(ms));
    if Hours(ms) > 0 then Pad2(Hours(ms)) + ":" + tail else tail
  }

  /** Below one hour the text is `MM:SS`: two digits of minutes, a colon, two digits of
      seconds. */
  lemma FormatTimeShort(ms: int)
    requires Hours(ms) <= 0
    ensures var t := FormatTime(ms);
      |t| == 5 && Field(t, 0, 2, Minutes(ms)) && t[2] == ':' && Field(t, 3, 5, Seconds(ms))
  {
    var t := FormatTime(ms);
    assert t[0..2] == Pad2(Minutes(ms));
    assert t[3..5] == Pad2(Seconds(ms));
    PaddedField(t, 0, Minutes(ms));
    PaddedField(t, 3, Seconds(ms));
  }

  /** The fields of `f"{h:02}:{m:02}:{s:02}"`. */
  lemma LongFields(h: nat, m: nat, s: nat)
    requires m < 60 && s < 60
    ensures var t := Pad2(h) + ":" + (Pad2(m) + ":" + Pad2(s));
      && |t| >= 8
      && Field(t, 0, |t| - 6, h) && t[|t| - 6] == ':'
      && Field(t, |t| - 5, |t| - 3, m) && t[|t| - 3] == ':'
      && Field(t, |t| - 2, |t|, s)
  {
    var ph := Pad2(h);
    var t := ph + ":" + (Pad2(m) + ":" + Pad2(s));
    var n := |t|;
    assert n == |ph| + 6;
    assert t[0..n - 6] == ph;
    assert t[n - 5..n - 3] == Pad2(m);
    assert t[n - 2..n] == Pad2(s);
    PaddedField(t, 0, h);
    PaddedField(t, n - 5, m);
    PaddedField(t, n - 2, s);
  }

  /** From one hour on the text is `HH:MM:SS`, the hours taking two digits or more. */
  lemma FormatTimeLong(ms: int)
    requires Hours(ms) > 0
    ensures var t := FormatTime(ms);
      && |t| >= 8
      && Field(t, 0, |t| - 6, Hours(ms)) && t[|t| - 6] == ':'
      && Field(t, |t| - 5, |t| - 3, Minutes(ms)) && t[|t| - 3] == ':'
      && Field(t, |t| - 2, |t|, Seconds(ms))
  {
    var h, m, s := Hours(ms), Minutes(ms), Seconds(ms);
    assert FormatTime(ms) == Pad2(h) + ":" + (Pad2(m) + ":" + Pad2(s));
    LongFields(h, m, s);
  }

  /** `update_time_label(position, duration)`. */
  function TimeLabel(position: int, duration: int): (t: string)
    ensures |t| == |FormatTime(position)| + 3 + |FormatTime(duration)| && |t| >= 13
  {
    FormatTime(position) + " / " + FormatTime(duration)
  }

  /** Below one hour both parts are five characters: the label is always 13 long. */
  lemma TimeLabelShortForm(position: int, duration: int)
    requires 0 <= position < 3600000 && 0 <= duration < 3600000
    ensures |TimeLabel(position, duration)| == 13
    ensures TimeLabel(position, duration)[5..8] == " / "
  {
    FormatTimeShort(position);
    FormatTimeShort(duration);
  }

  // ---------------------------------------------------------------------------
  // The screen

  /** The calls the screen makes on the video service. */
  datatype ServiceCall = Play | Pause | Seek(position: int) | CloseVideo(resetProgress: bool) | PopulateTracks

  /** `QSlider.setValue`: the value is kept within [0, maximum]. */
  function ClampToSlider(value: int, maximum: int): (v: int)
    requires maximum >= 0
    ensures 0 <= v <= maximum
    ensures 0 <= value <= maximum ==> v == value
  {
    if value < 0 then 0 else if value > maximum then maximum else value
  }

  /** The service call `toggle_play` makes. */
  function ToggleCall(state: PlaybackState): (c: ServiceCall)
    ensures c == Pause <==> state == Playing
    ensures c == Play <==> state != Playing
  {
    if state == Playing then Pause else Play
  }

  class Screen {
    var updatingSlider: bool
    var state: PlaybackState
    var duration: int
    var sliderValue: int
    var sliderMaximum: int
    var timeLabel: string
    var playButtonText: string
    var calls: seq<ServiceCall>
    /** How many times `back_clicked` was emitted. */
    var backClicked: nat

    predicate Valid()
      reads this
    {
      0 <= sliderValue <= sliderMaximum
    }

    /** A fresh screen; a `QSlider` starts at 0 with maximum 99. */
    constructor()
      ensures Valid()
      ensures !updatingSlider && state == Stopped && duration == 0
      ensures sliderValue == 0 && sliderMaximum == 99
      ensures timeLabel == "00:00 / 00:00" && playButtonText == "Play"
      ensures calls == [] && backClicked == 0
    {
      updatingSlider := false;
      state := Stopped;
      duration := 0;
      sliderValue := 0;
      sliderMaximum := 99;
      timeLabel := "00:00 / 00:00";
      playButtonText := "Play";
      calls := [];
      backClicked := 0;
    }

    /** `_on_position_changed` (the second definition, the one connected): ignored while the
        slider is held; otherwise the slider moves, with its signals blocked, and the label
        follows. */
    method OnPositionChanged(position: int)
      requires Valid()
      modifies this
      ensures Valid()
      ensures old(updatingSlider) ==> sliderValue == old(sliderValue) && timeLabel == old(timeLabel)
      ensures !old(updatingSlider) ==>
        sliderValue == ClampToSlider(position, sliderMaximum) && timeLabel == TimeLabel(position, duration)
      ensures updatingSlider == old(updatingSlider) && state == old(state) && duration == old(duration)
      ensures sliderMaximum == old(sliderMaximum) && playButtonText == old(playButtonText)
      ensures calls == old(calls) && backClicked == old(backClicked)
    {
      if !updatingSlider {
        sliderValue := ClampToSlider(position, sliderMaximum);
        timeLabel := TimeLabel(position, duration);
      }
    }

    /** `_on_duration_changed`: the duration is always stored, the slider range only grows
        or shrinks for a positive duration (pulling the value in with it). */
    method OnDurationChanged(d: int)
      requires Valid()
      modifies this
      ensures Valid()
      ensures duration == d
      ensures d > 0 ==> sliderMaximum == d && sliderValue == ClampToSlider(old(sliderValue), d)
      ensures d <= 0 ==> sliderMaximum == old(sliderMaximum) && sliderValue == old(sliderValue)
      ensures timeLabel == TimeLabel(sliderValue, d)
      ensures updatingSlider == old(updatingSlider) && state == old(state)
      ensures playButtonText == old(playButtonText) && calls == old(calls) && backClicked == old(backClicked)
    {
      duration := d;
      if d > 0 {
        sliderMaximum := d;
        sliderValue := ClampToSlider(sliderValue, d);
      }
      timeLabel := TimeLabel(sliderValue, d);
    }

    /** `_on_playback_state_changed`. */
    method OnPlaybackStateChanged(s: PlaybackState)
      modifies this
      ensures state == s && playButtonText == (if s == Playing then "Pause" else "Play")
      ensures updatingSlider == old(updatingSlider) && duration == old(duration)
      ensures sliderValue == old(sliderValue) && sliderMaximum == old(sliderMaximum)
      ensures timeLabel == old(timeLabel) && calls == old(calls) && backClicked == old(backClicked)
    {
      state := s;
      if s == Playing {
        playButtonText := "Pause";
      } else {
        playButtonText := "Play";
      }
    }

    /** `_on_media_status_changed`: tracks are listed once loaded; at the end the video is
        closed with its progress reset and the screen asks to go back. */
    method OnMediaStatusChanged(status: MediaStatus)
      modifies this
      ensures status == Loaded ==> calls == old(calls) + [PopulateTracks] && backClicked == old(backClicked)
      ensures status == End ==> calls == old(calls) + [CloseVideo(true)] && backClicked == old(backClicked) + 1
      ensures status != Loaded && status != End ==> calls == old(calls) && backClicked == old(backClicked)
      ensures updatingSlider == old(updatingSlider) && state == old(state) && duration == old(duration)
      ensures sliderValue == old(sliderValue) && sliderMaximum == old(sliderMaximum)
      ensures timeLabel == old(timeLabel) && playButtonText == old(playButtonText)
    {
      if status == Loaded {
        calls := calls + [PopulateTracks];
      } else if status == End {
        calls := calls + [CloseVideo(true)];
        backClicked := backClicked + 1;
      }
    }

    /** `toggle_play`: pause exactly when playing. */
    method TogglePlay()
      modifies this
      ensures calls == old(calls) + [ToggleCall(state)]
      ensures updatingSlider == old(updatingSlider) && state == old(state) && duration == old(duration)
      ensures sliderValue == old(sliderValue) && sliderMaximum == old(sliderMaximum)
      ensures timeLabel == old(timeLabel) && playButtonText == old(playButtonText)
      ensures backClicked == old(backClicked)
    {
      if state == Playing {
        calls := calls + [Pause];
      } else {
        calls := calls + [Play];
      }
    }

    /** `stop_video` and `_on_back_clicked`: close, keeping the progress, and go back. */
    method StopVideo()
      modifies this
      ensures calls == old(calls) + [CloseVideo(false)] && backClicked == old(backClicked) + 1
      ensures updatingSlider == old(updatingSlider) && state == old(state) && duration == old(duration)
      ensures sliderValue == old(sliderValue) && sliderMaximum == old(sliderMaximum)
      ensures timeLabel == old(timeLabel) && playButtonText == old(playButtonText)
    {
      calls := calls + [CloseVideo(false)];
      backClicked := backClicked + 1;
    }

    /** `on_slider_pressed`. */
    method OnSliderPressed()
      modifies this
      ensures updatingSlider
      ensures state == old(state) && duration == old(duration)
      ensures sliderValue == old(sliderValue) && sliderMaximum == old(sliderMaximum)
      ensures timeLabel == old(timeLabel) && playButtonText == old(playButtonText)
      ensures calls == old(calls) && backClicked == old(backClicked)
    {
      updatingSlider := true;
    }

    /** The user moves the slider to `value`: `valueChanged` runs `on_slider_moved`, which
        previews the time only while the slider is held. */
    method MoveSlider(value: int)
      requires Valid()
      modifies this
      ensures Valid()
      ensures sliderValue == ClampToSlider(value, sliderMaximum)
      ensures updatingSlider ==> timeLabel == TimeLabel(sliderValue, duration)
      ensures !updatingSlider ==> timeLabel == old(timeLabel)
      ensures updatingSlider == old(updatingSlider) && state == old(state) && duration == old(duration)
      ensures sliderMaximum == old(sliderMaximum) && playButtonText == old(playButtonText)
      ensures calls == old(calls) && backClicked == old(backClicked)
    {
      sliderValue := ClampToSlider(value, sliderMaximum);
      if updatingSlider {
        timeLabel := TimeLabel(sliderValue, duration);
      }
    }

    /** `on_slider_released`: the flag clears and the service seeks to the slider value. */
    method OnSliderReleased()
      modifies this
      ensures !updatingSlider
      ensures calls == old(calls) + [Seek(sliderValue)]
      ensures state == old(state) && duration == old(duration)
      ensures sliderValue == old(sliderValue) && sliderMaximum == old(sliderMaximum)
      ensures timeLabel == old(timeLabel) && playButtonText == old(playButtonText)
      ensures backClicked == old(backClicked)
    {
      updatingSlider := false;
      calls := calls + [Seek(sliderValue)];
    }
  }

  /** A drag: press, move to `target`, any number of position updates from the player,
      release. The seek goes to where the user left the slider, whatever the player
      reported meanwhile. */
  method Drag(screen: Screen, target: int, reported: seq<int>)
    requires screen.Valid()
    modifies screen
    ensures screen.Valid() && !screen.updatingSlider
    ensures screen.sliderValue == ClampToSlider(target, old(screen.sliderMaximum))
    ensures screen.calls == old(screen.calls) + [Seek(screen.sliderValue)]
  {
    screen.OnSliderPressed();
    screen.MoveSlider(target);
    var i := 0;
    while i < |reported|
      invariant 0 <= i <= |reported|
      invariant screen.Valid() && screen.updatingSlider
      invariant screen.sliderMaximum == old(screen.sliderMaximum)
      invariant screen.sliderValue == ClampToSlider(target, old(screen.sliderMaximum))
      invariant screen.calls == old(screen.calls)
    {
      screen.OnPositionChanged(reported[i]);
      i := i + 1;
    }
    screen.OnSliderReleased();
  }
}
