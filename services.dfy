/**
 * The video service: the application's one playback session. It owns the current video,
 * the position to resume at once the media has loaded, and the player adapter it drives;
 * positions are written to the progress store when playback pauses, stops or closes.
 *
 * The player is an identity plus the log of commands sent to it; what the player answers
 * (its current position) is an input of the operation that asks.
 */
module Services {
  import opened Options
  import opened DomainModels

  /** The five player callbacks the service binds. */
  datatype Hook = PositionChanged | DurationChanged | PlaybackStateChanged | MediaStatusChanged | ErrorOccurred

  datatype PlayerOp = Load(path: string) | Play | Pause | StopPlayback | Seek(position: int) | SetHook(hook: Hook)

  /** One command, and the player it was sent to. */
  datatype PlayerCall = PlayerCall(player: nat, op: PlayerOp)

  /** The delay before the initial seek runs, in milliseconds. */
  const InitialSeekDelayMs := 250

  datatype Session = Session(
    player: nat,
    current: Option<Video>,
    pendingSeek: int,
    progress: map<string, int>,
    calls: seq<PlayerCall>,
    forwarded: seq<MediaStatus>,
    scheduledSeeks: nat)

  /** `_bind_player_callbacks`: the five setters, in order. */
  function Bindings(player: nat): (r: seq<PlayerCall>)
    ensures |r| == 5 && forall k :: 0 <= k < 5 ==> r[k].player == player && r[k].op.SetHook?
  {
    [PlayerCall(player, SetHook(PositionChanged)), PlayerCall(player, SetHook(DurationChanged)),
     PlayerCall(player, SetHook(PlaybackStateChanged)), PlayerCall(player, SetHook(MediaStatusChanged)),
     PlayerCall(player, SetHook(ErrorOccurred))]
  }

  /** `load_progress(path)`: the saved position, 0 when there is none. */
  function SavedPosition(progress: map<string, int>, path: string): int {
    if path in progress then progress[path] else 0
  }

  function Send(s: Session, op: PlayerOp): Session {
    s.(calls := s.calls + [PlayerCall(s.player, op)])
  }

  /** `open_video(path)`. */
  function Opened(s: Session, path: string): (t: Session)
    ensures t.current.Some? && t.current.value.path == path && t.pendingSeek >= 0
    ensures t.progress == s.progress && t.player == s.player && |t.calls| == |s.calls| + 2
  {
    var saved := SavedPosition(s.progress, path);
    s.(current := Some(MakeVideo(path, "")),
       pendingSeek := if saved > 0 then saved else 0,
       calls := s.calls + [PlayerCall(s.player, Load(path)), PlayerCall(s.player, Play)])
  }

  /** `_on_media_status_changed(status)`. */
  function StatusChanged(s: Session, status: MediaStatus): (t: Session)
    ensures |t.forwarded| == |s.forwarded| + 1 && t.forwarded[|s.forwarded|] == status
    ensures s.scheduledSeeks <= t.scheduledSeeks <= s.scheduledSeeks + 1
    ensures t.calls == s.calls && t.pendingSeek == s.pendingSeek
  {
    var s' := s.(forwarded := s.forwarded + [status]);
    if status == Loaded && s.pendingSeek > 0 then s'.(scheduledSeeks := s.scheduledSeeks + 1) else s'
  }

  /** `_execute_initial_seek`, run when the timer fires. */
  function InitialSeekDone(s: Session): (t: Session)
    ensures t.pendingSeek <= 0 && t.current == s.current && t.progress == s.progress
    ensures |s.calls| <= |t.calls| <= |s.calls| + 1
  {
    if s.pendingSeek > 0 then Send(s, Seek(s.pendingSeek)).(pendingSeek := 0) else s
  }

  /** `_save_current_progress`, the player reporting `position`. */
  function ProgressSaved(s: Session, position: int): (t: Session)
    ensures t.current == s.current && t.calls == s.calls && t.progress.Keys >= s.progress.Keys
    ensures s.current.Some? ==> s.current.value.path in t.progress
  {
    if s.current.Some? then s.(progress := s.progress[s.current.value.path := position]) else s
  }

  /** `close_video(reset_progress)`, the player reporting `position`. */
  function Closed(s: Session, reset: bool, position: int): (t: Session)
    ensures t.current.None? && t.player == s.player && t.progress.Keys >= s.progress.Keys
    ensures |s.calls| <= |t.calls| <= |s.calls| + 1
  {
    if s.current.None? then s
    else
      var saved := if reset then s.(progress := s.progress[s.current.value.path := 0]) else ProgressSaved(s, position);
      Send(saved, StopPlayback).(current := None)
  }

  /** `swap_player(new_player)`, the old player reporting `position`. */
  function Swapped(s: Session, newPlayer: nat, position: int): (t: Session)
    ensures t.current.None? && t.player == newPlayer && t.progress.Keys >= s.progress.Keys
    ensures |s.calls| + 5 <= |t.calls| <= |s.calls| + 6
  {
    var released := if s.current.Some? then Send(ProgressSaved(s, position), StopPlayback).(current := None) else s;
    released.(player := newPlayer, calls := released.calls + Bindings(newPlayer))
  }

  /** Opening a video makes it current with its file name as title, loads and plays it on
      the current player, and arms the resume position exactly when a positive one was saved. */
  lemma OpenLaw(s: Session, path: string)
    ensures var t := Opened(s, path);
      && t.current == Some(Video(path, Basename(path)))
      && t.pendingSeek >= 0
      && (t.pendingSeek > 0 <==> path in s.progress && s.progress[path] > 0)
      && (t.pendingSeek > 0 ==> t.pendingSeek == s.progress[path])
      && t.calls == s.calls + [PlayerCall(s.player, Load(path)), PlayerCall(s.player, Play)]
      && t.progress == s.progress && t.player == s.player
  {
  }

  /** Every status is forwarded; a seek is scheduled only on LOADED with a position armed. */
  lemma StatusLaw(s: Session, status: MediaStatus)
    ensures var t := StatusChanged(s, status);
      && t.forwarded == s.forwarded + [status]
      && (t.scheduledSeeks == s.scheduledSeeks + 1 <==> status == Loaded && s.pendingSeek > 0)
      && (t.scheduledSeeks != s.scheduledSeeks + 1 ==> t.scheduledSeeks == s.scheduledSeeks)
      && t.(forwarded := s.forwarded, scheduledSeeks := s.scheduledSeeks) == s
  {
  }

  /** The initial seek fires at most once: it disarms itself, so running it twice is running
      it once. */
  lemma InitialSeekAtMostOnce(s: Session)
    ensures InitialSeekDone(InitialSeekDone(s)) == InitialSeekDone(s)
    ensures InitialSeekDone(s).pendingSeek <= 0
    ensures s.pendingSeek > 0 ==> InitialSeekDone(s).calls == s.calls + [PlayerCall(s.player, Seek(s.pendingSeek))]
    ensures s.pendingSeek <= 0 ==> InitialSeekDone(s) == s
  {
  }

  /** Opening a video with a saved position, then the player reporting LOADED, then the
      timer firing, seeks the player to that position. */
  lemma ResumeScenario(s: Session, path: string)
    requires path in s.progress && s.progress[path] > 0
    ensures var t := InitialSeekDone(StatusChanged(Opened(s, path), Loaded));
      && t.scheduledSeeks == s.scheduledSeeks + 1
      && t.calls[|t.calls| - 1] == PlayerCall(s.player, Seek(s.progress[path]))
      && t.pendingSeek == 0
  {
  }

  /** Without a saved position nothing is scheduled and no seek is sent. */
  lemma NoResumeWithoutSavedPosition(s: Session, path: string)
    requires SavedPosition(s.progress, path) <= 0
    ensures var o := Opened(s, path);
      && StatusChanged(o, Loaded).scheduledSeeks == s.scheduledSeeks
      && InitialSeekDone(StatusChanged(o, Loaded)).calls == o.calls
  {
  }

  /** Saving progress writes the reported position under the current path and nothing else;
      without a current video it does nothing. */
  lemma SaveLaw(s: Session, position: int)
    ensures s.current.None? ==> ProgressSaved(s, position) == s
    ensures s.current.Some? ==>
      var t := ProgressSaved(s, position);
      && t.progress == s.progress[s.current.value.path := position]
      && t.(progress := s.progress) == s
  {
  }

  /** Closing does nothing without a current video; otherwise it saves 0 (reset) or the
      reported position, stops the player and forgets the video. */
  lemma CloseLaw(s: Session, reset: bool, position: int)
    ensures Closed(s, reset, position).current.None?
    ensures s.current.None? ==> Closed(s, reset, position) == s
    ensures s.current.Some? ==>
      var t := Closed(s, reset, position);
      && t.progress == s.progress[s.current.value.path := if reset then 0 else position]
      && t.calls == s.calls + [PlayerCall(s.player, StopPlayback)]
      && t.player == s.player && t.pendingSeek == s.pendingSeek
  {
  }

  /** Swapping releases any current video on the old player, then binds all five callbacks
      to the new player. */
  lemma SwapLaw(s: Session, newPlayer: nat, position: int)
    ensures var t := Swapped(s, newPlayer, position);
      && t.player == newPlayer && t.current.None?
      && |t.calls| >= 5 && t.calls[|t.calls| - 5..] == Bindings(newPlayer)
      && (s.current.None? ==> t.calls == s.calls + Bindings(newPlayer) && t.progress == s.progress)
      && (s.current.Some? ==>
            && t.calls == s.calls + [PlayerCall(s.player, StopPlayback)] + Bindings(newPlayer)
            && t.progress == s.progress[s.current.value.path := position])
  {
  }

  class VideoService {
    var player: nat
    var current: Option<Video>
    /** `_pending_initial_seek`; 0 also stands for the attribute not existing yet. */
    var pendingSeek: int
    /** The progress store's positions. */
    var progress: map<string, int>
    var calls: seq<PlayerCall>
    /** The statuses re-emitted as `media_status_changed`. */
    var forwarded: seq<MediaStatus>
    /** The `QTimer.singleShot` calls scheduling the initial seek. */
    var scheduledSeeks: nat

    function State(): Session
      reads this
    {
      Session(player, current, pendingSeek, progress, calls, forwarded, scheduledSeeks)
    }

    constructor(initialPlayer: nat, stored: map<string, int>)
      ensures State() == Session(initialPlayer, None, 0, stored, Bindings(initialPlayer), [], 0)
    {
      player := initialPlayer;
      current := None;
      pendingSeek := 0;
      progress := stored;
      forwarded := [];
      scheduledSeeks := 0;
      calls := Bindings(initialPlayer);
    }

    method OnMediaStatusChanged(status: MediaStatus)
      modifies this
      ensures State() == StatusChanged(old(State()), status)
    {
      forwarded := forwarded + [status];
      if status == Loaded && pendingSeek > 0 {
        scheduledSeeks := scheduledSeeks + 1;
      }
    }

    method ExecuteInitialSeek()
      modifies this
      ensures State() == InitialSeekDone(old(State()))
    {
      if pendingSeek > 0 {
        calls := calls + [PlayerCall(player, Seek(pendingSeek))];
        pendingSeek := 0;
      }
    }

    method OpenVideo(path: string)
      modifies this
      ensures State() == Opened(old(State()), path)
    {
      current := Some(MakeVideo(path, ""));
      calls := calls + [PlayerCall(player, Load(path))];
      var saved := if path in progress then progress[path] else 0;
      if saved > 0 {
        pendingSeek := saved;
      } else {
        pendingSeek := 0;
      }
      calls := calls + [PlayerCall(player, PlayerOp.Play)];
    }

    /** `position`: what the player reports from `get_position()`. */
    method SaveCurrentProgress(position: int)
      modifies this
      ensures State() == ProgressSaved(old(State()), position)
    {
      if current.Some? {
        progress := progress[current.value.path := position];
      }
    }

    method Play()
      modifies this
      ensures State() == Send(old(State()), PlayerOp.Play)
    {
      calls := calls + [PlayerCall(player, PlayerOp.Play)];
    }

    method Pause(position: int)
      modifies this
      ensures State() == Send(ProgressSaved(old(State()), position), PlayerOp.Pause)
    {
      SaveCurrentProgress(position);
      calls := calls + [PlayerCall(player, PlayerOp.Pause)];
    }

    method Stop(position: int)
      modifies this
      ensures State() == Send(ProgressSaved(old(State()), position), StopPlayback)
    {
      SaveCurrentProgress(position);
      calls := calls + [PlayerCall(player, StopPlayback)];
    }

    method SeekTo(position: int)
      modifies this
      ensures State() == Send(old(State()), Seek(position))
    {
      calls := calls + [PlayerCall(player, Seek(position))];
    }

    method CloseVideo(reset: bool, position: int)
      modifies this
      ensures State() == Closed(old(State()), reset, position)
    {
      if current.Some? {
        if reset {
          progress := progress[current.value.path := 0];
        } else {
          SaveCurrentProgress(position);
        }
        calls := calls + [PlayerCall(player, StopPlayback)];
        current := None;
      }
    }

    method SwapPlayer(newPlayer: nat, position: int)
      modifies this
      ensures State() == Swapped(old(State()), newPlayer, position)
    {
      if current.Some? {
        SaveCurrentProgress(position);
        calls := calls + [PlayerCall(player, StopPlayback)];
        current := None;
      }
      player := newPlayer;
      calls := calls + Bindings(newPlayer);
    }
  }
}
