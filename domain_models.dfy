/**
 * The player's domain values: the playback state and media status a player reports, and the
 * video being played.
 */
module DomainModels {
  import opened PyStr

  datatype PlaybackState = Stopped | Playing | Paused

  datatype MediaStatus = NoMedia | Loading | Loaded | Buffering | End | Error

  datatype Video = Video(path: string, title: string)

  /** `os.path.basename` on POSIX: the text after the last '/'. */
  function Basename(path: string): (b: string)
    ensures NoChar(b, '/')
    ensures EndsWith(path, b)
    ensures |b| < |path| ==> path[|path| - |b| - 1] == '/'
  {
    AfterLast(path, '/')
  }

  /** `Video(path, title)`: an empty title becomes the file name of the path. */
  function MakeVideo(path: string, title: string): (v: Video)
    ensures v.path == path
    ensures title != "" ==> v.title == title
    ensures title == "" ==> v.title == Basename(path)
  {
    Video(path, if title == "" then Basename(path) else title)
  }

  /** The default title is the last piece of the path split at '/'. */
  lemma DefaultTitleIsLastPiece(path: string)
    ensures var parts := Split(path, '/');
      MakeVideo(path, "").title == parts[|parts| - 1]
  {
    LastPieceIsAfterLast(path, '/');
  }
}
