/**
 * The home screen of the local-file player: the most-recent-first list of opened files
 * (at most 50, moved to the top when reopened, saved after every change) and the settings
 * dialog that picks the playback engine.
 */
module HomeScreen {
  import opened Options
  import opened PyStr
  import JsonAdapter

  const MaxRecent := 50

  // ---------------------------------------------------------------------------
  // The name shown for a path

  /** `path.split("/")[-1].split("\\")[-1]`. */
  function DisplayName(path: string): (name: string)
    ensures NoChar(name, '/') && NoChar(name, '\\')
    ensures EndsWith(path, name)
  {
    var a := AfterLast(path, '/');
    var n := AfterLast(a, '\\');
    NameOfName(path, a, n);
    n
  }

  /** A suffix of a suffix without a character is a suffix without it. */
  lemma NameOfName(path: string, a: string, n: string)
    requires NoChar(a, '/') && EndsWith(path, a)
    requires EndsWith(a, n)
    ensures NoChar(n, '/') && EndsWith(path, n)
  {
    forall i | 0 <= i < |n| ensures path[|path| - |n| + i] == n[i] && n[i] != '/' {
      assert n[i] == a[|a| - |n| + i];
    }
  }

  /** `parts[-1]`. */
  function LastPiece(parts: seq<string>): string
    requires |parts| >= 1
  {
    parts[|parts| - 1]
  }

  lemma LastPieceOfSplit(s: string, c: char)
    ensures LastPiece(Split(s, c)) == AfterLast(s, c)
  {
    LastPieceIsAfterLast(s, c);
  }

  /** The displayed name is the last piece of the split at '/', split again at '\\'. */
  lemma DisplayNameIsLastPiece(path: string)
    ensures DisplayName(path) == LastPiece(Split(LastPiece(Split(path, '/')), '\\'))
  {
    LastPieceOfSplit(path, '/');
    LastPieceOfSplit(AfterLast(path, '/'), '\\');
  }

  /** Unless it is the whole path, the displayed name follows a slash of either kind. */
  lemma DisplayNameFollowsSeparator(path: string)
    requires |DisplayName(path)| < |path|
    ensures var c := path[|path| - |DisplayName(path)| - 1]; c == '/' || c == '\\'
  {
    var a := AfterLast(path, '/');
    var n := AfterLast(a, '\\');
    assert n == DisplayName(path);
    SeparatorBeforeName(path, a, n);
  }

  lemma SeparatorBeforeName(path: string, a: string, n: string)
    requires EndsWith(path, a)
    requires |a| < |path| ==> path[|path| - |a| - 1] == '/'
    requires |n| <= |a|
    requires |n| < |a| ==> a[|a| - |n| - 1] == '\\'
    requires |n| < |path|
    ensures var c := path[|path| - |n| - 1]; c == '/' || c == '\\'
  {
    if |n| < |a| {
      assert a[|a| - |n| - 1] == path[|path| - |a| + (|a| - |n| - 1)];
    }
  }

  // ---------------------------------------------------------------------------
  // The recent list as a value

  /** The index of the first occurrence of `p`. */
  function FirstIndex(paths: seq<string>, p: string): (r: Option<nat>)
    ensures r.Some? ==> r.value < |paths| && paths[r.value] == p && p !in paths[..r.value]
    ensures r.None? <==> p !in paths
    decreases |paths|
  {
    if paths == [] then None
    else if paths[0] == p then Some(0)
    else match FirstIndex(paths[1..], p)
      case None => None
      case Some(i) =>
        assert paths[..i + 1] == [paths[0]] + paths[1..][..i];
        Some(i + 1)
  }

  /** `videos.remove(path)`: the first occurrence goes, the rest keep their order. */
  function RemoveFirst(paths: seq<string>, p: string): (r: seq<string>)
    ensures FirstIndex(paths, p).None? ==> r == paths
    ensures FirstIndex(paths, p).Some? ==>
      var k := FirstIndex(paths, p).value; r == paths[..k] + paths[k + 1..]
    decreases |paths|
  {
    if paths == [] then []
    else if paths[0] == p then paths[1..]
    else
      var rest := RemoveFirst(paths[1..], p);
      match FirstIndex(paths[1..], p)
      case None => [paths[0]] + rest
      case Some(k) =>
        assert FirstIndex(paths, p) == Some(k + 1);
        ConsAroundGap(paths, k);
        [paths[0]] + rest
  }

  /** Putting the head back in front of the tail with index `k` cut out is cutting out
      index `k + 1`. */
  lemma ConsAroundGap<T>(xs: seq<T>, k: nat)
    requires k + 1 < |xs|
    ensures [xs[0]] + (xs[1..][..k] + xs[1..][k + 1..]) == xs[..k + 1] + xs[k + 2..]
  {
    assert xs[1..][k + 1..] == xs[k + 2..];
  }

  /** The list `add_recent_video(p)` saves: `p` on top, its first earlier occurrence
      removed, cut to 50 entries. */
  function MovedToTop(paths: seq<string>, p: string): (r: seq<string>)
    ensures 1 <= |r| <= MaxRecent && r[0] == p
  {
    TakePrefix([p] + RemoveFirst(paths, p), MaxRecent)
  }

  /** `p` is on top, the others follow in their earlier order without the first `p`, and the
      list holds at most 50 entries. */
  lemma MovedToTopLaw(paths: seq<string>, p: string)
    ensures var r := MovedToTop(paths, p);
      && |r| >= 1 && r[0] == p
      && |r| <= MaxRecent
      && r[1..] == RemoveFirst(paths, p)[..|r| - 1]
      && |r| == (var n := if p in paths then |paths| else |paths| + 1;
                 if n < MaxRecent then n else MaxRecent)
  {
    var rest := RemoveFirst(paths, p);
    assert |rest| == if p in paths then |paths| - 1 else |paths| by {
      if p in paths {
        var k := FirstIndex(paths, p).value;
        assert rest == paths[..k] + paths[k + 1..];
      }
    }
    var r := MovedToTop(paths, p);
    var full := [p] + rest;
    assert r == full[..|r|];
    assert full[1..] == rest;
    assert r[1..] == rest[..|r| - 1];
  }

  predicate Distinct(paths: seq<string>) {
    forall i, j :: 0 <= i < j < |paths| ==> paths[i] != paths[j]
  }

  /** A list without repeated paths stays without them. */
  lemma MovedToTopDistinct(paths: seq<string>, p: string)
    requires Distinct(paths)
    ensures Distinct(MovedToTop(paths, p))
  {
    var rest := RemoveFirst(paths, p);
    RemoveFirstDistinct(paths, p);
    var full := [p] + rest;
    ConsDistinct(p, rest);
    var r := MovedToTop(paths, p);
    assert r == full[..|r|];
    PrefixDistinct(full, |r|);
  }

  lemma ConsDistinct(p: string, rest: seq<string>)
    requires p !in rest && Distinct(rest)
    ensures Distinct([p] + rest)
  {
    var full := [p] + rest;
    forall i, j | 0 <= i < j < |full| ensures full[i] != full[j] {
      assert full[j] == rest[j - 1];
      if i > 0 { assert full[i] == rest[i - 1]; }
    }
  }

  /** Removing the first `p` from a list without repeats leaves no `p` and no repeats. */
  lemma RemoveFirstDistinct(paths: seq<string>, p: string)
    requires Distinct(paths)
    ensures p !in RemoveFirst(paths, p) && Distinct(RemoveFirst(paths, p))
  {
    var rest := RemoveFirst(paths, p);
    match FirstIndex(paths, p)
    case None =>
    case Some(k) =>
      assert rest == paths[..k] + paths[k + 1..];
      forall i | 0 <= i < |rest| ensures rest[i] == paths[if i < k then i else i + 1] {
      }
      forall j | 0 <= j < |rest| ensures rest[j] != p {
        assert paths[k] == p;
      }
      forall i, j | 0 <= i < j < |rest| ensures rest[i] != rest[j] {
        var i' := if i < k then i else i + 1;
        var j' := if j < k then j else j + 1;
        assert rest[i] == paths[i'] && rest[j] == paths[j'];
      }
  }

  lemma PrefixDistinct(s: seq<string>, n: nat)
    requires Distinct(s) && n <= |s|
    ensures Distinct(s[..n])
  {
  }

  /** The list after `browse_file` adds `selected`: `add_recent_video` for each path, the last
      selected first. */
  function BrowseAdded(paths: seq<string>, selected: seq<string>): (r: seq<string>)
    ensures selected == [] ==> r == paths
    ensures selected != [] ==> 1 <= |r| <= MaxRecent && r[0] == selected[0]
    decreases |selected|
  {
    if selected == [] then paths else MovedToTop(BrowseAdded(paths, selected[1..]), selected[0])
  }

  /** Removing the first `p` keeps a prefix in which `p` does not occur. */
  lemma RemoveFirstKeepsPrefix(paths: seq<string>, p: string, k: nat)
    requires k <= |paths| && p !in paths[..k]
    ensures |RemoveFirst(paths, p)| >= k && RemoveFirst(paths, p)[..k] == paths[..k]
  {
    match FirstIndex(paths, p)
    case None =>
    case Some(j) =>
      var r := paths[..j] + paths[j + 1..];
      assert r[..k] == paths[..j][..k];
  }

  /** Selecting several distinct files (at most 50) puts them on top of the list in the
      order they were selected, the first selected first. */
  lemma {:induction false} BrowseKeepsSelectionOrder(paths: seq<string>, selected: seq<string>)
    requires Distinct(selected) && |selected| <= MaxRecent
    ensures |BrowseAdded(paths, selected)| >= |selected|
    ensures BrowseAdded(paths, selected)[..|selected|] == selected
    decreases |selected|
  {
    if selected != [] {
      var tail := selected[1..];
      var p := selected[0];
      var before := BrowseAdded(paths, tail);
      HeadNotInTail(selected);
      BrowseKeepsSelectionOrder(paths, tail);
      assert before[..|tail|] == tail;
      OnTopKeepsPrefix(before, p, tail);
    }
  }

  /** The head of a list without repeats is not in its tail, which has none either. */
  lemma HeadNotInTail(s: seq<string>)
    requires Distinct(s) && s != []
    ensures s[0] !in s[1..] && Distinct(s[1..])
  {
    var tail := s[1..];
    forall i | 0 <= i < |tail| ensures tail[i] == s[i + 1] && tail[i] != s[0] {
    }
    forall i, j | 0 <= i < j < |tail| ensures tail[i] != tail[j] {
      assert tail[i] == s[i + 1] && tail[j] == s[j + 1];
    }
  }

  /** Moving `p` to the top of a list that starts with `t` (which lacks `p`) starts the
      list with `p` and then `t`, as long as both fit in 50 entries. */
  lemma OnTopKeepsPrefix(before: seq<string>, p: string, t: seq<string>)
    requires |t| <= |before| && before[..|t|] == t && p !in t && |t| < MaxRecent
    ensures |MovedToTop(before, p)| >= |t| + 1
    ensures MovedToTop(before, p)[..|t| + 1] == [p] + t
  {
    RemoveFirstKeepsPrefix(before, p, |t|);
    MovedToTopLaw(before, p);
    var r := MovedToTop(before, p);
    var rest := RemoveFirst(before, p);
    assert |r| >= |t| + 1;
    assert r[1..][..|t|] == rest[..|t|];
    assert r[..|t| + 1] == [r[0]] + r[1..][..|t|];
  }

  // ---------------------------------------------------------------------------
  // The settings dialog

  datatype Engine = Qt | Mpv | Vlc

  /** The `player_engine` value `save_settings` writes for a checked radio button. */
  function EngineName(e: Engine): (n: string)
    ensures n == "mpv" <==> e == Mpv
    ensures n == "vlc" <==> e == Vlc
    ensures n == "qt" <==> e == Qt
  {
    match e
    case Mpv => "mpv"
    case Vlc => "vlc"
    case Qt => "qt"
  }

  /** The radio button checked when the dialog opens on the stored engine; anything but
      "mpv" and "vlc" checks QtMultimedia. */
  function InitialRadio(loaded: string): (e: Engine)
    ensures (loaded == "mpv" || loaded == "vlc" || loaded == "qt") <==> EngineName(e) == loaded
  {
    if loaded == "mpv" then Mpv else if loaded == "vlc" then Vlc else Qt
  }

  /** What `save_settings` hands to `on_engine_change`, if anything. */
  function Notification(current: string, chosen: Engine, hasCallback: bool): (n: Option<string>)
    ensures n.Some? <==> hasCallback && EngineName(chosen) != current
    ensures n.Some? ==> n.value == EngineName(chosen)
  {
    var newEngine := EngineName(chosen);
    if newEngine != current && hasCallback then Some(newEngine) else None
  }

  /** Saving without touching the radios announces a change exactly when the stored value
      is none of the three engine names. */
  lemma UntouchedDialogNotifies(loaded: string)
    ensures Notification(loaded, InitialRadio(loaded), true).Some?
            <==> !(loaded == "mpv" || loaded == "vlc" || loaded == "qt")
  {
  }

  class SettingsDialog {
    /** `load_setting("player_engine", "qt")` when the dialog opened. */
    const currentEngine: string
    const hasCallback: bool
    /** The checked radio button (they are mutually exclusive). */
    var radio: Engine
    var saving: bool
    /** The `player_engine` setting as the dialog last wrote it. */
    var savedEngine: Option<string>
    /** The arguments of the `on_engine_change` calls. */
    var notified: seq<string>
    var accepted: bool

    constructor(loaded: string, hasCallback: bool)
      ensures currentEngine == loaded && this.hasCallback == hasCallback
      ensures radio == InitialRadio(loaded)
      ensures !saving && savedEngine.None? && notified == [] && !accepted
    {
      currentEngine := loaded;
      this.hasCallback := hasCallback;
      if loaded == "mpv" {
        radio := Mpv;
      } else if loaded == "vlc" {
        radio := Vlc;
      } else {
        radio := Qt;
      }
      saving := false;
      savedEngine := None;
      notified := [];
      accepted := false;
    }

    /** The user checks a radio button. */
    method Check(e: Engine)
      modifies this
      ensures radio == e
      ensures saving == old(saving) && savedEngine == old(savedEngine)
      ensures notified == old(notified) && accepted == old(accepted)
    {
      radio := e;
    }

    /** `save_settings`: only the first call does anything, since `_saving` is never
        cleared. */
    method SaveSettings()
      modifies this
      ensures radio == old(radio)
      ensures old(saving) ==> saving && savedEngine == old(savedEngine)
                              && notified == old(notified) && accepted == old(accepted)
      ensures !old(saving) ==>
        && saving && accepted
        && savedEngine == Some(EngineName(radio))
        && notified == old(notified) + match Notification(currentEngine, radio, hasCallback)
                                        case None => []
                                        case Some(n) => [n]
    {
      if saving {
        return;
      }
      saving := true;
      var newEngine := "qt";
      if radio == Mpv {
        newEngine := "mpv";
      } else if radio == Vlc {
        newEngine := "vlc";
      }
      savedEngine := Some(newEngine);
      if newEngine != currentEngine && hasCallback {
        notified := notified + [newEngine];
      }
      accepted := true;
    }
  }

  // ---------------------------------------------------------------------------
  // Opening the stored list

  /** The method the screen calls on its persistence object to read the recent list, and
      the one it calls to write it back. */
  const GetRecent := "get_recent_videos"
  const SaveRecent := "save_recent_videos"

  /** The first thing the screen's constructor asks of its persistence object, as written:
      `get_recent_videos()` on an object of class `className` that offers `methods`. An object
      without that method raises `AttributeError`; one with it hands back the stored list. */
  function OpenRecentList(className: string, methods: set<string>, stored: seq<string>)
    : (r: Result<seq<string>>)
    ensures r.Ok? <==> GetRecent in methods
    ensures r.Ok? ==> r.value == stored
    ensures r.Raised? ==> r.message == "'" + className
                                       + "' object has no attribute '" + GetRecent + "'"
  {
    if GetRecent in methods then Ok(stored)
    else Raised("'" + className + "' object has no attribute '" + GetRecent + "'")
  }

  /** The persistence object the program hands to the screen is a `JsonPersistenceAdapter`,
      which has neither recent-list method: as written, building the screen raises before
      any row is shown, whatever the file holds. */
  lemma ProgramStoreCannotOpenHome(stored: seq<string>)
    ensures GetRecent !in JsonAdapter.Methods && SaveRecent !in JsonAdapter.Methods
    ensures OpenRecentList("JsonPersistenceAdapter", JsonAdapter.Methods, stored).Raised?
  {
  }

  // ---------------------------------------------------------------------------
  // The screen

  class Home {
    /** The paths held by the list rows, top to bottom. */
    var rows: seq<string>
    /** The recent list as the storage holds it. */
    var saved: seq<string>
    /** Whether the right-hand container with the list is shown. */
    var visible: bool
    /** The `video_selected` and `files_selected` emissions. */
    var videoSelected: seq<string>
    var filesSelected: seq<seq<string>>

    /** The list shows what the storage holds and is shown only when non-empty. */
    predicate Valid()
      reads this
    {
      rows == saved && visible == (|rows| > 0)
    }

    constructor(stored: seq<string>)
      ensures Valid() && rows == stored
      ensures videoSelected == [] && filesSelected == []
    {
      rows := stored;
      saved := stored;
      visible := |stored| > 0;
      videoSelected := [];
      filesSelected := [];
    }

    /** `load_recent_videos`: clear the list and add a row per stored path. */
    method LoadRecentVideos()
      modifies this
      ensures Valid() && rows == old(saved) && saved == old(saved)
      ensures videoSelected == old(videoSelected) && filesSelected == old(filesSelected)
    {
      rows := [];
      var i := 0;
      while i < |saved|
        invariant 0 <= i <= |saved|
        invariant rows == saved[..i] && saved == old(saved)
        invariant videoSelected == old(videoSelected) && filesSelected == old(filesSelected)
      {
        rows := rows + [saved[i]];
        i := i + 1;
      }
      assert saved[..i] == saved;
      visible := |rows| > 0;
    }

    /** `get_current_list_paths`. */
    method CurrentListPaths() returns (paths: seq<string>)
      ensures paths == rows
    {
      paths := [];
      var i := 0;
      while i < |rows|
        invariant 0 <= i <= |rows| && paths == rows[..i]
      {
        paths := paths + [rows[i]];
        i := i + 1;
      }
      assert rows[..i] == rows;
    }

    /** `add_recent_video(path)`: move to top, cap at 50, save and reload. */
    method AddRecentVideo(path: string)
      modifies this
      ensures Valid() && saved == MovedToTop(old(rows), path)
      ensures videoSelected == old(videoSelected) && filesSelected == old(filesSelected)
    {
      var videos := CurrentListPaths();
      if path in videos {
        videos := RemoveFirst(videos, path);
      }
      videos := [path] + videos;
      if |videos| > MaxRecent {
        videos := videos[..MaxRecent];
      }
      saved := videos;
      LoadRecentVideos();
    }

    /** `save_recent_order`, also run after the user drags rows into a new order. */
    method SaveRecentOrder()
      modifies this
      ensures saved == rows && rows == old(rows) && visible == old(visible)
      ensures videoSelected == old(videoSelected) && filesSelected == old(filesSelected)
    {
      saved := CurrentListPaths();
    }

    /** The user drags rows into `order`, a rearrangement of the rows; the new order is
        saved. */
    method OnRowsMoved(order: seq<string>)
      requires Valid() && multiset(order) == multiset(rows)
      modifies this
      ensures Valid() && rows == order
      ensures videoSelected == old(videoSelected) && filesSelected == old(filesSelected)
    {
      rows := order;
      SaveRecentOrder();
    }

    /** `remove_recent_video`: take the row out (nothing when the row does not exist), save
        what remains, update the visibility. */
    method RemoveRecentVideo(row: int)
      modifies this
      ensures Valid()
      ensures rows == if 0 <= row < |old(rows)| then old(rows)[..row] + old(rows)[row + 1..] else old(rows)
      ensures videoSelected == old(videoSelected) && filesSelected == old(filesSelected)
    {
      if 0 <= row < |rows| {
        rows := rows[..row] + rows[row + 1..];
      }
      SaveRecentOrder();
      visible := |rows| > 0;
    }

    /** `clear_all_recent`. */
    method ClearAllRecent()
      modifies this
      ensures Valid() && rows == [] && !visible
      ensures videoSelected == old(videoSelected) && filesSelected == old(filesSelected)
    {
      rows := [];
      saved := [];
      visible := false;
    }

    /** `on_item_clicked` on the row `row`: the path moves to the top and is announced. */
    method OnItemClicked(row: nat)
      requires row < |rows|
      modifies this
      ensures Valid() && saved == MovedToTop(old(rows), old(rows)[row])
      ensures videoSelected == old(videoSelected) + [old(rows)[row]]
      ensures filesSelected == old(filesSelected)
    {
      var path := rows[row];
      AddRecentVideo(path);
      videoSelected := videoSelected + [path];
    }

    /** `browse_file` with the paths the file dialog returned (none when it was cancelled). */
    method BrowseFile(selected: seq<string>)
      modifies this
      ensures selected == [] ==> rows == old(rows) && saved == old(saved) && visible == old(visible)
                                 && filesSelected == old(filesSelected)
      ensures selected != [] ==> Valid() && rows == BrowseAdded(old(rows), selected)
                                 && filesSelected == old(filesSelected) + [selected]
      ensures videoSelected == old(videoSelected)
    {
      if selected == [] {
        return;
      }
      var i := |selected|;
      while i > 0
        invariant 0 <= i <= |selected|
        invariant i < |selected| ==> Valid()
        invariant rows == BrowseAdded(old(rows), selected[i..])
        invariant videoSelected == old(videoSelected) && filesSelected == old(filesSelected)
      {
        assert selected[i - 1..][1..] == selected[i..];
        AddRecentVideo(selected[i - 1]);
        i := i - 1;
      }
      assert selected[0..] == selected;
      filesSelected := filesSelected + [selected];
    }
  }
}
