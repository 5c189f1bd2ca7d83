/**
 * The Telegram home screen: favourite channels on one side, the 20 most recently played
 * videos on the other. Each recent row shows a shortened title, an `m:ss` duration with
 * the chat's name, and a whole-percent progress figure once playback has started.
 */
module TelegramMainScreen {
  import opened Options
  import opened PyStr
  import opened StableSort
  import RecentVideos
  import FavoritesManager

  const TitleLimit := 35
  const TitleKept := 32
  const RecentShown := 20

  /** The title shown in a recent row. */
  function ShortTitle(title: string): (t: string)
    ensures |t| <= TitleLimit
    ensures |title| <= TitleLimit ==> t == title
    ensures |title| > TitleLimit ==> |t| == TitleLimit && t == title[..TitleKept] + "..."
  {
    if |title| <= TitleLimit then title else title[..TitleKept] + "..."
  }

  /** `f"{duration // 60}:{duration % 60:02d}"`; Python's `//` and `%` by a positive
      divisor agree with Dafny's. */
  function DurationText(duration: int): (t: string)
    ensures |t| >= 4 && t[|t| - 3] == ':' && IsDigit(t[|t| - 2]) && IsDigit(t[|t| - 1])
  {
    IntToString(duration / 60) + ":" + Pad2(duration % 60)
  }

  /** The duration text reads back: the minutes in decimal, a colon and two digits of
      seconds, which together make up the whole duration. */
  lemma DurationTextReadsBack(duration: int)
    ensures var t := DurationText(duration);
      var k := |IntToString(duration / 60)|;
      && |t| == k + 3
      && ParseInt(t[..k], 10) == Some(duration / 60)
      && t[k] == ':'
      && IsDigit(t[k + 1]) && IsDigit(t[k + 2])
      && DigitsOrUnderscores(t[k + 1..], 10)
      && (duration / 60) * 60 + GroupValue(t[k + 1..], 10) == duration
  {
    var m := IntToString(duration / 60);
    var s := Pad2(duration % 60);
    var t := DurationText(duration);
    var k := |m|;
    assert t == m + (":" + s);
    assert t[..k] == m;
    assert t[k + 1..] == s;
    assert s[0] == t[k + 1] && s[1] == t[k + 2];
    ParseIntOfIntToString(duration / 60);
  }

  /** `f"{duration // 60}:{duration % 60:02d} • {chat_title}"`. */
  function MetaText(duration: int, chatTitle: string): (t: string)
    ensures |t| == |DurationText(duration)| + 3 + |chatTitle|
    ensures t[|t| - |chatTitle|..] == chatTitle
  {
    DurationText(duration) + " • " + chatTitle
  }

  /** The meta text reads back: the duration text, then the chat's name after the bullet. */
  lemma MetaTextReadsBack(duration: int, chatTitle: string)
    ensures var t := MetaText(duration, chatTitle);
      var k := |DurationText(duration)|;
      && |t| == k + 3 + |chatTitle|
      && t[..k] == DurationText(duration)
      && t[k..] == " • " + chatTitle
  {
    var t := MetaText(duration, chatTitle);
    var d := DurationText(duration);
    assert t == d + (" • " + chatTitle);
  }

  /** The progress label, `f"{int(progress_percent)}%"`, present only for a positive
      percentage. */
  function ProgressText(percent: real): (r: Option<string>)
    ensures r.Some? <==> percent > 0.0
  {
    if percent > 0.0 then Some(IntToString(percent.Floor) + "%") else None
  }

  /** The label holds the whole part of the percentage: `int()` truncates, which for a
      positive number is the floor. */
  lemma ProgressTextReadsBack(percent: real)
    requires percent > 0.0
    ensures var t := ProgressText(percent).value;
      && |t| >= 2 && t[|t| - 1] == '%'
      && ParseInt(t[..|t| - 1], 10).Some?
      && var n := ParseInt(t[..|t| - 1], 10).value;
         0 <= n && n as real <= percent < n as real + 1.0
  {
    var t := ProgressText(percent).value;
    assert t[..|t| - 1] == IntToString(percent.Floor);
    ParseIntOfIntToString(percent.Floor);
  }

  /** A row of the recent list: the placeholder, or a video with what its widget shows. */
  datatype RecentRow =
    | Placeholder
    | VideoRow(messageId: int, chatId: int, title: string, meta: string, progress: Option<string>)

  /** The row a recent video gets. */
  function Row(v: RecentVideos.TelegramVideo): (r: RecentRow)
    ensures r.VideoRow? && r.messageId == v.messageId && r.chatId == v.chatId
    ensures |r.title| <= TitleLimit && (r.progress.Some? <==> v.progressPercent > 0.0)
  {
    VideoRow(v.messageId, v.chatId, ShortTitle(v.title), MetaText(v.duration, v.chatTitle),
             ProgressText(v.progressPercent))
  }

  /** The rows `_refresh_recent_videos` builds. */
  function RecentRows(videos: seq<RecentVideos.TelegramVideo>): (rows: seq<RecentRow>)
    ensures 1 <= |rows| <= RecentShown
    ensures videos == [] ==> rows == [Placeholder]
  {
    var r := RecentVideos.Recent(videos, RecentShown);
    if r == [] then [Placeholder] else seq(|r|, i requires 0 <= i < |r| => Row(r[i]))
  }

  /** At most 20 rows; only the placeholder when there is no recent video; otherwise one row
      per recent video, most recently played first. */
  lemma RecentRowsLaw(videos: seq<RecentVideos.TelegramVideo>)
    ensures var rows := RecentRows(videos);
      && 1 <= |rows| <= RecentShown
      && (rows == [Placeholder] <==> videos == [])
      && (videos != [] ==>
            var r := RecentVideos.Recent(videos, RecentShown);
            && |rows| == (if |videos| < RecentShown then |videos| else RecentShown)
            && SortedDesc(r, RecentVideos.LastPlayed)
            && forall i :: 0 <= i < |rows| ==> rows[i] == Row(r[i]) && r[i] in videos)
  {
    RecentVideos.RecentLaw(videos, RecentShown);
    var r := RecentVideos.Recent(videos, RecentShown);
    assert |r| == (if |videos| < RecentShown then |videos| else RecentShown);
    if videos != [] {
      var rows := RecentRows(videos);
      assert rows[0] == Row(r[0]);
    }
  }

  /** What the favourites column shows: a hint when there are none, otherwise a card per
      channel. */
  datatype FavoriteRows = NoFavorites | Cards(channels: seq<FavoritesManager.FavoriteChannel>)

  /** The loop of `_refresh_recent_videos` adding a row per video. */
  method BuildRows(videos: seq<RecentVideos.TelegramVideo>) returns (rows: seq<RecentRow>)
    ensures rows == seq(|videos|, j requires 0 <= j < |videos| => Row(videos[j]))
  {
    ghost var all := seq(|videos|, j requires 0 <= j < |videos| => Row(videos[j]));
    rows := [];
    var i := 0;
    while i < |videos|
      invariant 0 <= i <= |videos| && rows == all[..i]
    {
      assert all[..i + 1] == all[..i] + [all[i]];
      rows := rows + [Row(videos[i])];
      i := i + 1;
    }
    assert all[..i] == all;
  }

  class MainScreen {
    const recent: RecentVideos.Manager
    const favorites: FavoritesManager.Manager
    var recentRows: seq<RecentRow>
    var favoriteRows: FavoriteRows
    /** The `channel_selected` and `video_selected` emissions. */
    var channelSelected: seq<int>
    var videoSelected: seq<(int, int)>

    constructor(recent: RecentVideos.Manager, favorites: FavoritesManager.Manager)
      ensures this.recent == recent && this.favorites == favorites
      ensures recentRows == [] && favoriteRows == NoFavorites
      ensures channelSelected == [] && videoSelected == []
    {
      this.recent := recent;
      this.favorites := favorites;
      recentRows := [];
      favoriteRows := NoFavorites;
      channelSelected := [];
      videoSelected := [];
    }

    /** `_refresh_recent_videos`: clear the list, then one row per recent video or the
        placeholder. */
    method RefreshRecentVideos()
      modifies this
      ensures recentRows == RecentRows(recent.videos)
      ensures favoriteRows == old(favoriteRows)
      ensures channelSelected == old(channelSelected) && videoSelected == old(videoSelected)
    {
      var videos := recent.GetRecent(RecentShown);
      if videos == [] {
        recentRows := [Placeholder];
      } else {
        recentRows := BuildRows(videos);
      }
    }

    /** `_refresh_favorites`. */
    method RefreshFavorites()
      modifies this
      ensures var f := SortDesc(favorites.favorites, FavoritesManager.LastAccessed);
        favoriteRows == if f == [] then NoFavorites else Cards(f)
      ensures recentRows == old(recentRows)
      ensures channelSelected == old(channelSelected) && videoSelected == old(videoSelected)
    {
      var f := favorites.GetFavorites();
      if f == [] {
        favoriteRows := NoFavorites;
      } else {
        var cards := [];
        var i := 0;
        while i < |f|
          invariant 0 <= i <= |f| && cards == f[..i]
          invariant recentRows == old(recentRows)
          invariant channelSelected == old(channelSelected) && videoSelected == old(videoSelected)
        {
          cards := cards + [f[i]];
          i := i + 1;
        }
        assert f[..i] == f;
        favoriteRows := Cards(cards);
      }
    }

    /** `refresh`: the favourites column, then the recent list. */
    method Refresh()
      modifies this
      ensures var f := SortDesc(favorites.favorites, FavoritesManager.LastAccessed);
        favoriteRows == if f == [] then NoFavorites else Cards(f)
      ensures recentRows == RecentRows(recent.videos)
      ensures channelSelected == old(channelSelected) && videoSelected == old(videoSelected)
    {
      RefreshFavorites();
      RefreshRecentVideos();
    }

    /** `_on_channel_clicked` at time `now`: the channel's access time is updated first, then
        the selection is announced. */
    method OnChannelClicked(chatId: int, now: real)
      modifies this, favorites
      ensures FavoritesManager.FindChat(old(favorites.favorites), chatId).Some? ==>
        var i := FavoritesManager.FindChat(old(favorites.favorites), chatId).value;
        && favorites.favorites == old(favorites.favorites)[i := old(favorites.favorites)[i].(lastAccessed := now)]
        && favorites.favorites[i].lastAccessed == now
      ensures FavoritesManager.FindChat(old(favorites.favorites), chatId).None? ==>
        favorites.favorites == old(favorites.favorites)
      ensures channelSelected == old(channelSelected) + [chatId]
      ensures recentRows == old(recentRows) && favoriteRows == old(favoriteRows)
      ensures videoSelected == old(videoSelected)
    {
      favorites.UpdateAccess(chatId, now);
      channelSelected := channelSelected + [chatId];
    }

    /** `_on_video_clicked`. */
    method OnVideoClicked(messageId: int, chatId: int)
      modifies this
      ensures videoSelected == old(videoSelected) + [(messageId, chatId)]
      ensures recentRows == old(recentRows) && favoriteRows == old(favoriteRows)
      ensures channelSelected == old(channelSelected)
    {
      videoSelected := videoSelected + [(messageId, chatId)];
    }

    /** `_on_recent_item_clicked`: a video row announces its key, the placeholder nothing. */
    method OnRecentItemClicked(row: nat)
      requires row < |recentRows|
      modifies this
      ensures recentRows == old(recentRows) && favoriteRows == old(favoriteRows)
      ensures recentRows[row].Placeholder? ==> videoSelected == old(videoSelected)
      ensures recentRows[row].VideoRow? ==>
        videoSelected == old(videoSelected) + [(recentRows[row].messageId, recentRows[row].chatId)]
      ensures channelSelected == old(channelSelected)
    {
      match recentRows[row]
      case Placeholder =>
      case VideoRow(m, c, _, _, _) =>
        videoSelected := videoSelected + [(m, c)];
    }

    /** `_on_remove_recent`: remove the video, then rebuild the list. */
    method OnRemoveRecent(messageId: int, chatId: int)
      modifies this, recent
      ensures recent.videos == RecentVideos.WithoutKey(old(recent.videos), messageId, chatId)
      ensures recentRows == RecentRows(recent.videos)
      ensures favoriteRows == old(favoriteRows)
      ensures channelSelected == old(channelSelected) && videoSelected == old(videoSelected)
    {
      var _ := recent.Remove(messageId, chatId);
      RefreshRecentVideos();
    }

    /** `_on_clear_recent`: after it only the placeholder is listed. */
    method OnClearRecent()
      modifies this, recent
      ensures recent.videos == [] && recentRows == [Placeholder]
      ensures favoriteRows == old(favoriteRows)
      ensures channelSelected == old(channelSelected) && videoSelected == old(videoSelected)
    {
      recent.ClearAll();
      RefreshRecentVideos();
    }

    /** `_on_remove_favorite`: remove the channel, then rebuild the favourites. */
    method OnRemoveFavorite(chatId: int)
      modifies this, favorites
      ensures favorites.favorites == FavoritesManager.WithoutChat(old(favorites.favorites), chatId)
      ensures var f := SortDesc(favorites.favorites, FavoritesManager.LastAccessed);
        favoriteRows == if f == [] then NoFavorites else Cards(f)
      ensures recentRows == old(recentRows)
      ensures channelSelected == old(channelSelected) && videoSelected == old(videoSelected)
    {
      var _ := favorites.RemoveFavorite(chatId);
      RefreshFavorites();
    }
  }
}
