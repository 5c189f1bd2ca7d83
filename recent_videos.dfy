/**
 * The most-recently-played list of Telegram videos: entries keyed by (message id, chat
 * id), new keys at the front, capped at 50. The encrypted storage is read once, when the
 * manager is built, and `stored` holds what was last written back.
 */
module RecentVideos {
  import opened Options
  import opened PyStr
  import opened StableSort

  datatype TelegramVideo = TelegramVideo(
    messageId: int, chatId: int, chatTitle: string, fileId: string, title: string,
    duration: int, fileSize: int, thumbnailPath: Option<string>,
    progressPercent: real, progressPosition: int, lastPlayed: real)

  const MaxEntries := 50

  function LastPlayed(v: TelegramVideo): real { v.lastPlayed }

  predicate HasKey(v: TelegramVideo, messageId: int, chatId: int) {
    v.messageId == messageId && v.chatId == chatId
  }

  predicate UniqueKeys(videos: seq<TelegramVideo>) {
    forall i, j :: 0 <= i < j < |videos| ==>
      !HasKey(videos[i], videos[j].messageId, videos[j].chatId)
  }

  /** The index of the first entry with the key. */
  function FindIndex(videos: seq<TelegramVideo>, messageId: int, chatId: int): (r: Option<nat>)
    ensures r.Some? ==> r.value < |videos| && HasKey(videos[r.value], messageId, chatId)
    ensures r.Some? ==> forall j :: 0 <= j < r.value ==> !HasKey(videos[j], messageId, chatId)
    ensures r.None? <==> forall j :: 0 <= j < |videos| ==> !HasKey(videos[j], messageId, chatId)
    decreases |videos|
  {
    if videos == [] then None
    else if HasKey(videos[0], messageId, chatId) then Some(0)
    else match FindIndex(videos[1..], messageId, chatId)
      case None => None
      case Some(i) =>
        assert forall j :: 1 <= j < |videos| ==> videos[j] == videos[1..][j - 1];
        Some(i + 1)
  }

  /** The list after `add_or_update(video)` at time `now`. */
  function AddedOrUpdated(videos: seq<TelegramVideo>, video: TelegramVideo, now: real): (r: seq<TelegramVideo>)
    ensures FindIndex(r, video.messageId, video.chatId).Some?
    ensures |r| <= |videos| + 1
  {
    var v := video.(lastPlayed := now);
    match FindIndex(videos, video.messageId, video.chatId)
    case Some(i) =>
      var r := videos[i := v];
      assert HasKey(r[i], video.messageId, video.chatId);
      r
    case None =>
      var r := TakePrefix([v] + videos, MaxEntries);
      assert HasKey(r[0], video.messageId, video.chatId);
      r
  }

  /** An existing key is replaced in place: same length, same order, only that index changes. */
  lemma AddExistingReplaces(videos: seq<TelegramVideo>, video: TelegramVideo, now: real)
    requires FindIndex(videos, video.messageId, video.chatId).Some?
    ensures var i := FindIndex(videos, video.messageId, video.chatId).value;
      var r := AddedOrUpdated(videos, video, now);
      && |r| == |videos| && r[i] == video.(lastPlayed := now)
      && forall j :: 0 <= j < |videos| && j != i ==> r[j] == videos[j]
  {
  }

  /** A new key goes to the front and the list is cut to its first 50 entries. */
  lemma AddNewAtFront(videos: seq<TelegramVideo>, video: TelegramVideo, now: real)
    requires FindIndex(videos, video.messageId, video.chatId).None?
    ensures var r := AddedOrUpdated(videos, video, now);
      && r[0] == video.(lastPlayed := now)
      && |r| == (if |videos| + 1 < MaxEntries then |videos| + 1 else MaxEntries)
      && r[1..] == videos[..|r| - 1]
  {
    var r := AddedOrUpdated(videos, video, now);
    assert r == ([video.(lastPlayed := now)] + videos)[..|r|];
  }

  /** The list never grows past 50 entries once it is within them. */
  lemma AddKeepsCap(videos: seq<TelegramVideo>, video: TelegramVideo, now: real)
    requires |videos| <= MaxEntries
    ensures |AddedOrUpdated(videos, video, now)| <= MaxEntries
  {
  }

  /** Keys stay unique. */
  lemma AddKeepsKeysUnique(videos: seq<TelegramVideo>, video: TelegramVideo, now: real)
    requires UniqueKeys(videos)
    ensures UniqueKeys(AddedOrUpdated(videos, video, now))
  {
    var v := video.(lastPlayed := now);
    var r := AddedOrUpdated(videos, video, now);
    match FindIndex(videos, video.messageId, video.chatId)
    case Some(i) =>
      forall a, b | 0 <= a < b < |r| ensures !HasKey(r[a], r[b].messageId, r[b].chatId) {
        if a == i {
          assert HasKey(videos[i], r[a].messageId, r[a].chatId);
        } else if b == i {
          assert HasKey(videos[i], r[b].messageId, r[b].chatId);
        }
      }
    case None =>
      var full := [v] + videos;
      forall a, b | 0 <= a < b < |full| ensures !HasKey(full[a], full[b].messageId, full[b].chatId) {
        if a > 0 {
          assert full[a] == videos[a - 1] && full[b] == videos[b - 1];
        } else {
          assert full[b] == videos[b - 1];
        }
      }
      assert r == full[..|r|];
  }

  /** The list after `update_progress`: the first entry with the key gets the progress and
      `now` as its play time. */
  function ProgressUpdated(videos: seq<TelegramVideo>, messageId: int, chatId: int,
                           percent: real, position: int, now: real): (r: seq<TelegramVideo>)
    ensures |r| == |videos| && FindIndex(r, messageId, chatId) == FindIndex(videos, messageId, chatId)
    ensures FindIndex(videos, messageId, chatId).None? ==> r == videos
  {
    match FindIndex(videos, messageId, chatId)
    case Some(i) =>
      var r := videos[i := videos[i].(progressPercent := percent, progressPosition := position, lastPlayed := now)];
      assert HasKey(r[i], messageId, chatId);
      assert forall j :: 0 <= j < i ==> r[j] == videos[j];
      r
    case None => videos
  }

  /** Only the first match changes, and only in the three progress fields. */
  lemma ProgressUpdateLaw(videos: seq<TelegramVideo>, messageId: int, chatId: int,
                          percent: real, position: int, now: real)
    ensures var r := ProgressUpdated(videos, messageId, chatId, percent, position, now);
      && |r| == |videos|
      && (FindIndex(videos, messageId, chatId).None? ==> r == videos)
      && (FindIndex(videos, messageId, chatId).Some? ==>
            var i := FindIndex(videos, messageId, chatId).value;
            && r[i].progressPercent == percent && r[i].progressPosition == position && r[i].lastPlayed == now
            && r[i] == videos[i].(progressPercent := percent, progressPosition := position, lastPlayed := now)
            && forall j :: 0 <= j < |videos| && j != i ==> r[j] == videos[j])
  {
  }

  /** The entries without the key, in their order. */
  function WithoutKey(videos: seq<TelegramVideo>, messageId: int, chatId: int): (r: seq<TelegramVideo>)
    ensures |r| <= |videos|
    ensures forall j :: 0 <= j < |r| ==> !HasKey(r[j], messageId, chatId)
    ensures forall v :: v in r <==> v in videos && !HasKey(v, messageId, chatId)
    decreases |videos|
  {
    if videos == [] then []
    else (if HasKey(videos[0], messageId, chatId) then [] else [videos[0]]) + WithoutKey(videos[1..], messageId, chatId)
  }

  /** Removing shortens the list exactly when some entry had the key. */
  lemma {:induction false} WithoutKeyShorter(videos: seq<TelegramVideo>, messageId: int, chatId: int)
    ensures |WithoutKey(videos, messageId, chatId)| < |videos| <==> FindIndex(videos, messageId, chatId).Some?
    decreases |videos|
  {
    if videos != [] {
      WithoutKeyShorter(videos[1..], messageId, chatId);
    }
  }

  /** `get_recent(limit)`: by play time, most recent first (ties keep their order), then
      `[:limit]`. */
  function Recent(videos: seq<TelegramVideo>, limit: int): (r: seq<TelegramVideo>)
    ensures |r| <= |videos| && (limit >= 0 ==> |r| <= limit)
  {
    TakePrefix(SortDesc(videos, LastPlayed), limit)
  }

  lemma RecentLaw(videos: seq<TelegramVideo>, limit: int)
    ensures var r := Recent(videos, limit);
      && (limit >= 0 ==> |r| <= limit)
      && |r| <= |videos|
      && SortedDesc(r, LastPlayed)
      && (forall v :: v in r ==> v in videos)
  {
    var s := SortDesc(videos, LastPlayed);
    SortDescSorted(videos, LastPlayed);
    var r := Recent(videos, limit);
    assert r == s[..|r|];
    forall v | v in r ensures v in videos {
      assert v in multiset(s);
    }
  }

  class Manager {
    var videos: seq<TelegramVideo>
    /** What the last `_save` wrote. */
    var stored: seq<TelegramVideo>

    /** `loaded`: the stored `videos` list, or None when there is none. */
    constructor(loaded: Option<seq<TelegramVideo>>)
      ensures videos == loaded.GetOr([]) && stored == videos
    {
      videos := loaded.GetOr([]);
      stored := videos;
    }

    method GetRecent(limit: int) returns (r: seq<TelegramVideo>)
      ensures r == Recent(videos, limit)
    {
      r := TakePrefix(SortDesc(videos, LastPlayed), limit);
    }

    /** The `for` loop looking for the key; `break` at the first match. */
    method FindExisting(messageId: int, chatId: int) returns (r: Option<nat>)
      ensures r == FindIndex(videos, messageId, chatId)
    {
      var i := 0;
      while i < |videos|
        invariant 0 <= i <= |videos|
        invariant forall j :: 0 <= j < i ==> !HasKey(videos[j], messageId, chatId)
      {
        if HasKey(videos[i], messageId, chatId) {
          return Some(i);
        }
        i := i + 1;
      }
      return None;
    }

    method AddOrUpdate(video: TelegramVideo, now: real)
      modifies this
      ensures videos == AddedOrUpdated(old(videos), video, now) && stored == videos
    {
      var existing := FindExisting(video.messageId, video.chatId);
      var v := video.(lastPlayed := now);
      if existing.Some? {
        videos := videos[existing.value := v];
      } else {
        var grown := [v] + videos;
        if |grown| > MaxEntries {
          grown := grown[..MaxEntries];
        }
        videos := grown;
      }
      stored := videos;
    }

    method UpdateProgress(messageId: int, chatId: int, percent: real, position: int, now: real)
      modifies this
      ensures videos == ProgressUpdated(old(videos), messageId, chatId, percent, position, now)
      ensures stored == if FindIndex(old(videos), messageId, chatId).Some? then videos else old(stored)
    {
      var i := 0;
      while i < |videos|
        invariant 0 <= i <= |videos|
        invariant forall j :: 0 <= j < i ==> !HasKey(videos[j], messageId, chatId)
        invariant videos == old(videos) && stored == old(stored)
      {
        if HasKey(videos[i], messageId, chatId) {
          videos := videos[i := videos[i].(progressPercent := percent, progressPosition := position, lastPlayed := now)];
          stored := videos;
          return;
        }
        i := i + 1;
      }
    }

    /** `get_progress`: the first match's position in milliseconds, or None. */
    method GetProgress(messageId: int, chatId: int) returns (r: Option<int>)
      ensures r.None? <==> forall j :: 0 <= j < |videos| ==> !HasKey(videos[j], messageId, chatId)
      ensures r.Some? ==> FindIndex(videos, messageId, chatId).Some?
                          && r.value == videos[FindIndex(videos, messageId, chatId).value].progressPosition
    {
      var i := 0;
      while i < |videos|
        invariant 0 <= i <= |videos|
        invariant forall j :: 0 <= j < i ==> !HasKey(videos[j], messageId, chatId)
      {
        if HasKey(videos[i], messageId, chatId) {
          return Some(videos[i].progressPosition);
        }
        i := i + 1;
      }
      return None;
    }

    method Remove(messageId: int, chatId: int) returns (removed: bool)
      modifies this
      ensures videos == WithoutKey(old(videos), messageId, chatId)
      ensures removed <==> |videos| < |old(videos)|
      ensures removed <==> FindIndex(old(videos), messageId, chatId).Some?
      ensures stored == if removed then videos else old(stored)
    {
      var before := |videos|;
      WithoutKeyShorter(videos, messageId, chatId);
      videos := WithoutKey(videos, messageId, chatId);
      removed := |videos| < before;
      if removed {
        stored := videos;
      }
    }

    method ClearAll()
      modifies this
      ensures videos == [] && stored == []
    {
      videos := [];
      stored := videos;
    }
  }
}
