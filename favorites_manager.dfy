/**
 * The favourite Telegram channels and groups: a list with at most one entry per chat id,
 * new favourites at the end, listed by last access. The encrypted storage is read once,
 * when the manager is built, and `stored` holds what was last written back.
 */
module FavoritesManager {
  import opened Options
  import opened StableSort

  datatype FavoriteChannel = FavoriteChannel(
    chatId: int, title: string, username: Option<string>, chatType: string,
    videoCount: int, thumbnailPath: Option<string>, addedAt: real, lastAccessed: real)

  function LastAccessed(f: FavoriteChannel): real { f.lastAccessed }

  predicate UniqueChats(favorites: seq<FavoriteChannel>) {
    forall i, j :: 0 <= i < j < |favorites| ==> favorites[i].chatId != favorites[j].chatId
  }

  predicate HasChat(favorites: seq<FavoriteChannel>, chatId: int) {
    exists j :: 0 <= j < |favorites| && favorites[j].chatId == chatId
  }

  /** The index of the first entry for the chat. */
  function FindChat(favorites: seq<FavoriteChannel>, chatId: int): (r: Option<nat>)
    ensures r.Some? ==> r.value < |favorites| && favorites[r.value].chatId == chatId
    ensures r.Some? ==> forall j :: 0 <= j < r.value ==> favorites[j].chatId != chatId
    ensures r.None? <==> !HasChat(favorites, chatId)
    decreases |favorites|
  {
    if favorites == [] then None
    else if favorites[0].chatId == chatId then Some(0)
    else match FindChat(favorites[1..], chatId)
      case None =>
        assert forall j :: 1 <= j < |favorites| ==> favorites[j] == favorites[1..][j - 1];
        None
      case Some(i) =>
        assert forall j :: 1 <= j < |favorites| ==> favorites[j] == favorites[1..][j - 1];
        Some(i + 1)
  }

  /** The channel as `add_favorite` stores it: zero time stamps become `now`. */
  function Stamped(channel: FavoriteChannel, now: real): (c: FavoriteChannel)
    ensures c.addedAt == (if channel.addedAt == 0.0 then now else channel.addedAt)
    ensures c.lastAccessed == (if channel.lastAccessed == 0.0 then now else channel.lastAccessed)
    ensures c.(addedAt := channel.addedAt, lastAccessed := channel.lastAccessed) == channel
  {
    var c := if channel.addedAt == 0.0 then channel.(addedAt := now) else channel;
    if c.lastAccessed == 0.0 then c.(lastAccessed := now) else c
  }

  /** The list after `add_favorite`, and its result. */
  function Added(favorites: seq<FavoriteChannel>, channel: FavoriteChannel, now: real): (r: (seq<FavoriteChannel>, bool))
    ensures HasChat(r.0, channel.chatId)
    ensures r.1 <==> |r.0| == |favorites| + 1
  {
    if HasChat(favorites, channel.chatId) then (favorites, false)
    else
      var r := favorites + [Stamped(channel, now)];
      assert r[|favorites|].chatId == channel.chatId;
      (r, true)
  }

  /** Adding keeps chat ids unique; a duplicate is refused with the list unchanged. */
  lemma AddKeepsChatsUnique(favorites: seq<FavoriteChannel>, channel: FavoriteChannel, now: real)
    requires UniqueChats(favorites)
    ensures UniqueChats(Added(favorites, channel, now).0)
    ensures Added(favorites, channel, now).1 <==> !HasChat(favorites, channel.chatId)
    ensures Added(favorites, channel, now).1 ==> Added(favorites, channel, now).0[|favorites|] == Stamped(channel, now)
    ensures !Added(favorites, channel, now).1 ==> Added(favorites, channel, now).0 == favorites
  {
    if !HasChat(favorites, channel.chatId) {
      var r := favorites + [Stamped(channel, now)];
      forall i, j | 0 <= i < j < |r| ensures r[i].chatId != r[j].chatId {
        if j == |favorites| {
          assert r[i] == favorites[i];
        }
      }
    }
  }

  /** The entries of other chats, in their order. */
  function WithoutChat(favorites: seq<FavoriteChannel>, chatId: int): (r: seq<FavoriteChannel>)
    ensures |r| <= |favorites|
    ensures !HasChat(r, chatId)
    ensures forall f :: f in r <==> f in favorites && f.chatId != chatId
    decreases |favorites|
  {
    if favorites == [] then []
    else (if favorites[0].chatId == chatId then [] else [favorites[0]]) + WithoutChat(favorites[1..], chatId)
  }

  lemma {:induction false} WithoutChatShorter(favorites: seq<FavoriteChannel>, chatId: int)
    ensures |WithoutChat(favorites, chatId)| < |favorites| <==> HasChat(favorites, chatId)
    decreases |favorites|
  {
    if favorites != [] {
      WithoutChatShorter(favorites[1..], chatId);
      if HasChat(favorites[1..], chatId) {
        var j :| 0 <= j < |favorites[1..]| && favorites[1..][j].chatId == chatId;
        assert favorites[j + 1].chatId == chatId;
      }
      if HasChat(favorites, chatId) && favorites[0].chatId != chatId {
        var j :| 0 <= j < |favorites| && favorites[j].chatId == chatId;
        assert favorites[1..][j - 1].chatId == chatId;
      }
    }
  }

  /** `get_favorites`: by last access, most recent first; channels accessed at the same time
      keep their order. A permutation of the list. */
  lemma FavoritesOrderLaw(favorites: seq<FavoriteChannel>, t: real)
    ensures SortedDesc(SortDesc(favorites, LastAccessed), LastAccessed)
    ensures multiset(SortDesc(favorites, LastAccessed)) == multiset(favorites)
    ensures WithKey(SortDesc(favorites, LastAccessed), LastAccessed, t) == WithKey(favorites, LastAccessed, t)
  {
    SortDescSorted(favorites, LastAccessed);
    SortDescStable(favorites, LastAccessed, t);
  }

  class Manager {
    var favorites: seq<FavoriteChannel>
    /** What the last `_save` wrote. */
    var stored: seq<FavoriteChannel>

    /** `loaded`: the stored `favorites` list, or None when there is none. */
    constructor(loaded: Option<seq<FavoriteChannel>>)
      ensures favorites == loaded.GetOr([]) && stored == favorites
    {
      favorites := loaded.GetOr([]);
      stored := favorites;
    }

    method GetFavorites() returns (r: seq<FavoriteChannel>)
      ensures r == SortDesc(favorites, LastAccessed)
    {
      r := SortDesc(favorites, LastAccessed);
    }

    /** `any(f.chat_id == chat_id for f in favorites)`. */
    method IsFavorite(chatId: int) returns (r: bool)
      ensures r <==> HasChat(favorites, chatId)
    {
      var i := 0;
      while i < |favorites|
        invariant 0 <= i <= |favorites|
        invariant forall j :: 0 <= j < i ==> favorites[j].chatId != chatId
      {
        if favorites[i].chatId == chatId {
          return true;
        }
        i := i + 1;
      }
      return false;
    }

    /** `get_favorite`: the first entry for the chat, or None. */
    method GetFavorite(chatId: int) returns (r: Option<FavoriteChannel>)
      ensures r.None? <==> !HasChat(favorites, chatId)
      ensures r.Some? ==> FindChat(favorites, chatId).Some? && r.value == favorites[FindChat(favorites, chatId).value]
    {
      var i := 0;
      while i < |favorites|
        invariant 0 <= i <= |favorites|
        invariant forall j :: 0 <= j < i ==> favorites[j].chatId != chatId
      {
        if favorites[i].chatId == chatId {
          return Some(favorites[i]);
        }
        i := i + 1;
      }
      return None;
    }

    method AddFavorite(channel: FavoriteChannel, now: real) returns (added: bool)
      modifies this
      ensures (favorites, added) == Added(old(favorites), channel, now)
      ensures stored == if added then favorites else old(stored)
    {
      var present := IsFavorite(channel.chatId);
      if present {
        return false;
      }
      var c := channel;
      if c.addedAt == 0.0 {
        c := c.(addedAt := now);
      }
      if c.lastAccessed == 0.0 {
        c := c.(lastAccessed := now);
      }
      favorites := favorites + [c];
      stored := favorites;
      return true;
    }

    method RemoveFavorite(chatId: int) returns (removed: bool)
      modifies this
      ensures favorites == WithoutChat(old(favorites), chatId)
      ensures removed <==> HasChat(old(favorites), chatId)
      ensures stored == if removed then favorites else old(stored)
    {
      var before := |favorites|;
      WithoutChatShorter(favorites, chatId);
      favorites := WithoutChat(favorites, chatId);
      removed := |favorites| < before;
      if removed {
        stored := favorites;
      }
    }

    /** The `for` loops of `update_access` and `update_video_count`: set one field of the
        first entry for the chat, save, stop. */
    method UpdateFirst(chatId: int, access: Option<real>, count: Option<int>)
      modifies this
      ensures FindChat(old(favorites), chatId).None? ==> favorites == old(favorites) && stored == old(stored)
      ensures FindChat(old(favorites), chatId).Some? ==>
        var i := FindChat(old(favorites), chatId).value;
        var f := old(favorites)[i];
        && favorites == old(favorites)[i := f.(lastAccessed := access.GetOr(f.lastAccessed),
                                               videoCount := count.GetOr(f.videoCount))]
        && stored == favorites
    {
      var i := 0;
      while i < |favorites|
        invariant 0 <= i <= |favorites|
        invariant forall j :: 0 <= j < i ==> favorites[j].chatId != chatId
        invariant favorites == old(favorites) && stored == old(stored)
      {
        if favorites[i].chatId == chatId {
          var f := favorites[i];
          favorites := favorites[i := f.(lastAccessed := access.GetOr(f.lastAccessed),
                                         videoCount := count.GetOr(f.videoCount))];
          stored := favorites;
          return;
        }
        i := i + 1;
      }
    }

    /** `update_access`: the first entry for the chat gets `now` as its access time. */
    method UpdateAccess(chatId: int, now: real)
      modifies this
      ensures FindChat(old(favorites), chatId).None? ==> favorites == old(favorites) && stored == old(stored)
      ensures FindChat(old(favorites), chatId).Some? ==>
        var i := FindChat(old(favorites), chatId).value;
        favorites == old(favorites)[i := old(favorites)[i].(lastAccessed := now)] && stored == favorites
    {
      UpdateFirst(chatId, Some(now), None);
    }

    /** `update_video_count`: the first entry for the chat gets the count. */
    method UpdateVideoCount(chatId: int, count: int)
      modifies this
      ensures FindChat(old(favorites), chatId).None? ==> favorites == old(favorites) && stored == old(stored)
      ensures FindChat(old(favorites), chatId).Some? ==>
        var i := FindChat(old(favorites), chatId).value;
        favorites == old(favorites)[i := old(favorites)[i].(videoCount := count)] && stored == favorites
    {
      UpdateFirst(chatId, None, Some(count));
    }

    method ClearAll()
      modifies this
      ensures favorites == [] && stored == []
    {
      favorites := [];
      stored := favorites;
    }
  }
}
