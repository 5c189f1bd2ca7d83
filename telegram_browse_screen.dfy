/**
 * Browsing every chat of the account: the loaded chats are listed, a search box narrows
 * the list to the chats whose lower-cased title contains the lower-cased, stripped search
 * text, and clicking an entry announces the chat with that id.
 */
module TelegramBrowseScreen {
  import opened Options
  import opened PyStr

  const Unknown := "Unknown"
  const ChatsRequested := 100

  /** A chat entity as `get_dialogs` yields it. `title` is None for entities without a
      `title` attribute (users); `broadcast` is False when the attribute is missing. */
  datatype Chat = Chat(id: int, title: Option<string>, broadcast: bool)

  /** `getattr(chat, 'title', 'Unknown')`. */
  function TitleOf(c: Chat): (t: string)
    ensures c.title.Some? ==> t == c.title.value
    ensures c.title.None? ==> t == Unknown
  {
    c.title.GetOr(Unknown)
  }

  /** `text.lower().strip()`. */
  function SearchText(text: string): (t: string)
    ensures |t| <= |text|
    ensures forall i :: 0 <= i < |t| ==> !('A' <= t[i] <= 'Z')
    ensures t != [] ==> !IsSpace(t[0]) && !IsSpace(t[|t| - 1])
  {
    StripKeepsAll(Lower(text), c => !('A' <= c <= 'Z'));
    Strip(Lower(text))
  }

  /** Whether a chat stays listed for the (already normalised) search text. */
  function Matches(search: string, c: Chat): (b: bool)
    ensures search == "" ==> b
    ensures b && search != "" ==> |search| <= |TitleOf(c)|
  {
    if search == "" then true
    else if Contains(Lower(TitleOf(c)), search) then
      ContainsLength(Lower(TitleOf(c)), search);
      true
    else false
  }

  /** The chats `_filter_chats` lists, in their original order. */
  function Listed(chats: seq<Chat>, search: string): (r: seq<Chat>)
    ensures |r| <= |chats|
    decreases |chats|
  {
    if chats == [] then []
    else if Matches(search, chats[0]) then [chats[0]] + Listed(chats[1..], search)
    else Listed(chats[1..], search)
  }

  /** A chat is listed exactly when it is one of the chats and it matches. */
  lemma {:induction false} ListedMembers(chats: seq<Chat>, search: string, c: Chat)
    ensures c in Listed(chats, search) <==> c in chats && Matches(search, c)
    decreases |chats|
  {
    if chats != [] {
      ListedMembers(chats[1..], search, c);
      assert chats == [chats[0]] + chats[1..];
    }
  }

  /** Listing splits over concatenation, so the relative order of the chats is kept. */
  lemma {:induction false} ListedKeepsOrder(a: seq<Chat>, b: seq<Chat>, search: string)
    ensures Listed(a + b, search) == Listed(a, search) + Listed(b, search)
    decreases |a|
  {
    if a != [] {
      assert (a + b)[1..] == a[1..] + b;
      ListedKeepsOrder(a[1..], b, search);
    } else {
      assert a + b == b;
    }
  }

  /** An empty search lists every chat. */
  lemma {:induction false} EmptySearchListsAll(chats: seq<Chat>)
    ensures Listed(chats, "") == chats
    decreases |chats|
  {
    if chats != [] {
      EmptySearchListsAll(chats[1..]);
    }
  }

  /** One row of the list: the chat id stored in the item, the icon and the title shown. */
  datatype ChatItem = ChatItem(chatId: int, icon: string, title: string)

  function Item(c: Chat): (it: ChatItem)
    ensures it.chatId == c.id && it.title == TitleOf(c) && (it.icon == "📢" <==> c.broadcast)
  {
    ChatItem(c.id, if c.broadcast then "📢" else "👥", TitleOf(c))
  }

  /** The rows shown for the chats listed. */
  function Items(chats: seq<Chat>): (r: seq<ChatItem>)
    ensures |r| == |chats| && forall i :: 0 <= i < |chats| ==> r[i] == Item(chats[i])
  {
    seq(|chats|, i requires 0 <= i < |chats| => Item(chats[i]))
  }

  /** `next((c for c in chats if c.id == chat_id), None)`. */
  function FirstWithId(chats: seq<Chat>, id: int): (r: Option<Chat>)
    ensures r.None? <==> forall i :: 0 <= i < |chats| ==> chats[i].id != id
    decreases |chats|
  {
    if chats == [] then None
    else if chats[0].id == id then Some(chats[0])
    else
      assert forall i :: 1 <= i < |chats| ==> chats[i] == chats[1..][i - 1];
      FirstWithId(chats[1..], id)
  }

  /** The chat found is the first one with that id, whatever follows it. */
  lemma {:induction false} FirstWithIdIsFirst(chats: seq<Chat>, id: int, i: nat)
    requires i < |chats| && chats[i].id == id
    requires forall j :: 0 <= j < i ==> chats[j].id != id
    ensures FirstWithId(chats, id) == Some(chats[i])
    decreases i
  {
    if i > 0 {
      assert chats[1..][i - 1] == chats[i];
      FirstWithIdIsFirst(chats[1..], id, i - 1);
    }
  }

  /** The loop of `_filter_chats`: an item per chat that matches, in order. */
  method FilterLoop(chats: seq<Chat>, search: string) returns (items: seq<ChatItem>)
    ensures items == Items(Listed(chats, search))
  {
    items := [];
    var i := 0;
    while i < |chats|
      invariant 0 <= i <= |chats|
      invariant items == Items(Listed(chats[..i], search))
    {
      ListedKeepsOrder(chats[..i], [chats[i]], search);
      assert chats[..i + 1] == chats[..i] + [chats[i]];
      assert [chats[i]][1..] == [];
      if Matches(search, chats[i]) {
        items := items + [Item(chats[i])];
      }
      i := i + 1;
    }
    assert chats[..i] == chats;
  }

  /** An `InfoBar.error`. */
  datatype Notice = Error(title: string, content: string)

  class Screen {
    var chats: seq<Chat>
    var items: seq<ChatItem>
    var loading: bool
    var notices: seq<Notice>
    /** The `GET_CHATS` requests handed to the worker, by their `limit`. */
    var requests: seq<nat>
    /** The `chat_selected` emissions: the chat object. */
    var selected: seq<Chat>

    constructor()
      ensures chats == [] && items == [] && !loading
      ensures notices == [] && requests == [] && selected == []
    {
      chats := [];
      items := [];
      loading := false;
      notices := [];
      requests := [];
      selected := [];
    }

    /** `load_chats`: the list is emptied and up to 100 chats are requested. */
    method LoadChats()
      modifies this
      ensures loading && items == [] && requests == old(requests) + [ChatsRequested]
      ensures chats == old(chats) && notices == old(notices) && selected == old(selected)
    {
      loading := true;
      items := [];
      requests := requests + [ChatsRequested];
    }

    /** `_filter_chats(text)`: with no chats loaded the list is left as it is; otherwise
        it shows exactly the matching chats, in their order. */
    method FilterChats(text: string)
      modifies this
      ensures chats == [] ==> items == old(items)
      ensures chats != [] ==> items == Items(Listed(chats, SearchText(text)))
      ensures chats == old(chats) && loading == old(loading)
      ensures notices == old(notices) && requests == old(requests) && selected == old(selected)
    {
      if chats == [] {
        return;
      }
      var search := SearchText(text);
      items := FilterLoop(chats, search);
    }

    /** `show_chats`: every loaded chat is listed. */
    method ShowChats(loaded: seq<Chat>)
      modifies this
      ensures chats == loaded && !loading
      ensures loaded == [] ==> items == old(items)
      ensures loaded != [] ==> items == Items(loaded)
      ensures notices == old(notices) && requests == old(requests) && selected == old(selected)
    {
      chats := loaded;
      FilterChats("");
      EmptySearchListsAll(loaded);
      loading := false;
    }

    /** `_on_chats_loaded`: show the chats, or hide the spinner and report the failure. */
    method OnChatsLoaded(result: Result<seq<Chat>>)
      modifies this
      ensures !loading
      ensures result.Ok? ==> chats == result.value
      ensures result.Ok? && result.value != [] ==> items == Items(result.value)
      ensures result.Ok? ==> notices == old(notices)
      ensures result.Raised? ==>
        chats == old(chats) && items == old(items) && notices == old(notices) + [Error("Error", "No se pudieron cargar los chats: " + result.message)]
      ensures requests == old(requests) && selected == old(selected)
    {
      match result
      case Ok(loaded) => ShowChats(loaded);
      case Raised(message) =>
        loading := false;
        notices := notices + [Error("Error", "No se pudieron cargar los chats: " + message)];
    }

    /** `_on_item_clicked` on row `row`: the first chat with the row's id is announced, and
        nothing when no chat has it. */
    method OnItemClicked(row: nat)
      requires row < |items|
      modifies this
      ensures chats == old(chats) && items == old(items)
      ensures FirstWithId(chats, items[row].chatId).Some? ==>
        selected == old(selected) + [FirstWithId(chats, items[row].chatId).value]
      ensures FirstWithId(chats, items[row].chatId).None? ==> selected == old(selected)
      ensures loading == old(loading) && notices == old(notices) && requests == old(requests)
    {
      var id := items[row].chatId;
      var i := 0;
      while i < |chats|
        invariant 0 <= i <= |chats|
        invariant forall j :: 0 <= j < i ==> chats[j].id != id
      {
        if chats[i].id == id {
          FirstWithIdIsFirst(chats, id, i);
          selected := selected + [chats[i]];
          return;
        }
        i := i + 1;
      }
    }
  }
}
