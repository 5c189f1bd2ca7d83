/**
 * The list of videos of one chat. Each message becomes an item showing its caption (cut to
 * 50 characters), and a meta line: the `m:ss` duration of the first document attribute
 * that carries one, then the message date as `dd/mm/YYYY HH:MM`, joined by a bullet.
 */
module TelegramVideoListScreen {
  import opened Options
  import opened PyStr
  import opened Telethon
  import TelegramMainScreen

  const Untitled := "Video sin título"
  const CaptionLimit := 50
  const HistoryLimit := 50
  const Bullet := " • "

  /** The caption selection of `VideoItemWidget._setup_ui`: the message text, or the
      untitled placeholder for a missing or empty one. The file-name fallback is only
      consulted for an empty text, which the first step has already replaced. */
  function CaptionSource(m: Message): (t: string)
    ensures t != ""
  {
    var text := if m.text.None? || m.text.value == "" then Untitled else m.text.value;
    if text == "" then
      match m.file
      case Some(FileInfo(_, Some(name))) => if name == "" then "Video" else name
      case _ => "Video"
    else text
  }

  /** The caption is the text when there is one and the placeholder otherwise; the attached
      file never matters. */
  lemma CaptionIgnoresFile(m: Message, file: Option<FileInfo>)
    ensures CaptionSource(m) == CaptionSource(m.(file := file))
    ensures m.text.Some? && m.text.value != "" ==> CaptionSource(m) == m.text.value
    ensures m.text.None? || m.text == Some("") ==> CaptionSource(m) == Untitled
  {
  }

  /** `text[:50] + "..." if len(text) > 50 else text`. */
  function Truncate(text: string): (r: string)
    ensures |r| <= CaptionLimit + 3
    ensures |text| <= CaptionLimit ==> r == text
    ensures |text| > CaptionLimit ==> |r| == CaptionLimit + 3 && r[..CaptionLimit] == text[..CaptionLimit] && r[CaptionLimit..] == "..."
  {
    if |text| > CaptionLimit then text[..CaptionLimit] + "..." else text
  }

  /** The first `duration` among the attributes, in order. */
  function FirstDuration(attrs: seq<DocumentAttribute>): (d: Option<int>)
    ensures d.None? <==> forall i :: 0 <= i < |attrs| ==> attrs[i].duration.None?
    decreases |attrs|
  {
    if attrs == [] then None
    else if attrs[0].duration.Some? then attrs[0].duration
    else
      assert forall i :: 1 <= i < |attrs| ==> attrs[i] == attrs[1..][i - 1];
      FirstDuration(attrs[1..])
  }

  /** The attribute found is the first that has a duration, whatever follows it. */
  lemma {:induction false} FirstDurationIsFirst(attrs: seq<DocumentAttribute>, i: nat)
    requires i < |attrs| && attrs[i].duration.Some?
    requires forall j :: 0 <= j < i ==> attrs[j].duration.None?
    ensures FirstDuration(attrs) == attrs[i].duration
    decreases i
  {
    if i > 0 {
      assert attrs[1..][i - 1] == attrs[i];
      FirstDurationIsFirst(attrs[1..], i - 1);
    }
  }

  /** The duration a message shows: searched only when it has a document. */
  function Duration(m: Message): (d: Option<int>)
    ensures d.Some? <==> (m.document.Some? &&
      exists i :: 0 <= i < |m.document.value.attributes| && m.document.value.attributes[i].duration.Some?)
  {
    if m.document.Some? then FirstDuration(m.document.value.attributes) else None
  }

  /** The attribute loop of `VideoItemWidget._setup_ui`, stopping at the first attribute
      that has a duration. */
  method FindDuration(m: Message) returns (duration: Option<int>)
    ensures duration == Duration(m)
  {
    duration := None;
    if m.document.Some? {
      var attrs := m.document.value.attributes;
      var i := 0;
      while i < |attrs|
        invariant 0 <= i <= |attrs|
        invariant FirstDuration(attrs) == FirstDuration(attrs[i..])
      {
        if attrs[i].duration.Some? {
          duration := attrs[i].duration;
          return;
        }
        assert attrs[i..][1..] == attrs[i + 1..];
        i := i + 1;
      }
    }
  }

  /** `date.strftime("%d/%m/%Y %H:%M")`. */
  function DateText(d: DateTime): (t: string)
    ensures |t| >= 13 && |t| > |Pad2(d.day)| && t[|Pad2(d.day)|] == '/'
  {
    Pad2(d.day) + "/" + Pad2(d.month) + "/" + NatToString(d.year) + " " + Pad2(d.hour) + ":" + Pad2(d.minute)
  }

  /** For a four-digit year and two-digit fields the date is 16 characters whose fields
      read back at fixed places. */
  lemma DateTextReadsBack(d: DateTime)
    requires 1000 <= d.year < 10000
    requires d.day < 100 && d.month < 100 && d.hour < 100 && d.minute < 100
    ensures var t := DateText(d);
      && |t| == 16
      && t[2] == '/' && t[5] == '/' && t[10] == ' ' && t[13] == ':'
      && DigitsOrUnderscores(t[..2], 10) && GroupValue(t[..2], 10) == d.day
      && DigitsOrUnderscores(t[3..5], 10) && GroupValue(t[3..5], 10) == d.month
      && DigitsOrUnderscores(t[6..10], 10) && GroupValue(t[6..10], 10) == d.year
      && DigitsOrUnderscores(t[11..13], 10) && GroupValue(t[11..13], 10) == d.hour
      && DigitsOrUnderscores(t[14..], 10) && GroupValue(t[14..], 10) == d.minute
  {
    var t := DateText(d);
    var y := NatToString(d.year);
    if |y| < 4 {
      SmallYearText(y, d.year);
    } else if |y| > 4 {
      BigYearText(y, d.year);
    }
    assert |y| == 4;
    assert t[..2] == Pad2(d.day);
    assert t[3..5] == Pad2(d.month);
    assert t[6..10] == y;
    assert t[11..13] == Pad2(d.hour);
    assert t[14..] == Pad2(d.minute);
  }

  /** A run of at most three digits denotes less than 1000. */
  lemma SmallYearText(s: string, n: nat)
    requires 1 <= |s| <= 3 && DigitsOrUnderscores(s, 10) && GroupValue(s, 10) == n
    ensures n < 1000
  {
    GroupBound(s);
  }

  lemma {:induction false} GroupBound(s: string)
    requires DigitsOrUnderscores(s, 10) && |s| <= 3
    ensures GroupValue(s, 10) < if |s| == 0 then 1 else if |s| == 1 then 10 else if |s| == 2 then 100 else 1000
    decreases |s|
  {
    if s != [] {
      assert DigitsOrUnderscores(s[..|s| - 1], 10);
      GroupBound(s[..|s| - 1]);
    }
  }

  /** The decimal text of a number has five digits only from 10000 on. */
  lemma BigYearText(s: string, n: nat)
    requires s == NatToString(n) && |s| > 4
    ensures n >= 10000
  {
    NatToStringLength(n);
  }

  lemma {:induction false} NatToStringLength(n: nat)
    ensures n < 10000 ==> |NatToString(n)| <= 4
    decreases n
  {
    if n >= 10 {
      NatToStringLength(n / 10);
    }
  }

  /** `" • ".join(meta)`: the duration part when there is one, then the date. */
  function MetaLine(m: Message): (t: string)
    ensures Duration(m).None? ==> |t| == |DateText(m.date)|
    ensures Duration(m).Some? ==>
      |t| == |TelegramMainScreen.DurationText(Duration(m).value)| + |Bullet| + |DateText(m.date)|
  {
    match Duration(m)
    case Some(d) => TelegramMainScreen.DurationText(d) + Bullet + DateText(m.date)
    case None => DateText(m.date)
  }

  /** The date is always last; with a duration the line starts with its text. */
  lemma MetaLineParts(m: Message)
    ensures var t := MetaLine(m);
      var date := DateText(m.date);
      && |date| <= |t| && t[|t| - |date|..] == date
      && (Duration(m).None? <==> t == date)
      && (Duration(m).Some? ==>
            var dt := TelegramMainScreen.DurationText(Duration(m).value);
            |t| == |dt| + 3 + |date| && t[..|dt|] == dt && t[|dt|..|dt| + 3] == Bullet)
  {
    var t := MetaLine(m);
    var date := DateText(m.date);
    if Duration(m).Some? {
      var dt := TelegramMainScreen.DurationText(Duration(m).value);
      assert t == dt + Bullet + date;
      ThreeParts(dt, Bullet, date);
    } else {
      assert t == date;
      assert t[|t| - |date|..] == t[0..];
    }
  }

  lemma ThreeParts(x: string, y: string, z: string)
    ensures var t := x + y + z;
      && |t| == |x| + |y| + |z|
      && t[..|x|] == x && t[|x|..|x| + |y|] == y && t[|t| - |z|..] == z
  {
    var t := x + y + z;
    assert t[..|x|] == x;
    assert t[|x|..|x| + |y|] == y;
    assert t[|t| - |z|..] == z;
  }

  /** A `VideoItemWidget`: the message it plays, its caption and its meta line. */
  datatype VideoItem = VideoItem(message: Message, caption: string, meta: string)

  function Item(m: Message): (it: VideoItem)
    ensures it.message == m && 1 <= |it.caption| <= CaptionLimit + 3
  {
    VideoItem(m, Truncate(CaptionSource(m)), MetaLine(m))
  }

  /** An `InfoBar` shown by the screen. */
  datatype Notice = Info(title: string, content: string) | Error(title: string, content: string)

  /** A `GET_CHAT_HISTORY` request handed to the worker. */
  datatype HistoryRequest = HistoryRequest(chatId: int, limit: nat, threadId: Option<int>)

  /** The loop of `show_videos` adding an item per message, in order. */
  method BuildItems(videos: seq<Message>) returns (items: seq<VideoItem>)
    ensures |items| == |videos| && forall i :: 0 <= i < |videos| ==> items[i] == Item(videos[i])
  {
    items := AppendEach(videos, Item);
  }

  /** The same loop for any way `make` of building a widget: the text of an item is only
      computed here, never reasoned about, which keeps the loop's proof small. */
  method AppendEach<A, B>(xs: seq<A>, make: A -> B) returns (ys: seq<B>)
    ensures |ys| == |xs| && forall i :: 0 <= i < |xs| ==> ys[i] == make(xs[i])
  {
    ys := [];
    var i := 0;
    while i < |xs|
      invariant 0 <= i <= |xs|
      invariant |ys| == i && forall j :: 0 <= j < i ==> ys[j] == make(xs[j])
    {
      ys := ys + [make(xs[i])];
      i := i + 1;
    }
  }

  class Screen {
    var chatId: Option<int>
    var title: string
    var items: seq<VideoItem>
    var loading: bool
    var notices: seq<Notice>
    var requests: seq<HistoryRequest>
    /** The `video_selected` emissions: the message object and its chat id. */
    var selected: seq<(Message, int)>

    constructor()
      ensures chatId == None && title == "Videos" && items == [] && !loading
      ensures notices == [] && requests == [] && selected == []
    {
      chatId := None;
      title := "Videos";
      items := [];
      loading := false;
      notices := [];
      requests := [];
      selected := [];
    }

    /** `load_videos`: the list is emptied and the last 50 messages are requested. */
    method LoadVideos(chat: int, newTitle: string, threadId: Option<int>)
      modifies this
      ensures chatId == Some(chat) && title == newTitle && loading && items == []
      ensures requests == old(requests) + [HistoryRequest(chat, HistoryLimit, threadId)]
      ensures notices == old(notices) && selected == old(selected)
    {
      chatId := Some(chat);
      title := newTitle;
      loading := true;
      items := [];
      requests := requests + [HistoryRequest(chat, HistoryLimit, threadId)];
    }

    /** `show_videos`: an empty result only shows a notice and leaves the list as it was;
        otherwise the list is rebuilt with one item per message, in order. */
    method ShowVideos(videos: seq<Message>)
      modifies this
      ensures videos == [] ==>
        items == old(items) && notices == old(notices) + [Info("Vacío", "No se encontraron videos en este chat.")]
      ensures videos != [] ==>
        notices == old(notices) && |items| == |videos| && forall i :: 0 <= i < |videos| ==> items[i] == Item(videos[i])
      ensures chatId == old(chatId) && title == old(title) && loading == old(loading)
      ensures requests == old(requests) && selected == old(selected)
    {
      if videos == [] {
        notices := notices + [Info("Vacío", "No se encontraron videos en este chat.")];
        return;
      }
      items := BuildItems(videos);
    }

    /** `_on_videos_loaded`: the spinner goes away, then the messages are shown or the
        failure is reported. */
    method OnVideosLoaded(result: Result<seq<Message>>)
      modifies this
      ensures !loading
      ensures result.Raised? ==>
        items == old(items) && notices == old(notices) + [Error("Error", "No se pudieron cargar los videos: " + result.message)]
      ensures result.Ok? && result.value != [] ==>
        |items| == |result.value| && forall i :: 0 <= i < |items| ==> items[i] == Item(result.value[i])
      ensures result.Ok? && result.value == [] ==> items == old(items)
      ensures chatId == old(chatId) && title == old(title)
      ensures requests == old(requests) && selected == old(selected)
    {
      loading := false;
      match result
      case Ok(videos) => ShowVideos(videos);
      case Raised(message) =>
        notices := notices + [Error("Error", "No se pudieron cargar los videos: " + message)];
    }

    /** The play button of item `row`: the screen re-emits what the item sends, the message
        object itself and its chat id. */
    method OnPlayClicked(row: nat)
      requires row < |items|
      modifies this
      ensures items == old(items)
      ensures selected == old(selected) + [(items[row].message, items[row].message.chatId)]
      ensures chatId == old(chatId) && title == old(title) && loading == old(loading)
      ensures notices == old(notices) && requests == old(requests)
    {
      selected := selected + [(items[row].message, items[row].message.chatId)];
    }
  }
}
