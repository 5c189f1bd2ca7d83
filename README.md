# Shadow Player, modelled in Dafny

Shadow Player is a desktop video player. It plays local files and streams videos from
Telegram chats. This project models its sequential logic and proves properties of it:

- the LRU cache index of downloaded Telegram videos, with its age pass and size pass;
- the local HTTP proxy that turns a `Range` request into a Telegram download, and the
  scan for the `moov` box of an MP4 file;
- the background worker's task queue and callback bookkeeping;
- the recent-videos and favourite-channels lists, and the JSON settings store;
- the video service that resumes playback at the saved position;
- the Telegram login state machine and the credential checks;
- the XOR-and-Base64 obfuscation of the API credentials, and its decoder;
- the display logic of the home, player and Telegram screens.

One module per source file. Objects whose fields the program updates in place are
classes with `modifies` clauses, specified against pure functions. The laws about those
functions are lemmas. Helper modules model what the program takes from Python and its
libraries:

- `Options`: Python's `None` and raised exceptions, as `Option` and `Result`. An exception is its `str(e)` text; where Python builds that text from the input, only its fixed start is kept, and where the text depends on which internal check failed or on the Python version (Base64, UTF-8, division by zero), the exception's class name stands for it.
- `PyStr`: `str(n)`, `int(s, base)`, `f"{n:02}"`, `strip`, `lower`, `split` and `in`.
- `StableSort`: `sorted(key=..., reverse=True)`.
- `Base64` and `Utf8`: RFC 4648 section 4, and UTF-8 as `str.encode` / `bytes.decode` use it.
- `Bytes`: byte XOR.
- `Telethon`: the message and chat objects the Telegram library hands over, as datatypes.
- `DomainModels`: `Video`, `PlaybackState` and `MediaStatus`.
- `SessionRepair`: the corrupt-session test and the start-up outcome (credential load, then connect with repair) shared by the worker and the login client.

Time (`time.time()`), the disk (which paths exist, which unlinks fail, free space), the
file system behind the JSON store, the OS keyring and every remote Telegram call are
parameters or inputs. Python floats (time stamps, progress percentages) are `real`.

Where the program departs from a standard, the model follows the program and a lemma
states the departure. The range parser reads `bytes=-M` as bytes 0 to M, not as the
last M bytes (section 2.1 of RFC 7233). It turns a reversed range into its start byte,
never answers 416, and still answers 206 to a range in an unknown unit. The MP4 box
scan does not follow the box size rules of section 4.2 of ISO/IEC 14496-12: a box of
size 0 stops the scan, and a box of size 1 moves it on by a single byte.

## Model

| member | source | states |
|---|---|---|
| DomainModels.Basename | domain/models.py:25 | the base name has no '/', is a suffix of the path and, when shorter, follows a '/' |
| DomainModels.MakeVideo | domain/models.py:18-25 | the path is kept; a non-empty title is kept; an empty title becomes the base name of the path |
| DomainModels.DefaultTitleIsLastPiece | domain/models.py:23-25 | the default title is the last piece of the path split at '/' |
| JsonAdapter.LoadData | adapters/persistence/json_adapter.py:16-21 | a missing or unparseable file reads as the empty object; otherwise the stored object |
| JsonAdapter.Get | adapters/persistence/json_adapter.py:34 | `dict.get`: the stored value when the key is present, the default otherwise |
| JsonAdapter.Saved | adapters/persistence/json_adapter.py:27-30 | after a save the file holds the keys read before plus the saved key |
| JsonAdapter.LoadAfterSave | adapters/persistence/json_adapter.py:27-43 | loading a key right after saving it returns the saved value, whatever the default |
| JsonAdapter.OtherKeysUnchanged | adapters/persistence/json_adapter.py:27-43 | saving one key leaves every other key's loaded value unchanged |
| JsonAdapter.UnreadableFileKeepsOneKey | adapters/persistence/json_adapter.py:16-30 | saving into a missing or corrupt file leaves exactly the saved key |
| JsonAdapter.SettingOverwritesProgress | adapters/persistence/json_adapter.py:27-39 | progress and settings share one key space: a setting saved under a video path replaces its position |
| JsonAdapter.Store.constructor | adapters/persistence/json_adapter.py:7-14 | a missing file is created holding `{}`; an existing file is left alone |
| JsonAdapter.Store.SaveProgress | adapters/persistence/json_adapter.py:27-30 | the file becomes the old contents with the path set to the position |
| JsonAdapter.Store.LoadProgress | adapters/persistence/json_adapter.py:32-34 | the value stored under the path, or 0 |
| JsonAdapter.Store.SaveSetting | adapters/persistence/json_adapter.py:36-39 | the file becomes the old contents with the key set to the value |
| JsonAdapter.Store.LoadSetting | adapters/persistence/json_adapter.py:41-43 | the value stored under the key, or the caller's default |
| Services.Bindings | app/services.py:28-37 | five callback setters, all on the given player |
| Services.OpenLaw | app/services.py:53-63 | opening makes the video current with its file name as title, loads then plays it, and arms the resume position exactly when a positive one was saved |
| Services.StatusLaw | app/services.py:39-46 | every status is forwarded; a delayed seek is scheduled exactly on LOADED with a position armed; nothing else changes |
| Services.InitialSeekAtMostOnce | app/services.py:48-51 | the initial seek sends one seek to the armed position and disarms itself, so it fires at most once |
| Services.ResumeScenario | app/services.py:39-63 | open, then LOADED, then the timer: the player is sought to the saved position |
| Services.NoResumeWithoutSavedPosition | app/services.py:39-63 | without a saved position nothing is scheduled and no seek is sent |
| Services.SaveLaw | app/services.py:65-69 | the reported position is saved under the current path and nothing else changes; without a current video nothing happens |
| Services.CloseLaw | app/services.py:82-90 | with no current video nothing happens; otherwise it saves 0 or the position, stops the player and forgets the video |
| Services.SwapLaw | app/services.py:92-104 | any current video is saved and stopped on the old player, then all five callbacks are bound to the new one |
| Services.Opened | app/services.py:53-63 | the opened video becomes current with a non-negative pending seek, saved progress and player are untouched, and exactly two player calls (load, play) are added; `OpenLaw` pins each field |
| Services.StatusChanged | app/services.py:39-46 | every status is forwarded, in order; at most one seek is scheduled per status; no player call is made and the pending seek is kept; `StatusLaw` says exactly when a seek is scheduled |
| Services.InitialSeekDone | app/services.py:48-51 | after the initial seek no seek is pending, the current video and progress are unchanged, and at most one call (the seek) is made |
| Services.ProgressSaved | app/services.py:65-69 | saving keeps the current video and the calls, never drops a saved key, and records the current video's path when there is one |
| Services.Closed | app/services.py:82-90 | after closing no video is current, the player is the same, no saved key is lost, and at most one call (stop) is made; `CloseLaw` gives the saved value |
| Services.Swapped | app/services.py:92-104 | after a swap no video is current, the new player is in place, no saved key is lost, and the calls grow by the old player's optional stop plus the five signal bindings of the new one |
| Services.VideoService.constructor | app/services.py:17-26 | no current video, callbacks bound to the initial player |
| Services.VideoService.OnMediaStatusChanged | app/services.py:39-46 | the new state is the status transition of the old one |
| Services.VideoService.ExecuteInitialSeek | app/services.py:48-51 | the new state is the initial-seek transition of the old one |
| Services.VideoService.OpenVideo | app/services.py:53-63 | the new state is the open transition of the old one |
| Services.VideoService.SaveCurrentProgress | app/services.py:65-69 | the new state is the save transition of the old one |
| Services.VideoService.Play | app/services.py:71-72 | a play call is sent to the player |
| Services.VideoService.Pause | app/services.py:74-76 | progress is saved, then a pause call is sent |
| Services.VideoService.Stop | app/services.py:78-80 | progress is saved, then a stop call is sent |
| Services.VideoService.SeekTo | app/services.py:106-107 | a seek call to the position is sent |
| Services.VideoService.CloseVideo | app/services.py:82-90 | the new state is the close transition of the old one |
| Services.VideoService.SwapPlayer | app/services.py:92-104 | the new state is the swap transition of the old one |
| RecentVideos.FindIndex | adapters/telegram/recent_videos.py:107-111 | the index of the first entry with the (message id, chat id) key, None exactly when no entry has it |
| RecentVideos.AddExistingReplaces | adapters/telegram/recent_videos.py:113-118 | an existing key is replaced in place, stamped with the play time; every other entry and the order are kept |
| RecentVideos.AddNewAtFront | adapters/telegram/recent_videos.py:119-125 | a new key goes to the front and the list is cut to its first 50 entries |
| RecentVideos.AddKeepsCap | adapters/telegram/recent_videos.py:45-125 | the list stays within 50 entries |
| RecentVideos.AddKeepsKeysUnique | adapters/telegram/recent_videos.py:104-127 | keys stay unique |
| RecentVideos.ProgressUpdateLaw | adapters/telegram/recent_videos.py:146-154 | only the first match changes, only in its percentage, position and play time; no match leaves the list as it was |
| RecentVideos.WithoutKey | adapters/telegram/recent_videos.py:189-192 | exactly the entries without the key remain |
| RecentVideos.WithoutKeyShorter | adapters/telegram/recent_videos.py:194-197 | the list gets shorter exactly when some entry had the key |
| RecentVideos.RecentLaw | adapters/telegram/recent_videos.py:83-95 | at most `limit` entries taken from the list, most recently played first |
| RecentVideos.AddedOrUpdated | adapters/telegram/recent_videos.py:104-127 | after adding, the video's key is in the list, and the list grows by at most one |
| RecentVideos.ProgressUpdated | adapters/telegram/recent_videos.py:146-154 | an update keeps the length and the position of every key; an unknown key leaves the list as it was |
| RecentVideos.Recent | adapters/telegram/recent_videos.py:88-95 | `get_recent(limit)` returns no more videos than stored, and no more than `limit` when it is non-negative |
| RecentVideos.Manager.constructor | adapters/telegram/recent_videos.py:47-71 | the list is the stored one, or empty when nothing is stored |
| RecentVideos.Manager.GetRecent | adapters/telegram/recent_videos.py:83-95 | returns the sorted, cut list |
| RecentVideos.Manager.FindExisting | adapters/telegram/recent_videos.py:106-111 | the search loop returns the first index with the key |
| RecentVideos.Manager.AddOrUpdate | adapters/telegram/recent_videos.py:97-128 | the list becomes the add-or-update result and is saved |
| RecentVideos.Manager.UpdateProgress | adapters/telegram/recent_videos.py:130-154 | the list becomes the progress-update result; it is saved only when a match exists |
| RecentVideos.Manager.GetProgress | adapters/telegram/recent_videos.py:156-173 | the first match's position, None exactly when no entry has the key |
| RecentVideos.Manager.Remove | adapters/telegram/recent_videos.py:175-197 | the key's entries are removed; the result is true exactly when something was removed, and only then is it saved |
| RecentVideos.Manager.ClearAll | adapters/telegram/recent_videos.py:199-202 | the list is empty and saved empty |
| FavoritesManager.FindChat | adapters/telegram/favorites_manager.py:143-147 | the index of the first entry for the chat, None exactly when the chat is absent |
| FavoritesManager.Stamped | adapters/telegram/favorites_manager.py:104-108 | zero time stamps become the current time; other fields are kept |
| FavoritesManager.AddKeepsChatsUnique | adapters/telegram/favorites_manager.py:98-112 | a duplicate chat is refused with the list unchanged; otherwise the stamped channel is appended; chat ids stay unique |
| FavoritesManager.WithoutChat | adapters/telegram/favorites_manager.py:127 | exactly the entries of other chats remain |
| FavoritesManager.WithoutChatShorter | adapters/telegram/favorites_manager.py:129-132 | the list gets shorter exactly when the chat was present |
| FavoritesManager.FavoritesOrderLaw | adapters/telegram/favorites_manager.py:78-86 | the result is ordered by last access, most recent first, is a permutation of the list, and ties keep their order |
| FavoritesManager.Added | adapters/telegram/favorites_manager.py:98-112 | after adding, the channel's chat is a favourite; the flag is true exactly when the list grew by one (the chat was new) |
| FavoritesManager.Manager.constructor | adapters/telegram/favorites_manager.py:42-66 | the list is the stored one, or empty when nothing is stored |
| FavoritesManager.Manager.GetFavorites | adapters/telegram/favorites_manager.py:78-86 | returns the list sorted by last access |
| FavoritesManager.Manager.IsFavorite | adapters/telegram/favorites_manager.py:165-176 | true exactly when some entry has the chat id |
| FavoritesManager.Manager.GetFavorite | adapters/telegram/favorites_manager.py:178-192 | the first entry for the chat, None exactly when the chat is absent |
| FavoritesManager.Manager.AddFavorite | adapters/telegram/favorites_manager.py:88-112 | the list and result are those of the add; saved only when added |
| FavoritesManager.Manager.RemoveFavorite | adapters/telegram/favorites_manager.py:114-132 | the chat's entries are removed; true exactly when it was present, and only then saved |
| FavoritesManager.Manager.UpdateFirst | adapters/telegram/favorites_manager.py:143-163 | the shared loop: only the first entry for the chat changes, in the one field, and is saved; no match changes nothing |
| FavoritesManager.Manager.UpdateAccess | adapters/telegram/favorites_manager.py:134-147 | the first entry for the chat gets the current time as its access time and is saved; no match changes nothing |
| FavoritesManager.Manager.UpdateVideoCount | adapters/telegram/favorites_manager.py:149-163 | the first entry for the chat gets the count and is saved; no match changes nothing |
| FavoritesManager.Manager.ClearAll | adapters/telegram/favorites_manager.py:194-197 | the list is empty and saved empty |
| StableSort.SortDesc | adapters/telegram/favorites_manager.py:86 | `sorted(..., reverse=True)` keeps the length |
| StableSort.SortDescSorted | adapters/telegram/favorites_manager.py:86 | the sort's result is ordered by non-increasing key and is a permutation of its input |
| StableSort.SortDescStable | adapters/telegram/recent_videos.py:94 | the sort is stable: elements sharing a key keep their input order |
| TelegramConfig.ValidateCredentials | adapters/telegram/config.py:55-79 | a non-positive id or a hash whose length is not 32 is rejected |
| TelegramConfig.HexLiteralChars | adapters/telegram/config.py:74-77 | every character of a string `int(s, 16)` accepts is a hex digit, whitespace, a sign, `x`/`X` or `_` |
| TelegramConfig.HexHashIsValid | adapters/telegram/config.py:66-79 | a positive id with 32 hexadecimal digits passes |
| TelegramConfig.ForeignCharIsInvalid | adapters/telegram/config.py:70-77 | a hash holding a character `int(s, 16)` cannot accept fails |
| TelegramConfig.PrefixedHashIsValid | adapters/telegram/config.py:70-79 | `0x` followed by 30 hex digits also passes: the check is `int()`'s, not a hex-digit test |
| TelegramConfig.LoadCredentials | adapters/telegram/config.py:12-52 | with no embedded module, a successful load has the environment's hash |
| TelegramConfig.EnvironmentWins | adapters/telegram/config.py:35-39 | both variables set: they are returned, the id read back from its decimal text, whatever the embedded module holds |
| TelegramConfig.NonNumericIdRaises | adapters/telegram/config.py:38-39 | a set, non-numeric id raises instead of falling back |
| TelegramConfig.EmbeddedFallback | adapters/telegram/config.py:41-44 | with either variable missing or empty, the embedded module gives back the credentials it was generated from |
| TelegramConfig.NothingRaises | adapters/telegram/config.py:35-52 | with either variable missing or empty and no embedded module, the ValueError "Telegram credentials not found. …" of config.py:48-52 is raised |
| ObfuscateCredentials.Repeat | scripts/obfuscate_credentials.py:40 | `key * n` has n times the key's length |
| ObfuscateCredentials.RepeatAt | scripts/obfuscate_credentials.py:40 | index i of the repeated key is the key byte at i mod the key length |
| ObfuscateCredentials.ExtendedKey | scripts/obfuscate_credentials.py:40 | the extended key has the data's length and byte i is the key byte at i mod the key length |
| ObfuscateCredentials.XorZip | scripts/obfuscate_credentials.py:41 | the XOR of two byte strings is as long as the shorter and is their byte-wise XOR |
| ObfuscateCredentials.XorZipTwice | scripts/obfuscate_credentials.py:41-78 | XORing twice with a long enough key gives the data back |
| ObfuscateCredentials.SplitFirst | scripts/obfuscate_credentials.py:79 | None exactly when there is no colon; otherwise the text before the first colon and all the rest |
| ObfuscateCredentials.SplitFirstOf | scripts/obfuscate_credentials.py:79 | splitting a colon-free prefix, a colon and any rest gives back the two parts |
| ObfuscateCredentials.GetCredentials | scripts/obfuscate_credentials.py:68-80 | undecodable Base64 raises; success implies a non-empty key |
| ObfuscateCredentials.ObfuscatedBytes | scripts/obfuscate_credentials.py:22-43 | the embedded key decodes to the key, and the embedded data to the plaintext XORed with the repeated key |
| ObfuscateCredentials.Plaintext | scripts/obfuscate_credentials.py:37 | the bytes of `f"{api_id}:{api_hash}".encode()` decode back to that text |
| ObfuscateCredentials.Obfuscate | scripts/obfuscate_credentials.py:22-43 | the second Base64 text decodes to the key, the first decodes to as many bytes as the plaintext has; `RoundTrip` gives the credentials back |
| ObfuscateCredentials.RoundTrip | scripts/obfuscate_credentials.py:22-80 | `get_credentials()` on what `obfuscate(api_id, api_hash)` produced returns exactly `(api_id, api_hash)`, even when the hash holds colons |
| ObfuscateCredentials.EmptyKeyRaises | scripts/obfuscate_credentials.py:76-77 | a key decoding to no bytes raises (division by zero in the key repetition) |
| SessionRepair.IsCorruptSession | adapters/telegram/async_worker.py:129 | the repair is triggered by any of the three SQLite markers anywhere in the error text, so an error text shorter than every marker never triggers it |
| SessionRepair.MarkerTriggersRepair | adapters/telegram/tdlib_client.py:115 | any of the three markers, anywhere in the error text, triggers the repair |
| SessionRepair.ConnectWithRepair | adapters/telegram/async_worker.py:125-157 | at most two connects; success or a foreign error connects once (the error propagates); a marker error retries once and the retry's outcome is final; the file is deleted only if it exists and the unlink works |
| SessionRepair.StartupError | adapters/telegram/async_worker.py:110-157 | a start-up (credential load, then connect with repair) raises exactly when the credentials fail, with their message, or the first connect fails with a foreign error, or the retry after a marker error fails |
| SessionRepair.NoCredentialsNoStartup | adapters/telegram/async_worker.py:110 | with either credential variable missing or empty and no embedded module, every start-up raises the "Telegram credentials not found" ValueError, whatever the connects would do |
| TdlibClient.NameInjective | adapters/telegram/tdlib_client.py:20-25 | distinct auth states have distinct names |
| TdlibClient.FileSize | adapters/telegram/tdlib_client.py:350-359 | the file's size, else the video's, else the document's, else 0 |
| TdlibClient.SizeOrdersAgreeUnlessBoth | adapters/telegram/tdlib_client.py:350-359 | the client and the worker disagree on a size exactly when a message without a file wrapper carries both a document and a video of different sizes |
| TdlibClient.Client.constructor | adapters/telegram/tdlib_client.py:48-65 | no client, state WAIT_QR_SCAN, no QR login, no callback |
| TdlibClient.Client.IsAuthorized | adapters/telegram/tdlib_client.py:72-75 | true exactly in state READY |
| TdlibClient.Client.SetAuthCallback | adapters/telegram/tdlib_client.py:82-84 | the callback is set; nothing else changes |
| TdlibClient.Client.UpdateAuthState | adapters/telegram/tdlib_client.py:86-90 | the state is stored and exactly that state is handed to the callback, when one is set |
| TdlibClient.Client.Initialize | adapters/telegram/tdlib_client.py:92-142 | it raises exactly the start-up error; a credential-load failure raises its ValueError before any client is built, changing nothing; otherwise the client is built and is connected exactly when the connect-with-repair raises nothing |
| TdlibClient.Client.CheckAuthorization | adapters/telegram/tdlib_client.py:144-163 | the corrected reading of line 151 (`is_connected()` called, see Findings): a missing or unconnected client is initialized; an authorized session gives true and READY; a refusal or an error gives false and WAIT_QR_SCAN; it raises exactly when that initialization raises, a credential-load failure with its own message |
| TdlibClient.Client.CheckAuthorizationAsWritten | adapters/telegram/tdlib_client.py:144-163 | line 151 as written: only a missing client is initialized; a client that exists but is not connected is never reconnected and gives false and WAIT_QR_SCAN; it raises exactly when a missing client's initialization raises; true and READY exactly for a connected, authorized session |
| TdlibClient.Client.RequestQrCode | adapters/telegram/tdlib_client.py:167-182 | only a missing client is initialized; when that initialization raises (credentials or connect), its exception propagates, a credential-load failure leaving no client; otherwise the server's answer is returned, and a login URL keeps the QR login |
| TdlibClient.Client.WaitForQrScan | adapters/telegram/tdlib_client.py:184-207 | without a QR login: ValueError; scanned: READY; password needed: WAIT_PASSWORD; otherwise ERROR and the exception propagates |
| TdlibClient.Client.SendPassword | adapters/telegram/tdlib_client.py:209-227 | true and READY exactly when sign-in succeeds; every exception gives false with the state unchanged |
| TdlibClient.Client.Logout | adapters/telegram/tdlib_client.py:229-239 | the corrected reading of line 231 (`is_connected()` called, see Findings): a connected client is dropped, an unconnected one kept; the state always becomes WAIT_QR_SCAN and is announced |
| TdlibClient.Client.LogoutAsWritten | adapters/telegram/tdlib_client.py:229-239 | line 231 as written: every client, connected or not, is dropped; the state becomes WAIT_QR_SCAN and is announced |
| TdlibClient.ClientAfterFailedConnect | adapters/telegram/tdlib_client.py:92-142 | a first connect that fails with a foreign error ("timeout") leaves a client that exists but is not connected, in WAIT_QR_SCAN |
| TdlibClient.FailedConnectThenCheck | adapters/telegram/tdlib_client.py:151 | after that failed connect, with a server that would now connect and authorize, the program as written answers false, while the corrected check reconnects and answers true |
| TdlibClient.FailedConnectThenLogout | adapters/telegram/tdlib_client.py:231 | after that failed connect, logout as written drops the unconnected client, while the corrected logout keeps it |
| StreamingProxy.StreamKey | adapters/telegram/streaming_proxy.py:67 | the stream id is chat id and message id joined by `_` |
| StreamingProxy.StreamKeyInjective | adapters/telegram/streaming_proxy.py:67-68 | distinct (chat, message) pairs get distinct stream ids, so a registration only replaces one of the same pair |
| StreamingProxy.RequestedRange | adapters/telegram/streaming_proxy.py:120-131 | without a `bytes=` prefix the whole file is asked for |
| StreamingProxy.Clamp | adapters/telegram/streaming_proxy.py:133-136 | for a non-empty file the range lies inside it with 1 to size bytes; a range inside the file is kept; a reversed range becomes its start byte |
| StreamingProxy.Status | adapters/telegram/streaming_proxy.py:139-143 | 206 exactly when a Range header is present, 200 otherwise |
| StreamingProxy.ContentRange | adapters/telegram/streaming_proxy.py:139-141 | a Content-Range header is sent exactly with status 206 |
| StreamingProxy.ContentType | adapters/telegram/streaming_proxy.py:155-159 | `video/mp4` unless the message has a document with a non-empty MIME type, which is then used |
| StreamingProxy.NoHeaderFullFile | adapters/telegram/streaming_proxy.py:120-143 | without a Range header the whole file is served with 200 and no Content-Range |
| StreamingProxy.BytesPrefix | adapters/telegram/streaming_proxy.py:124-125 | the range spec is the header after `bytes=` |
| StreamingProxy.OpenEndedRange | adapters/telegram/streaming_proxy.py:124-131 | `bytes=N-` asks for N to the last byte |
| StreamingProxy.SuffixReadAsPrefix | adapters/telegram/streaming_proxy.py:124-131 | `bytes=-M` is read as 0..M, not as the last M bytes |
| StreamingProxy.ClosedRange | adapters/telegram/streaming_proxy.py:124-131 | `bytes=N-M` asks for N..M |
| StreamingProxy.NonNumericStartRaises | adapters/telegram/streaming_proxy.py:128-129 | a start bound `int()` rejects makes the handler raise; no 416 is sent |
| StreamingProxy.OtherUnitStillPartial | adapters/telegram/streaming_proxy.py:124-141 | a header in another unit is ignored for the range yet still answered with 206 |
| StreamingProxy.FirstFailure | adapters/telegram/streaming_proxy.py:186-205 | the index of the first chunk whose write fails, or the number of chunks |
| StreamingProxy.Delivered | adapters/telegram/streaming_proxy.py:186-205 | exactly the chunks before the first failed write |
| StreamingProxy.Relay | adapters/telegram/streaming_proxy.py:173-205 | the body is the concatenation of the chunks before the first failed write, and the byte count is its length |
| StreamingProxy.Proxy.constructor | adapters/telegram/streaming_proxy.py:24-46 | host and port as given, no streams registered |
| StreamingProxy.Proxy.BaseUrl | adapters/telegram/streaming_proxy.py:48-51 | the base URL starts with `http://` |
| StreamingProxy.Proxy.GetStreamUrl | adapters/telegram/streaming_proxy.py:54-69 | the stream is registered (replacing one of the same pair) and its URL is the base URL, `/stream/` and the stream id |
| StreamingProxy.Proxy.PrepareStream | adapters/telegram/streaming_proxy.py:307-329 | registers the stream without a cached message and returns its URL |
| StreamingProxy.Proxy.Stop | adapters/telegram/streaming_proxy.py:83-89 | every registration is forgotten |
| StreamingProxy.Proxy.HandleStream | adapters/telegram/streaming_proxy.py:95-215 | unknown id: 404; a bad bound: an error; otherwise status, Content-Range and Content-Type as above, a download of exactly the clamped range when a message is available, and the relayed body |
| StreamingProxy.ServedRangeMatchesRequest | adapters/telegram/streaming_proxy.py:124-185 | a range inside the file is served exactly and the download asks for exactly its bytes |
| StreamingProxy.ReversedRangeOneByte | adapters/telegram/streaming_proxy.py:133-136 | a reversed range inside the file is served as its single start byte |
| StreamingProxy.U32RoundTrip | adapters/telegram/streaming_proxy.py:244 | a 32-bit size packed big-endian unpacks to itself |
| StreamingProxy.U32BytesRoundTrip | adapters/telegram/streaming_proxy.py:244 | four bytes unpacked and packed again give the bytes back |
| StreamingProxy.AsciiIgnore | adapters/telegram/streaming_proxy.py:245 | bytes of 0x80 and above are dropped; nothing is dropped exactly when all bytes are ASCII, and then each byte becomes its character |
| StreamingProxy.AsciiIgnoreMoov | adapters/telegram/streaming_proxy.py:245-280 | four bytes decode to `moov` exactly when they are the bytes of `moov` |
| StreamingProxy.ParseAtomHeader | adapters/telegram/streaming_proxy.py:231-247 | fewer than 8 bytes give (0, ""); otherwise a 32-bit size and a type of at most 4 characters |
| StreamingProxy.ParseAtomHeaderOf | adapters/telegram/streaming_proxy.py:231-247 | a header built from a size and four type bytes parses back to them |
| StreamingProxy.FindMoovPosition | adapters/telegram/streaming_proxy.py:250-285 | the loop returns what the scan over the chain of box headers returns, and it always terminates |
| StreamingProxy.MoovScanSound | adapters/telegram/streaming_proxy.py:266-285 | a found position is a box start inside the file whose header says `moov` with a positive size |
| StreamingProxy.MoovScan | adapters/telegram/streaming_proxy.py:266-285 | a found moov atom starts inside the file, at or after the scan's start, and has a positive size; `MoovScanSound` says it is an atom header |
| StreamingProxy.FileHeader | adapters/telegram/streaming_proxy.py:268-270 | reading the header at an offset of an in-memory file gives its 8 bytes there |
| StreamingProxy.ScanSkips | adapters/telegram/streaming_proxy.py:275-283 | a non-`moov` box of size n sends the scan n bytes on |
| StreamingProxy.ScanFinds | adapters/telegram/streaming_proxy.py:275-281 | a `moov` header of positive size ends the scan with its offset and size |
| StreamingProxy.FtypThenMoov | adapters/telegram/streaming_proxy.py:250-294 | a 24-byte `ftyp` box then `moov`: `moov` is found at offset 24 and counts as at the start |
| StreamingProxy.SizeZeroStops | adapters/telegram/streaming_proxy.py:277-278 | a `moov` box of size 0 at the start is not found |
| StreamingProxy.LargeSizeStepsOneByte | adapters/telegram/streaming_proxy.py:283 | a box of size 1 (a 64-bit size in the MP4 standard) moves the scan on by one byte |
| StreamingProxy.ShortFileNotFound | adapters/telegram/streaming_proxy.py:272-291 | a header shorter than 8 bytes ends the scan with nothing found, which counts as at the start |
| CacheManager.AvailableForCache | adapters/telegram/cache_manager.py:46-50 | the free space minus the 5 GiB reserve, and never negative |
| CacheManager.WithoutMembers | adapters/telegram/cache_manager.py:303-306 | the rows kept are exactly those whose id was not removed |
| CacheManager.WithoutRowShrinks | adapters/telegram/cache_manager.py:303-306 | removing the id of a present row shortens the index |
| CacheManager.Find | adapters/telegram/cache_manager.py:205-208 | a lookup by id finds a row exactly when that id is in the index, and the row found carries that id |
| CacheManager.Touch | adapters/telegram/cache_manager.py:247-253 | only the rows with that id get the new access time; every other row is unchanged |
| CacheManager.Oldest | adapters/telegram/cache_manager.py:278-283 | the row chosen for eviction is in the index and no row was accessed earlier |
| CacheManager.Expired | adapters/telegram/cache_manager.py:267-272 | a row is selected for age expiry exactly when its last access is before the cutoff |
| CacheManager.Lookup | adapters/telegram/cache_manager.py:195-220 | a hit returns the stored path and refreshes that row; a row whose file is gone is dropped; an unknown id changes nothing |
| CacheManager.TotalSizeSplit | adapters/telegram/cache_manager.py:168-172 | the total size is the size of the rows kept plus the size of the rows removed |
| CacheManager.TotalSizeWithoutRow | adapters/telegram/cache_manager.py:303-306 | deleting a present row frees exactly its size |
| CacheManager.DeleteFileLaw | adapters/telegram/cache_manager.py:292-301 | a deletion only removes rows and files, counts a row's full size even when its file was already gone, and leaves a row only when unlinking its file fails |
| CacheManager.DeleteAllLaw | adapters/telegram/cache_manager.py:273-274 | deleting a result set only shrinks the index, the bytes freed are the sizes of the rows that went, and a victim that stayed has a file that cannot be unlinked |
| CacheManager.AgePassLaw | adapters/telegram/cache_manager.py:262-274 | with a positive retention every surviving row was accessed within the retention period, unless its file cannot be unlinked; with a retention of 0 or UNLIMITED nothing is removed |
| CacheManager.DeleteExpiredLaw | adapters/telegram/cache_manager.py:262-274 | deleting the rows accessed before the cutoff only shrinks the index, frees what went, and leaves only recent rows or rows whose file cannot be unlinked |
| CacheManager.SizePassLaw | adapters/telegram/cache_manager.py:276-288 | when the size loop ends, the total is within the limit or the index is empty, the bytes freed are what went, and every evicted row was accessed no later than every survivor |
| CacheManager.SizePassReturns | adapters/telegram/cache_manager.py:276-288 | when every deletion succeeds, the size loop ends |
| CacheManager.CleanupLaw | adapters/telegram/cache_manager.py:255-290 | cleanup only removes rows, returns the sizes of the rows it removed, and leaves the total within the limit or the index empty; it ends whenever deletions succeed |
| CacheManager.ClearAllLaw | adapters/telegram/cache_manager.py:308-323 | with deletions succeeding the index ends empty and the return value is the total it held; in any case the return value is the size of the rows removed |
| CacheManager.DeleteAllUnlocked | adapters/telegram/cache_manager.py:315-323 | with deletions succeeding, deleting a result set removes exactly the rows with its ids |
| CacheManager.AddRowLaw | adapters/telegram/cache_manager.py:229-243 | insert-or-replace leaves exactly one row for the id, holding the new entry, and leaves every other id's row as it was |
| CacheManager.AddRow | adapters/telegram/cache_manager.py:229-243 | the added row is last in the index, which grows by at most one (a replaced id drops its old row) |
| CacheManager.DeleteFile | adapters/telegram/cache_manager.py:292-301 | deleting frees nothing or exactly the row's size, and never adds rows or files |
| CacheManager.DeleteAll | adapters/telegram/cache_manager.py:273-274 | deleting a list of rows never adds rows or files |
| CacheManager.AgePass | adapters/telegram/cache_manager.py:262-274 | the age pass never adds rows or files and frees nothing when retention is not positive; `AgePassLaw` gives the full result |
| CacheManager.SizePass | adapters/telegram/cache_manager.py:276-288 | when the size loop returns, the index is within the limit or empty; `SizePassLaw` adds oldest-first order and the freed total |
| CacheManager.LookupLaw | adapters/telegram/cache_manager.py:195-220 | after a miss the id is absent and a repeated lookup misses again and changes nothing; a hit keeps the set of ids and refreshes only that row's access time |
| CacheManager.FourEntriesScenario | adapters/telegram/cache_manager.py:222-290 | with a 100-unit limit, adding four 40-unit entries in access order leaves only the last two, deleting the first two files |
| CacheManager.ThreeOfForty | adapters/telegram/cache_manager.py:222-290 | a third 40-unit entry under a 100-unit limit evicts the least recently used one |
| CacheManager.AddFits | adapters/telegram/cache_manager.py:222-245 | an addition that stays within the limit, with no age expiry, only inserts |
| CacheManager.AddEvictsOne | adapters/telegram/cache_manager.py:222-290 | an addition that exceeds the limit by no more than the oldest row's size evicts just that row and its file |
| CacheManager.TelegramCacheManager.constructor | adapters/telegram/cache_manager.py:84-96 | without settings the defaults apply: 10 GB, one week, automatic cleanup on |
| CacheManager.TelegramCacheManager.GetCurrentSize | adapters/telegram/cache_manager.py:168-172 | the sum of the sizes of all rows, and 0 for an empty index |
| CacheManager.TelegramCacheManager.GetAvailableSizeLimits | adapters/telegram/cache_manager.py:141-166 | the seven tiers with their labels, in ascending order, each enabled exactly when it fits in the space available for the cache |
| CacheManager.TelegramCacheManager.UpdateAccessTime | adapters/telegram/cache_manager.py:247-253 | only the rows with the id get the new access time |
| CacheManager.TelegramCacheManager.RemoveEntry | adapters/telegram/cache_manager.py:303-306 | the row with the id is deleted and nothing else changes |
| CacheManager.TelegramCacheManager.DeleteCachedFile | adapters/telegram/cache_manager.py:292-301 | the new state and the bytes freed are those of the deletion step |
| CacheManager.TelegramCacheManager.GetCachedPath | adapters/telegram/cache_manager.py:195-220 | the path returned and the new index are those of the self-healing lookup |
| CacheManager.TelegramCacheManager.DeleteRows | adapters/telegram/cache_manager.py:273-274 | deleting every row of a fetched result set in turn, adding up the bytes freed |
| CacheManager.TelegramCacheManager.ExpireByAge | adapters/telegram/cache_manager.py:264-274 | the state and bytes freed are those of the age pass |
| CacheManager.TelegramCacheManager.EvictBySize | adapters/telegram/cache_manager.py:276-288 | the state and bytes freed are those of the size pass, and no result exactly where the loop would pick an undeletable row forever |
| CacheManager.TelegramCacheManager.Cleanup | adapters/telegram/cache_manager.py:255-290 | the state and bytes freed are those of the two passes, and it reports a hang exactly where the source's loop never ends |
| CacheManager.TelegramCacheManager.AddEntry | adapters/telegram/cache_manager.py:222-245 | the state is the insert-or-replace followed, when automatic cleanup is on, by the cleanup |
| CacheManager.TelegramCacheManager.ClearAll | adapters/telegram/cache_manager.py:308-323 | the state and bytes freed are those of deleting every row |
| AsyncWorker.DrainLaw | adapters/telegram/async_worker.py:170-188 | tasks run in FIFO order, and each task other than STOP produces exactly one emission carrying its own id and outcome; the loop ends at the first STOP (consuming it), at the end of the queue, or when the outcomes run out |
| AsyncWorker.DrainStopsAtStop | adapters/telegram/async_worker.py:179-180 | nothing queued behind a STOP is executed or announced, and everything behind it stays queued |
| AsyncWorker.DrainStep | adapters/telegram/async_worker.py:183-188 | a task other than STOP is announced with its outcome before the rest of the queue is processed |
| AsyncWorker.Deliver | adapters/telegram/async_worker.py:344-354 | the id is unregistered; its callback is called once with the outcome when it was registered, and nothing is called otherwise |
| AsyncWorker.DeliverOnce | adapters/telegram/async_worker.py:344-354 | a second announcement for an id already delivered calls nothing and changes nothing |
| AsyncWorker.DeliverAllExactlyOnce | adapters/telegram/async_worker.py:344-354 | announcing tasks with distinct registered ids calls each task's own callback once, in order, with its outcome, and unregisters exactly those ids |
| AsyncWorker.Drain | adapters/telegram/async_worker.py:170-188 | every queued task is either emitted, left in the queue, or is the STOP that ended the loop; no more tasks are emitted than outcomes are given |
| AsyncWorker.DeliverAll | adapters/telegram/async_worker.py:344-354 | delivery only removes callbacks, makes at most one call per emission, and leaves no callback of an emitted id registered |
| AsyncWorker.StreamSize | adapters/telegram/async_worker.py:213-219 | the size is the file's, else the document's, else the video's, else 0 |
| AsyncWorker.StreamTarget | adapters/telegram/async_worker.py:200-223 | the stream URL request goes ahead exactly when the proxy exists, the message was found and its size is not 0; otherwise it fails with the source's text for that case, naming the message id (and, when not found, the chat id) |
| AsyncWorker.ExecuteStreamUrl | adapters/telegram/async_worker.py:200-225 | on success the message is registered under its stream id with its size and the URL is the proxy's base URL followed by `/stream/` and that id; on failure nothing is registered |
| AsyncWorker.QueuedIdsTail | adapters/telegram/async_worker.py:335-342 | the tail of a queue of increasing ids is still increasing and within the counter |
| AsyncWorker.QueuedIdsSuffix | adapters/telegram/async_worker.py:335-342 | every suffix of a queue of increasing ids is still increasing and within the counter |
| AsyncWorker.DrainQueue | adapters/telegram/async_worker.py:170-188 | the loop's emissions, what is left queued and whether it stopped are those of the FIFO reference loop |
| AsyncWorker.Worker.constructor | adapters/telegram/async_worker.py:48-61 | the counter starts at 0 with no callbacks, an empty queue and no thread |
| AsyncWorker.Worker.Start | adapters/telegram/async_worker.py:63-70 | nothing changes while a started thread is alive: one that has not left `_worker_main`, or one still in `_cleanup`; a thread that died at start-up or left its loop is replaced, and the worker is running with a new thread whose start-up is pending |
| AsyncWorker.Worker.Stop | adapters/telegram/async_worker.py:72-78 | the worker stops running, STOP with id -1 is queued at the tail and the thread is forgotten |
| AsyncWorker.Worker.Execute | adapters/telegram/async_worker.py:335-342 | the id is the counter plus one, larger than every id handed out before and not registered; the callback is stored under it and one task goes to the tail of the queue |
| AsyncWorker.Worker.Boot | adapters/telegram/async_worker.py:104-157 | a pending thread runs the start-up of `_worker_main` once: it is up exactly when the start-up raises nothing, and otherwise dead with that error, caught at lines 87-88; `running` stays as it was either way |
| AsyncWorker.Worker.RunLoop | adapters/telegram/async_worker.py:170-188 | while running after a successful start-up, the emissions and the queue left are those of the FIFO reference loop, and the thread ends exactly when the loop met a STOP; a cleared running flag ends the thread without touching the queue; a thread that is pending, dead or ended processes and emits nothing |
| AsyncWorker.StoppedWorker | adapters/telegram/async_worker.py:72-78 | a worker that came up and was stopped is not running, has no thread, and its thread ended on the cleared flag with the STOP from `stop` left queued |
| AsyncWorker.RestartAfterStopScenario | adapters/telegram/async_worker.py:63-78 | the same worker started again after `stop` takes the STOP left in its queue and ends, yet reads as running; a task queued afterwards gets id 1 and is never served or announced |
| AsyncWorker.DeadWorkerScenario | adapters/telegram/async_worker.py:80-88 | with no credentials the thread dies at start-up, yet the worker still reads as running, `execute` hands out id 1 and queues the task, and the loop announces nothing |
| AsyncWorker.Worker.HandleResult | adapters/telegram/async_worker.py:344-348 | the id's callback is popped and called with success and the result, if it was registered |
| AsyncWorker.Worker.HandleError | adapters/telegram/async_worker.py:350-354 | the id's callback is popped and called with failure and the message, if it was registered |
| AsyncWorker.WorkerHolder.constructor | adapters/telegram/async_worker.py:358 | there is no global worker at first |
| AsyncWorker.WorkerHolder.Get | adapters/telegram/async_worker.py:361-367 | the same instance is returned until it is stopped; otherwise a new one is created and started |
| AsyncWorker.WorkerHolder.StopGlobal | adapters/telegram/async_worker.py:370-375 | the instance is stopped, STOP is queued on it, and the global is reset |
| HomeScreen.DisplayName | adapters/ui/home_screen.py:80 | the name shown holds no slash of either kind and is a suffix of the path |
| HomeScreen.LastPieceOfSplit | adapters/ui/home_screen.py:80 | the last piece of a split is the text after the last separator |
| HomeScreen.DisplayNameIsLastPiece | adapters/ui/home_screen.py:80 | the name shown is the last piece after splitting at `/` and then at `\` |
| HomeScreen.DisplayNameFollowsSeparator | adapters/ui/home_screen.py:80 | unless it is the whole path, the name shown follows a slash of either kind |
| HomeScreen.FirstIndex | adapters/ui/home_screen.py:221-222 | the index found holds the path and no earlier entry does; there is none exactly when the path is absent |
| HomeScreen.RemoveFirst | adapters/ui/home_screen.py:221-222 | only the first occurrence is removed, the rest keep their order, and an absent path changes nothing |
| HomeScreen.MovedToTopLaw | adapters/ui/home_screen.py:217-229 | the path is on top, the others follow in their earlier order without its first occurrence, and the list is cut to 50 entries |
| HomeScreen.MovedToTopDistinct | adapters/ui/home_screen.py:217-229 | a list without repeated paths stays without them |
| HomeScreen.RemoveFirstKeepsPrefix | adapters/ui/home_screen.py:221-222 | removing the first occurrence of a path keeps every prefix that does not contain it |
| HomeScreen.BrowseKeepsSelectionOrder | adapters/ui/home_screen.py:262-267 | several distinct files (at most 50) end up on top in the order they were selected, the first selected first |
| HomeScreen.MovedToTop | adapters/ui/home_screen.py:217-229 | the opened path is first and the list holds one to fifty paths; `MovedToTopLaw` gives the rest |
| HomeScreen.BrowseAdded | adapters/ui/home_screen.py:262-267 | an empty selection changes nothing; otherwise the first selected file ends up first and the list holds one to fifty paths |
| HomeScreen.InitialRadio | adapters/ui/home_screen.py:38-44 | the button checked on opening names the stored value exactly when that value is one of the three engine names (`qt`, `mpv`, `vlc`) |
| HomeScreen.Notification | adapters/ui/home_screen.py:64-67 | the engine-change callback fires exactly when there is one and the saved engine differs from the loaded one, and it receives the saved engine |
| HomeScreen.UntouchedDialogNotifies | adapters/ui/home_screen.py:38-44 | saving an untouched dialog announces a change exactly when the stored value is none of the three engine names |
| HomeScreen.SettingsDialog.constructor | adapters/ui/home_screen.py:14-47 | the radio button checked matches the stored engine, falling back to QtMultimedia |
| HomeScreen.SettingsDialog.Check | adapters/ui/home_screen.py:30-32 | checking a radio button changes only the choice |
| HomeScreen.SettingsDialog.SaveSettings | adapters/ui/home_screen.py:52-69 | only the first call saves the chosen engine, notifies a change and accepts the dialog; later calls do nothing |
| HomeScreen.EngineName | adapters/ui/home_screen.py:58-62 | each engine saves under its own name: "mpv", "vlc" and "qt" stand for exactly one engine each |
| HomeScreen.OpenRecentList | adapters/ui/home_screen.py:195-199 | the recent list is read by calling `get_recent_videos` on the persistence object: it succeeds, with the stored list, exactly when the object has that method, and otherwise raises `AttributeError` naming the class and the method |
| HomeScreen.ProgramStoreCannotOpenHome | adapters/persistence/json_adapter.py:27-43 | the store the program builds offers neither `get_recent_videos` nor `save_recent_videos`, so opening the home screen with it raises |
| HomeScreen.Home.constructor | adapters/ui/home_screen.py:99-105 | the list starts with what the storage holds and is visible only when non-empty |
| HomeScreen.Home.LoadRecentVideos | adapters/ui/home_screen.py:195-204 | the list shows exactly the stored paths, in order, and is visible only when non-empty |
| HomeScreen.Home.CurrentListPaths | adapters/ui/home_screen.py:231-236 | the paths of the rows, in display order |
| HomeScreen.Home.AddRecentVideo | adapters/ui/home_screen.py:217-229 | the stored and shown list is the old one with the path moved to the top and cut to 50 |
| HomeScreen.Home.SaveRecentOrder | adapters/ui/home_screen.py:238-240 | the storage holds the rows in their displayed order |
| HomeScreen.Home.OnRowsMoved | adapters/ui/home_screen.py:188 | after a drag the storage holds the new order |
| HomeScreen.Home.RemoveRecentVideo | adapters/ui/home_screen.py:242-246 | that row alone is removed and the rest is saved; a row that does not exist changes nothing |
| HomeScreen.Home.ClearAllRecent | adapters/ui/home_screen.py:248-251 | the list and the storage are emptied and the list is hidden |
| HomeScreen.Home.OnItemClicked | adapters/ui/home_screen.py:253-256 | the clicked path moves to the top and is announced |
| HomeScreen.Home.BrowseFile | adapters/ui/home_screen.py:262-267 | a cancelled dialog changes nothing; otherwise every selected path is added, the last one first, and the selection is announced |
| PlayerScreen.Seconds | adapters/ui/player_screen.py:199 | the seconds field lies in 0..59 |
| PlayerScreen.Minutes | adapters/ui/player_screen.py:200 | the minutes field lies in 0..59 |
| PlayerScreen.ClockDecomposition | adapters/ui/player_screen.py:199-201 | hours, minutes and seconds together make up the whole seconds of the position |
| PlayerScreen.PaddedField | adapters/ui/player_screen.py:203-204 | a zero-padded field is a run of at least two digits that reads back as its value |
| PlayerScreen.FormatTimeShort | adapters/ui/player_screen.py:198-204 | below one hour the text is two digits of minutes, a colon and two digits of seconds, reading back as the position's minutes and seconds |
| PlayerScreen.LongFields | adapters/ui/player_screen.py:203 | the hours, minutes and seconds of the three-field form read back at their places between the colons |
| PlayerScreen.FormatTimeLong | adapters/ui/player_screen.py:198-203 | from one hour on the text is hours (two digits or more), minutes and seconds separated by colons, each reading back as its field |
| PlayerScreen.TimeLabelShortForm | adapters/ui/player_screen.py:206 | below one hour for both times the label is 13 characters with ` / ` between the two times |
| PlayerScreen.FormatTime | adapters/ui/player_screen.py:197-203 | `mm:ss` is five characters below an hour; from an hour on the text is at least `hh:mm:ss`, with colons before the last two fields |
| PlayerScreen.TimeLabel | adapters/ui/player_screen.py:205 | the label is both times joined by ` / `, at least thirteen characters |
| PlayerScreen.ClampToSlider | adapters/ui/player_screen.py:231 | the slider value stays within its range, and a value within the range is kept |
| PlayerScreen.ToggleCall | adapters/ui/player_screen.py:208-212 | the play button pauses exactly when the player is playing, and plays otherwise |
| PlayerScreen.Screen.constructor | adapters/ui/player_screen.py:18-130 | a fresh screen with the slider at 0, the label `00:00 / 00:00` and the button reading Play |
| PlayerScreen.Screen.OnPositionChanged | adapters/ui/player_screen.py:229-234 | ignored while the slider is held; otherwise the slider moves to the position and the label shows it against the duration |
| PlayerScreen.Screen.OnDurationChanged | adapters/ui/player_screen.py:172-176 | the duration is always stored; the slider range changes only for a positive duration; the label is refreshed |
| PlayerScreen.Screen.OnPlaybackStateChanged | adapters/ui/player_screen.py:178-183 | the state is stored and the button reads Pause exactly when playing |
| PlayerScreen.Screen.OnMediaStatusChanged | adapters/ui/player_screen.py:185-193 | tracks are listed once loaded; at the end the video is closed with its progress reset and the screen goes back; other statuses do nothing |
| PlayerScreen.Screen.TogglePlay | adapters/ui/player_screen.py:208-212 | one call to the service, pause exactly when playing |
| PlayerScreen.Screen.StopVideo | adapters/ui/player_screen.py:214-216 | the video is closed, keeping its progress, and the screen goes back |
| PlayerScreen.Screen.OnSliderPressed | adapters/ui/player_screen.py:218-219 | the slider is marked as held and nothing else changes |
| PlayerScreen.Screen.MoveSlider | adapters/ui/player_screen.py:225-227 | the slider takes the value, and the label previews it only while the slider is held |
| PlayerScreen.Screen.OnSliderReleased | adapters/ui/player_screen.py:221-223 | the slider is released and one seek goes to the slider's value |
| PlayerScreen.Drag | adapters/ui/player_screen.py:218-234 | after press, move, any position reports and release, the one seek goes to where the user left the slider, whatever the player reported meanwhile |
| TelegramVideoListScreen.CaptionSource | adapters/ui/telegram/telegram_video_list_screen.py:172-174 | the caption is never empty |
| TelegramVideoListScreen.CaptionIgnoresFile | adapters/ui/telegram/telegram_video_list_screen.py:172-174 | the caption is the message text when there is one and `Video sin título` otherwise; the attached file never matters |
| TelegramVideoListScreen.Truncate | adapters/ui/telegram/telegram_video_list_screen.py:176 | a caption of up to 50 characters is shown whole; a longer one shows its first 50 characters followed by `...` |
| TelegramVideoListScreen.FirstDuration | adapters/ui/telegram/telegram_video_list_screen.py:185-188 | there is no duration exactly when no attribute has one |
| TelegramVideoListScreen.FirstDurationIsFirst | adapters/ui/telegram/telegram_video_list_screen.py:185-188 | the duration found is that of the first attribute that has one, whatever follows it |
| TelegramVideoListScreen.FindDuration | adapters/ui/telegram/telegram_video_list_screen.py:181-188 | the loop returns the first attribute's duration of the message's document, stopping there, and none without a document |
| TelegramVideoListScreen.DateTextReadsBack | adapters/ui/telegram/telegram_video_list_screen.py:193 | for a four-digit year the date text is 16 characters, `/`, `/`, space and `:` at fixed places, and day, month, year, hour and minute read back from their places |
| TelegramVideoListScreen.MetaLineParts | adapters/ui/telegram/telegram_video_list_screen.py:190-196 | the date is always last; the line is the date alone exactly when there is no duration; otherwise it starts with the `m:ss` duration and the bullet |
| TelegramVideoListScreen.BuildItems | adapters/ui/telegram/telegram_video_list_screen.py:137-146 | one item per message, in order |
| TelegramVideoListScreen.Duration | adapters/ui/telegram/telegram_video_list_screen.py:181-188 | a duration is found exactly when the message has a document with an attribute that has one |
| TelegramVideoListScreen.DateText | adapters/ui/telegram/telegram_video_list_screen.py:193 | `%d/%m/%Y %H:%M` has the padded day, then `/`, and is at least thirteen characters |
| TelegramVideoListScreen.MetaLine | adapters/ui/telegram/telegram_video_list_screen.py:190-196 | the line is the date alone without a duration, and the duration, ` • ` and the date with one |
| TelegramVideoListScreen.Item | adapters/ui/telegram/telegram_video_list_screen.py:156-196 | an item keeps its message and has a non-empty caption of at most 53 characters |
| TelegramVideoListScreen.Screen.constructor | adapters/ui/telegram/telegram_video_list_screen.py:44-47 | no chat, an empty list and nothing requested or shown |
| TelegramVideoListScreen.Screen.LoadVideos | adapters/ui/telegram/telegram_video_list_screen.py:91-106 | the chat and title are taken, the list is emptied and the last 50 messages of the chat (and thread) are requested |
| TelegramVideoListScreen.Screen.ShowVideos | adapters/ui/telegram/telegram_video_list_screen.py:120-146 | an empty result only shows the `Vacío` notice and leaves the list as it was; otherwise the list holds one item per message, in order |
| TelegramVideoListScreen.Screen.OnVideosLoaded | adapters/ui/telegram/telegram_video_list_screen.py:108-118 | the spinner goes away; the messages are shown, or the failure is reported with its message and the list is left as it was |
| TelegramVideoListScreen.Screen.OnPlayClicked | adapters/ui/telegram/telegram_video_list_screen.py:148-149 | the play button of an item announces that item's message object and its chat id |
| TelegramBrowseScreen.Listed | adapters/ui/telegram/telegram_browse_screen.py:116-141 | the filter never lists more chats than were loaded |
| TelegramBrowseScreen.ListedMembers | adapters/ui/telegram/telegram_browse_screen.py:117-121 | a chat is listed exactly when it was loaded and the search is empty or its lower-cased title (`Unknown` without one) contains the lower-cased, stripped search text |
| TelegramBrowseScreen.ListedKeepsOrder | adapters/ui/telegram/telegram_browse_screen.py:119-141 | filtering splits over concatenation, so the listed chats keep their loaded order |
| TelegramBrowseScreen.EmptySearchListsAll | adapters/ui/telegram/telegram_browse_screen.py:121 | an empty search lists every chat |
| TelegramBrowseScreen.Items | adapters/ui/telegram/telegram_browse_screen.py:126-141 | one row per chat listed, carrying its id, the channel or group icon and its title |
| TelegramBrowseScreen.TitleOf | adapters/ui/telegram/telegram_browse_screen.py:120 | a chat's title is shown, `Unknown` when it has none |
| TelegramBrowseScreen.SearchText | adapters/ui/telegram/telegram_browse_screen.py:117 | the search text is no longer than the input, has no upper-case ASCII letter and no whitespace at either end |
| TelegramBrowseScreen.Matches | adapters/ui/telegram/telegram_browse_screen.py:121 | an empty search matches every chat; a non-empty one matches only titles at least as long as it |
| TelegramBrowseScreen.Item | adapters/ui/telegram/telegram_browse_screen.py:126-141 | an item carries the chat's id and title, with the channel icon exactly for broadcasts |
| TelegramBrowseScreen.FirstWithId | adapters/ui/telegram/telegram_browse_screen.py:147 | no chat is found exactly when no loaded chat has the id |
| TelegramBrowseScreen.FirstWithIdIsFirst | adapters/ui/telegram/telegram_browse_screen.py:147 | the chat found is the first with that id, whatever follows it |
| TelegramBrowseScreen.FilterLoop | adapters/ui/telegram/telegram_browse_screen.py:119-141 | the loop builds exactly the rows of the chats that match, in order |
| TelegramBrowseScreen.Screen.constructor | adapters/ui/telegram/telegram_browse_screen.py:23-26 | no chats, no rows, nothing requested or selected |
| TelegramBrowseScreen.Screen.LoadChats | adapters/ui/telegram/telegram_browse_screen.py:77-89 | the list is emptied and 100 chats are requested |
| TelegramBrowseScreen.Screen.FilterChats | adapters/ui/telegram/telegram_browse_screen.py:111-142 | with no chats loaded the list is left as it is; otherwise it shows exactly the chats matching the normalised search text, in order |
| TelegramBrowseScreen.Screen.ShowChats | adapters/ui/telegram/telegram_browse_screen.py:104-108 | the chats are stored and, when there are any, every one of them is listed |
| TelegramBrowseScreen.Screen.OnChatsLoaded | adapters/ui/telegram/telegram_browse_screen.py:91-102 | the spinner goes away; the chats are shown, or the failure is reported with its message |
| TelegramBrowseScreen.Screen.OnItemClicked | adapters/ui/telegram/telegram_browse_screen.py:144-149 | the first loaded chat with the row's id is announced, and nothing when no chat has it |
| TelegramMainScreen.ShortTitle | adapters/ui/telegram/telegram_main_screen.py:99 | a title of up to 35 characters is shown whole; a longer one shows its first 32 characters and `...`, 35 in all |
| TelegramMainScreen.DurationTextReadsBack | adapters/ui/telegram/telegram_main_screen.py:105-107 | the duration text is the minutes in decimal, a colon and two digits of seconds, and minutes times 60 plus the seconds read back give the duration |
| TelegramMainScreen.MetaTextReadsBack | adapters/ui/telegram/telegram_main_screen.py:107 | the meta text is the duration text followed by the bullet and the chat's name |
| TelegramMainScreen.ProgressText | adapters/ui/telegram/telegram_main_screen.py:115-116 | a progress label is shown exactly when the percentage is positive |
| TelegramMainScreen.ProgressTextReadsBack | adapters/ui/telegram/telegram_main_screen.py:116 | the label is a whole number followed by `%`, and that number is the whole part of the percentage |
| TelegramMainScreen.RecentRowsLaw | adapters/ui/telegram/telegram_main_screen.py:277-298 | one to 20 rows; only the placeholder exactly when there is no recent video; otherwise one row per recent video, most recently played first |
| TelegramMainScreen.BuildRows | adapters/ui/telegram/telegram_main_screen.py:289-298 | one row per video, in order |
| TelegramMainScreen.DurationText | adapters/ui/telegram/telegram_main_screen.py:105-107 | the duration ends in `:` and two digits of seconds; `DurationTextReadsBack` reads them back |
| TelegramMainScreen.MetaText | adapters/ui/telegram/telegram_main_screen.py:107 | the meta line is the duration, ` • ` and the chat title, ending with the title |
| TelegramMainScreen.Row | adapters/ui/telegram/telegram_main_screen.py:99-116 | a row carries the video's key, a title of at most 35 characters, and a progress text exactly when progress is positive |
| TelegramMainScreen.RecentRows | adapters/ui/telegram/telegram_main_screen.py:281-298 | the list shows one to twenty rows, and only the placeholder when there are no videos; `RecentRowsLaw` gives the rows |
| TelegramMainScreen.MainScreen.constructor | adapters/ui/telegram/telegram_main_screen.py:141-150 | both lists start empty and nothing has been announced |
| TelegramMainScreen.MainScreen.Refresh | adapters/ui/telegram/telegram_main_screen.py:251-254 | both columns show what the two managers hold |
| TelegramMainScreen.MainScreen.RefreshRecentVideos | adapters/ui/telegram/telegram_main_screen.py:277-301 | the recent list shows the rows for the manager's videos and nothing else changes |
| TelegramMainScreen.MainScreen.RefreshFavorites | adapters/ui/telegram/telegram_main_screen.py:256-275 | the hint when there are no favourites, otherwise one card per favourite, most recently accessed first |
| TelegramMainScreen.MainScreen.OnChannelClicked | adapters/ui/telegram/telegram_main_screen.py:303-306 | the channel's access time is updated (nothing changes for an unknown channel) and its id is announced |
| TelegramMainScreen.MainScreen.OnVideoClicked | adapters/ui/telegram/telegram_main_screen.py:308-310 | the video's key is announced |
| TelegramMainScreen.MainScreen.OnRecentItemClicked | adapters/ui/telegram/telegram_main_screen.py:312-317 | a video row announces its key and the placeholder announces nothing |
| TelegramMainScreen.MainScreen.OnRemoveFavorite | adapters/ui/telegram/telegram_main_screen.py:319-322 | the channel is removed from the favourites and the column rebuilt from what remains |
| TelegramMainScreen.MainScreen.OnRemoveRecent | adapters/ui/telegram/telegram_main_screen.py:331-334 | the video is removed from the recent list and the rows rebuilt from what remains |
| TelegramMainScreen.MainScreen.OnClearRecent | adapters/ui/telegram/telegram_main_screen.py:336-339 | the recent videos are all gone and only the placeholder is listed |
| PyStr.NatToString | scripts/obfuscate_credentials.py:37 | the decimal text of a non-negative number is a non-empty run of digits, without a leading zero, that reads back as the number |
| PyStr.IntToString | scripts/obfuscate_credentials.py:37 | the decimal text of an integer is non-empty, starts with a minus sign exactly for a negative number and is otherwise digits |
| PyStr.IntToStringInjective | scripts/obfuscate_credentials.py:37 | distinct integers never print the same |
| PyStr.ParseIntOfIntToString | scripts/obfuscate_credentials.py:80 | `int(str(n))` is `n` for every integer |
| PyStr.ParseHexOfHexDigits | adapters/telegram/config.py:75 | `int(s, 16)` accepts any non-empty run of hexadecimal digits |
| PyStr.Pad2 | adapters/ui/player_screen.py:203-204 | a zero-padded number is at least two digits that read back as the number, exactly two below 100 |
| PyStr.Strip | adapters/ui/telegram/telegram_browse_screen.py:117 | a stripped text neither starts nor ends with whitespace |
| PyStr.StripNoSpaceEnds | adapters/ui/telegram/telegram_browse_screen.py:117 | a text without whitespace at either end is left as it is |
| PyStr.Lower | adapters/ui/telegram/telegram_browse_screen.py:117 | lower-casing keeps the length and lowers each character |
| PyStr.Split | adapters/ui/home_screen.py:80 | the pieces hold no separator; without a separator the text is the only piece, with one there are at least two |
| PyStr.JoinSplit | adapters/ui/home_screen.py:80 | joining the pieces with the separator gives the text back |
| PyStr.LastPieceIsAfterLast | adapters/ui/home_screen.py:80 | the last piece is the text after the last separator |
| PyStr.ParseInt | adapters/telegram/config.py:39 | `int(s)` succeeds only on a text that is not blank; `ParseIntOfIntToString` and `ParseHexOfHexDigits` give the accepted forms |
| PyStr.TakePrefix | adapters/telegram/recent_videos.py:95 | the slice `s[:n]` is a prefix of `s` of length `min(n, |s|)` for `n >= 0` and `max(|s| + n, 0)` for negative `n` |
| PyStr.StripKeepsAll | adapters/ui/telegram/telegram_browse_screen.py:117 | `strip` only removes characters: a property of every character survives it |
| PyStr.ContainsLength | adapters/ui/telegram/telegram_browse_screen.py:121 | a text containing `sub` is at least as long as `sub` |
| Base64.EncodeAlphabet | scripts/obfuscate_credentials.py:43 | every character of an encoding is in the alphabet of RFC 4648 or is the padding `=` |
| Base64.DecodeEncode | scripts/obfuscate_credentials.py:75-76 | decoding an encoding gives the bytes back |
| Base64.DecodeDropsUnusedBits | scripts/obfuscate_credentials.py:76 | a final one-byte group with non-zero unused bits decodes as the canonical group with those bits cleared: `AB==` gives the same byte as `AA==` |
| Base64.Encode | scripts/obfuscate_credentials.py:43 | an encoding has four characters for every started group of three bytes |
| Base64.Decode | scripts/obfuscate_credentials.py:75-76 | a decoding has between `(3 * |s| - 8) / 4` and `3 * |s| / 4` bytes; `DecodeEncode` gives the round trip |
| Utf8.EncodeChar | scripts/obfuscate_credentials.py:37 | a character takes one to four bytes, exactly one (its own code) when it is ASCII |
| Utf8.EncodeAppend | scripts/obfuscate_credentials.py:37 | encoding a concatenation is the concatenation of the encodings |
| Utf8.DecodeEncode | scripts/obfuscate_credentials.py:78 | decoding the encoding of a text gives the text back |
| Utf8.Encode | scripts/obfuscate_credentials.py:37 | a text encodes to at least one byte per character |
| Utf8.Decode | scripts/obfuscate_credentials.py:78 | a decoded text has at most one character per byte |
| Bytes.XorInvolutive | scripts/obfuscate_credentials.py:41 | XORing a byte twice with the same byte gives it back |

## Left out

- Threads, the asyncio event loop, `asyncio.sleep` polling, `Queue` thread safety and Qt's cross-thread signal delivery. Only the sequential queue and callback bookkeeping are modelled; the worker loop takes the remote outcomes of its tasks as an input sequence, and the thread join timeout of `stop` is not modelled: a thread that outlives it could run beside the next one, while the model has one thread at a time.
- AsyncWorker.Worker.RunLoop: the task handlers test `self._client.is_connected` without calling it, like tdlib_client.py:151 (adapters/telegram/async_worker.py:197, 257, 264, 279, 297), so the worker never reconnects a client whose connection dropped. The outcome of each task is an input of the loop, so that reconnect path, and what a dropped connection does to a task, are not modelled.
- AsyncWorker.Worker.Boot: the directory creation, the client construction and the `_cleanup` disconnect after a failed start-up are left out. The proxy start at adapters/telegram/async_worker.py:161-168 catches its own failure and does not decide whether the worker comes up; whether a proxy exists is a parameter of `ExecuteStreamUrl`.
- The Telegram operations of `_execute_task` other than GET_STREAM_URL (chats, history, topics, QR login, password) are remote library calls. Their results are inputs of the worker loop. The final `return None` for an unknown operation (adapters/telegram/async_worker.py:333) cannot be reached: every operation other than STOP has a branch that returns or raises, and the loop stops at STOP before executing it.
- The aiohttp server lifecycle and the Telethon download are left out. The downloader is a finite sequence of chunks; each write either succeeds or fails, as an input. An exception the downloader raises mid-stream is not modelled.
- The proxy's health endpoint is left out.
- SQLite, `shutil.disk_usage`, `Path.exists` and `Path.unlink` become an in-memory index, a set of existing paths, a set of paths whose unlink raises, and the disk figures as inputs. `get_disk_info`, `get_cache_stats`, `free_percent`, `format_size` and `close` are left out: floating-point display arithmetic, or connection handling.
- CacheManager.TelegramCacheManager.Cleanup: when a chosen row's file cannot be unlinked, the source's size loop never ends. The model reports that case as `Hangs` and makes no claim about what the source does afterwards.
- The JSON file, the OS keyring with its Fernet encryption, and `load_dotenv` are left out. The stores are modelled as the value last saved. The recent and favourites managers read their storage once at construction, where the source reads it lazily on first use.
- HomeScreen.Home: the screen reads and writes its list through `get_recent_videos` and `save_recent_videos` (adapters/ui/home_screen.py:197, 228, 240, 250), which no persistence class in the program defines; the program passes it a `JsonPersistenceAdapter`, so as written the constructor raises `AttributeError` (see Findings). `Home` models the screen against a store that has these two methods and returns exactly the list last saved.
- `generate_embedded_file` and the command-line `main` of scripts/obfuscate_credentials.py write files and parse arguments. They are left out.
- `secrets.token_bytes(32)` becomes a key parameter of 32 bytes.
- The player back ends (VLC, MPV, QtMultimedia) are left out. They are thin wrappers over native libraries; the service sees a player through the calls it makes.
- The login, storage-settings and topic-list screens, the main window and `main.py` are left out. They hold widget construction and navigation with no logic beyond what is modelled here.
- `populate_tracks`, the track combo boxes, full-screen mode, the control hide timer and the Windows transparency code of the player screen are left out: they are widget state.
- The success and info notices that the main screen shows after removing a favourite or clearing the recent list are left out.
- DomainModels.Basename: `os.path.basename` is modelled as POSIX `posixpath.basename`, splitting at '/' only. On Windows, where the program also runs, `ntpath.basename` splits at `\` as well and after a drive colon (`C:video.mp4`); those paths are not modelled.
- PyStr.Lower lowers ASCII letters only, where Python's `str.lower` lowers every cased Unicode character.
- PyStr.ParseInt accepts ASCII digits only, where Python's `int()` also accepts other Unicode decimal digits.
- Base64.Decode models `b64decode` on padded input made of the alphabet; like Python it drops the unused low bits of a final group (`DecodeDropsUnusedBits`). Python also discards characters outside the alphabet before decoding; the model returns None for any input that holds one. Its contract bounds the decoded length between `(3 * |s| - 8) / 4` and `3 * |s| / 4` but does not state that `|s|` is a multiple of four.
- TelegramVideoListScreen.DateText: `%Y` is modelled as the decimal year without padding, and its read-back lemma is stated for four-digit years.
- TelegramVideoListScreen.CaptionSource: the file-name fallback at adapters/ui/telegram/telegram_video_list_screen.py:173-174 can never run, because an empty text has already become `Video sin título`. The model keeps the branch and proves that the file never matters.
- TelegramVideoListScreen.FindDuration: `int(attr.duration)` on a fractional duration is not modelled. Durations are integers in the model.

## Findings

| source | as written | input that shows it | evidently intended | confidence | as-written member | corrected member |
|---|---|---|---|---|---|---|
| adapters/ui/home_screen.py:197 | the constructor calls `persistence.get_recent_videos()`, and later saves call `save_recent_videos`, on the object the main window passes in | the `JsonPersistenceAdapter` built at main.py:48, which has only the progress and setting methods of its port; the call raises `AttributeError` before the screen exists | a store that offers both recent-list methods, from which the screen shows exactly the list last saved | high; not executed | HomeScreen.ProgramStoreCannotOpenHome | HomeScreen.Home.constructor |
| adapters/telegram/tdlib_client.py:151 | the guard reads `self._client.is_connected` without calling it; a bound method is always true, so only a missing client is initialized | a first connect that raises "timeout", then `check_authorization` with a server that would connect and authorize: the existing, unconnected client is asked, the call raises, and the answer is false | a client that is not connected is initialized again before the check (`is_connected()`), so the answer is true | high; not executed | TdlibClient.Client.CheckAuthorizationAsWritten | TdlibClient.Client.CheckAuthorization |
| adapters/telegram/tdlib_client.py:231 | the guard of `logout` reads `self._client.is_connected` without calling it, so any client is logged out and dropped | the same failed first connect, then `logout`: the unconnected client is dropped | only a connected client is logged out and dropped (`is_connected()`) | high; not executed | TdlibClient.Client.LogoutAsWritten | TdlibClient.Client.Logout |
