# Global chat: relay, reconciler and REST rules

A model of a small real-time chat with peer-to-peer calls. It has three parts.

- **Client** (`App.jsx`). This part decides what happens to each inbound socket event:
  - chat from someone else is appended to the transcript;
  - the user's own echo is ignored;
  - call-negotiation signals drive the peer connection;
  - other `rtc_` types are dropped.

  It also covers sending text and files optimistically, and starting and answering a call.
- **Relay** (`consumers.py`). Signals are forwarded to the whole group as they came and are never stored. A chat message is stored first, then broadcast in a fixed six-key shape stamped `Today, HH:MM:SS`.
- **REST rules** (`views.py`):
  - registration;
  - file upload, which never overwrites a stored file;
  - the history: the fifty most recent messages, oldest first, each labelled `Today`, `Yesterday` or with its full date.

Modules:

| module | file | what it holds |
|---|---|---|
| `Wire` | `wire.dfy` | JSON values and objects. An absent key is distinct from a key holding null. |
| `TimeFormat` | `timefmt.dfy` | Local instants, day numbers, and `%H:%M:%S` with its parse round trip. |
| `Composer` | `composer.dfy` | JavaScript's `String.prototype.trim`. |
| `Render` | `render.dfy` | `renderMessage`: address resolution and element choice. |
| `Client` | `client.dfy` | Inbound routing, outbound objects, file classification, and the `ChatClient` class with one method per handler. |
| `Transcript` | `transcript.dfy` | Whole sessions replayed action by action, and the exactly-once display guarantee. |
| `Store` | `store.dfy` | The accounts and the message table, and the media storage, as classes. |
| `Consumers` | `consumers.dfy` | The relay, as a pure function and as the `ChatConsumer` class that changes the store and the group. |
| `Views` | `views.dfy` | Registration, upload, and the history window and labels. |
| `EndToEnd` | `endtoend.dfy` | Client and relay composed: message round trip and call handshake. |

The browser's and the server's environment enter as parameters:
- the user's answer to the call prompt;
- whether the camera and microphone are granted;
- the session descriptions the browser generates (`None` when that fails);
- the upload reply (`None` when the request fails);
- the alternate names the media storage draws when a name is taken, and its address mapping;
- the clock.

## Model

| member | source | states |
|---|---|---|
| `Client.RouteOf` | App.jsx:53-69 | A peer's offer, answer or candidate is routed as such exactly when its type is that string and its sender is someone else. The handler throws exactly when `msg_type` is not a string. An event is the local user's echo exactly when its type is a non-`rtc_` string and it carries the local username. |
| `Client.Intake` | App.jsx:49-76 | An event is appended to the transcript exactly when its route is peer chat. Nothing else changes, and nothing is ever removed. |
| `Client.ChatIff` | App.jsx:65-74 | An event is chat exactly when its `msg_type` is a string outside the `rtc_` family and its sender is not the local user. |
| `Client.OwnEventsInert` | App.jsx:53-73 | An event carrying the local username is never appended and never drives the peer connection. |
| `Client.SignalsNeverChat` | App.jsx:53-69 | No `rtc_` event enters the transcript. Unknown `rtc_` types are dropped. |
| `Client.TextEntry` | App.jsx:109-114 | The text object carries the text, the sender and the time. Its sender sees it as an echo, and everyone else sees it as chat. |
| `Client.OfferEvent` | App.jsx:101 | The offer carries the description and the call mode. Its sender drops it, and everyone else routes it as an offer. |
| `Client.AnswerEvent` | App.jsx:61 | The answer carries the description. Its sender drops it, and everyone else routes it as an answer. |
| `Client.CandidateEvent` | App.jsx:86 | The candidate event carries the candidate. Its sender drops it, and everyone else routes it as a candidate. |
| `Client.TopLevel` | App.jsx:135 | `split('/')[0]` is the longest slash-free prefix of the MIME type, followed by a slash or by the end. |
| `Client.FileKind` | App.jsx:139 | The message type of an upload is always `image`, `video` or `file`. |
| `Client.FileKindIff` | App.jsx:135-139 | An upload is typed `image` (or `video`) exactly when its MIME type is that word alone or starts with that word and a slash. It is never typed `audio`. |
| `Client.FileEntry` | App.jsx:137-143 | The optimistic file entry has the file's type, the local preview address, the sender and the time. Its sender sees it as an echo. |
| `Client.FileAnnouncement` | App.jsx:155-160 | The announcement has the file's type and the server's address. Its sender sees it as an echo, and everyone else sees it as chat. |
| `Client.AnnouncementMatchesEntry` | App.jsx:137-160 | The republished upload has the optimistic entry's sender, type and text. Only the address differs, and it has no timestamp. |
| `Client.ChatClient.constructor` | App.jsx:9-23 | Empty transcript, buffer and outbox, no stream, no peer connection, null call type. |
| `Client.ChatClient.Edit` | App.jsx:13 | The input buffer holds the typed text. |
| `Client.ChatClient.StartLocalStream` | App.jsx:79-93 | A granted stream is kept and a new peer connection replaces the current one. A refusal raises the hardware alert and changes nothing else. |
| `Client.ChatClient.HandleCall` | App.jsx:95-103 | After a stream is granted, the call type is set. An offer is applied locally to the new connection and then sent. Without a stream, only the alert is raised. |
| `Client.ChatClient.IceCandidate` | App.jsx:86 | Each gathered candidate is sent with the sender's name. The final null candidate is not sent. |
| `Client.ChatClient.AcceptOffer` | App.jsx:55-62 | After a stream is granted, the call type is set from the offer. The remote offer and then the generated answer are applied to the new connection, and the answer is sent. A refusal raises only the hardware alert. |
| `Client.ChatClient.Receive` | App.jsx:49-76 | For every event it gives the route and the transcript intake, and for each route the exact effect on the outbox, alerts, stream, connections, and the description and candidate calls on them. An accepted offer gets a new connection; the remote offer and then the local answer are applied, and the answer is sent. A peer's answer or candidate is applied to the current connection only if one exists. |
| `Client.ChatClient.SendMessage` | App.jsx:106-126 | A blank buffer changes nothing. A non-blank one is appended, cleared, and sent as the same object. |
| `Client.ChatClient.FileUpload` | App.jsx:129-164 | With no file, nothing happens. Otherwise the optimistic preview is appended. Then either the server address is announced or the upload alert is raised. |
| `Composer.TrimStart` | App.jsx:107 | Removes exactly the leading white space. |
| `Composer.TrimEnd` | App.jsx:107 | Removes exactly the trailing white space. |
| `Composer.Trim` | App.jsx:107 | The trimmed text is no longer than the input. When it is not empty, it starts and ends with a non-space character. |
| `Composer.TrimEmptyIff` | App.jsx:107 | A message counts as blank exactly when every character is ECMAScript white space. |
| `Composer.TrimIsInfix` | App.jsx:107 | The trimmed text is a slice of the input with only white space around it. |
| `Render.FullUrl` | App.jsx:189-191 | The resolved address is always absolute. Resolution throws exactly when `media_url` is present and is neither a string nor null. |
| `Render.RenderMessage` | App.jsx:187-198 | Rendering throws exactly when resolution does. The fallback shows the `message` field. |
| `Render.PassThroughIff` | App.jsx:189-191 | A string address passes through unchanged exactly when it starts with `blob:` or `http`. Otherwise it is prefixed with the backend address. |
| `Render.ResolveIdempotent` | App.jsx:189-191 | Resolving an already-resolved address changes nothing. |
| `Render.DispatchByType` | App.jsx:193-197 | Image, video, audio and file types pick their element, each exactly for that type. Every other type shows the text. |
| `Transcript.Step` | App.jsx:49-164 | Each handler only appends, at most one entry. |
| `Transcript.Apply` | App.jsx:49-164 | Performing one action on a `ChatClient` changes its transcript exactly as `Step` says. |
| `Transcript.Run` | App.jsx:49-164 | A fresh `ChatClient` run over any session ends with exactly the replayed transcript. This carries the session lemmas over to the class. |
| `Transcript.StepSplits` | App.jsx:49-164 | One action adds its optimistic entry to the local user's entries and its peer chat event to everyone else's. |
| `Transcript.ExactlyOnce` | App.jsx:70-72 | Over any session, the local user's entries are exactly their optimistic sends and uploads, in order. Everyone else's entries are exactly the inbound peer chat events, in order. |
| `Transcript.OnlyGrows` | App.jsx:72 | A longer session's transcript extends the transcript of any prefix of it. |
| `Transcript.EchoIdempotent` | App.jsx:71 | An echo of one's own message leaves the transcript unchanged, however often it arrives. |
| `Transcript.SendThenEcho` | App.jsx:106-126 | Sending non-blank text and then receiving its echo adds exactly the sent entry. |
| `Store.Database.CreateUser` | views.py:26 | Adds the account and keeps the others. |
| `Store.Database.Insert` | consumers.py:51-56 | Appends the row and keeps the others. |
| `Store.FirstFree` | views.py:42 | The chosen name is not stored yet. It comes from the candidates, and every candidate before it is taken. |
| `Store.Storage.Save` | views.py:42 | The saved name is the first free candidate. It is the requested name exactly when that name is free. It is new, and it is the only name added. |
| `Consumers.IsSignal` | consumers.py:22 | The three signal types all lie in the client's `rtc_` family. |
| `Consumers.SignalEvent` | consumers.py:23-29 | The forwarded signal carries every key the client sent, with its value. `type` is `chat_message` unless the client supplied its own. |
| `Consumers.ChatEvent` | consumers.py:36-46 | The chat broadcast has exactly the six keys. Its type is `chat_message` and its stamp is `Today, ` plus the time. |
| `Consumers.Sender` | consumers.py:50 | The lookup finds an account exactly when the `username` field is a string naming one. |
| `Consumers.SavedRow` | consumers.py:48-56 | The row belongs to the found user and carries the instant it is created at. Each field the client sent is stored as sent. An absent message or address is stored as empty, and an absent type as `text`. |
| `Consumers.Relay` | consumers.py:17-46 | Forwarded exactly for the three signal types. The user is missing exactly for a non-signal with no matching account. A stored row belongs to the named sender. It carries the creation instant, while the broadcast is stamped with the later clock read. |
| `Consumers.SignalForwardedIntact` | consumers.py:22-30 | A signal reaches the group with all of its fields intact. |
| `Consumers.ChatShapeFixed` | consumers.py:36-46 | The broadcast drops extra keys. It carries the sent text, sender and type, and an empty address when none was sent. |
| `Consumers.RowDefaults` | consumers.py:51-56 | Stored defaults apply only to absent keys: an empty message, type `text`, and an empty address. A key sent as null is stored as null. |
| `Consumers.MissingTypeDiverges` | consumers.py:42-54 | A message without `msg_type` is stored as `text` but broadcast with a null type. |
| `Consumers.Deliver` | consumers.py:58-59 | A delivered event is the group event itself, unchanged. |
| `Consumers.ChatHandlers` | consumers.py:58 | Both `chat_message` and `chat.message` name the `chat_message` handler once each `.` becomes `_`. |
| `Consumers.ChatHandlerOnly` | consumers.py:58 | No other type names the `chat_message` handler. |
| `Consumers.DeliverIff` | consumers.py:58-59 | An event reaches the socket exactly when its `type` is `chat_message` or `chat.message`. |
| `Consumers.DeliveryIff` | consumers.py:26-59 | Chat broadcasts are always delivered. A signal is delivered exactly when the client sent no `type`, or sent `chat_message` or `chat.message`. |
| `Consumers.ChatConsumer.Receive` | consumers.py:17-56 | The outcome is `Relay` of the data against the accounts and the two clock reads. A signal is sent and not stored. A chat message is stored and then sent. A missing user stores and sends nothing. |
| `Views.Register` | views.py:14-27 | Missing or empty fields give a 400 with the field error. A name that is taken as sent gives a 400 without any change. A name that is new as sent but taken once normalised gives a server error without any change. Otherwise the normalised name is added, the count grows by one, and the reply is 201. |
| `Views.UploadFile` | views.py:34-45 | 400 with the error and no change to the storage exactly when no `file` part is present. Otherwise 201 with the address of the name the storage chose. That name is the first free one among `uploads/<name>` and the alternates. It was not stored before, and it is the only one added. |
| `Views.RepeatUploadRenamed` | views.py:42 | A second upload of the same file name is stored under a name different from the first copy's and from `uploads/<name>`, so neither overwrites the other. |
| `Views.Label` | views.py:62-73 | `Today, …` exactly for the current day and `Yesterday, …` exactly for the day before. Otherwise the full date, with the time of day in every case. |
| `Views.Insert` | views.py:51 | Inserting keeps the rows newest first and is a permutation plus the new row. |
| `Views.ByTimeDesc` | views.py:51 | `order_by('-timestamp')`: newest first and a permutation of the table. |
| `Views.Recent` | views.py:51 | `[:50]` holds fifty rows, or all of them when there are fewer. |
| `Views.PrefixIsNewest` | views.py:51 | No row after a cut of a newest-first sequence is later than a row before it. |
| `Views.RecentIsNewest` | views.py:51 | The window is newest first, drawn from the table, and no row left out is later than one kept. |
| `Views.EntryOf` | views.py:75-81 | An entry keeps its row's sender, text, type and address. Its stamp is text exactly when the row is from today or yesterday. |
| `Views.Reverse` | views.py:60 | `reversed` puts element `i` at position `n-1-i` and keeps the multiset. |
| `Views.History` | views.py:47-82 | The reply has one entry per windowed row. |
| `Views.GetChatHistory` | views.py:47-82 | The loop over the reversed window builds exactly the history reply. |
| `Views.ReverseOldestFirst` | views.py:60 | Reversing a newest-first window gives oldest first. |
| `Views.HistoryWindow` | views.py:50-60 | The history shows the fifty most recent messages, or all of them, oldest first, and leaves out nothing later than what it shows. |
| `Views.HistoryEntries` | views.py:62-81 | Each entry keeps its row's sender, text, type and address, and carries the row's day label. |
| `TimeFormat.DayBounds` | views.py:63 | The day number is that of the day containing the instant. |
| `TimeFormat.TimeOfDay` | views.py:62-64 | The time of day is within one day. |
| `TimeFormat.InstantSplit` | views.py:62-64 | An instant is its day number times a day plus its time of day. |
| `TimeFormat.Hms` | views.py:64 | `%H:%M:%S` is eight characters with colons at positions 2 and 5. |
| `TimeFormat.HmsRoundTrip` | consumers.py:44 | Reading back the formatted time of day gives the time of day. |
| `TimeFormat.HmsInjective` | views.py:64 | Different times of day render differently. |
| `TimeFormat.Labelled` | views.py:68-70 | A label is the word, a comma and a space, then the eight-character time. |
| `TimeFormat.LabelledInjective` | views.py:68-70 | Two labels with the same word are equal only for the same time of day. |
| `TimeFormat.SameInstant` | views.py:62-64 | Two instants with the same day and time of day are the same instant. |
| `Wire.GetOr` | consumers.py:43 | `dict.get(k, default)` gives the stored value for a present key and the default for an absent one. |
| `Wire.Get` | consumers.py:19 | A missing key reads as null. A non-null result is the stored value. |
| `EndToEnd.TextRoundTrip` | consumers.py:17-56 | A text from a known user is stored with its text and type `text`, broadcast and delivered. Its sender drops it as an echo and everyone else appends it. |
| `EndToEnd.LiveStampMatchesHistory` | consumers.py:33-44 | Take the history label of a message read on some day. It repeats the stamp the live broadcast carried exactly when that day is the day the row was created and both clock reads fall in the same second of the day. When both reads fall on one day, the two agree exactly when the reads are the same second. |
| `EndToEnd.StampIff` | views.py:66-70 | A history label matches a live `Today` stamp exactly when it is for the same day and the same time of day. |
| `EndToEnd.UploadRelayed` | App.jsx:155-160 | An announced upload is stored with the server's address and its type. Peers render it qualified against the backend. |
| `EndToEnd.OptimisticPreviewShown` | App.jsx:137-146 | The optimistic file entry shows the local preview in the element its type picks. |
| `EndToEnd.OfferRelayed` | App.jsx:101 | An offer reaches the peer as an offer with its mode and description. It reaches its sender as a dropped signal. |
| `EndToEnd.AnswerRelayed` | App.jsx:61 | An answer reaches the caller as an answer carrying the callee's description. |
| `EndToEnd.SendThenEcho` | App.jsx:106-126 | A fresh client that sends a non-blank text and hears its echo shows exactly that one entry. |
| `EndToEnd.CallHandshake` | App.jsx:53-66 | Caller and callee each end up with one connection. The caller's holds its offer and then the answer. The callee's holds the offer and then its answer. |

## Left out

- The handlers are atomic. Interleavings at the `await` points in the call and upload handlers are not modelled.
- React rendering, the video elements and the `ontrack` handler are left out: they change no state the core relies on.
- The emoji picker is not modelled as such. It only appends to the input buffer, and `Client.ChatClient.Edit` covers any buffer it produces.
- The WebSocket transport, reconnection, connect and disconnect, and the group membership plumbing are left out. The group is a log of what was sent to it.
- Loading the history when a token appears is left out. It replaces the transcript with the reply, which is modelled by `Views.History`.
- The login form, token storage and its restoration after a refresh are left out: authentication is outside the core.
- Password hashing is left out: accounts map names to passwords as given.
- Permission decorators and the ORM are left out. `models.py` is not part of this model.
- The `timestamp` a row gets on creation is modelled as the instant `savedAt`, which is passed in. The clock read that stamps the broadcast is a second instant `now`.
- `Consumers.RowDefaults`: a value sent as null is stored as null. Whether the table accepts null depends on its column definitions, which are in `models.py`. With non-null columns the insert would raise, and nothing would be stored or broadcast.
- `Consumers.Deliver`: a group event whose `type` names a handler other than `chat_message` is modelled as no chat event for the socket. Channels would instead call the handler that name maps to (`websocket.receive`, for example, re-enters `receive`), or raise in every member's consumer when there is none.
- `Views.Register`: the server error for a name that normalises to a taken one is modelled by its status alone. The error page's body is not modelled. The normalisation itself is a parameter.
- Time zones are left out: an instant is a count of seconds already in local time.
- `Views.Label`: the `%d %b` full date is kept as its parts (day number and time of day) and is not rendered as text, because month names and calendars are outside the core.
- `Views.ByTimeDesc`: rows with equal timestamps keep their table order. The database's order for ties is unspecified.
- `Consumers.Sender`: only a string `username` can match an account. Django's coercion of other values to text is not modelled.
- `Views.Register`: request fields are optional strings. Non-string JSON values are not modelled.
- `Consumers.ChatConsumer.Receive`: the inbound text is taken as an already-parsed JSON object. A malformed or non-object payload is not modelled.
- `Client.ChatClient.Receive`: when applying the offer or generating the answer fails, no partial `setRemoteDescription` is recorded.
- `Client.ChatClient.Receive`: an answer or candidate event is logged with whatever `answer` or `candidate` value it carries. In the browser, `new RTCSessionDescription` and `new RTCIceCandidate` throw on a missing or malformed payload, and that uncaught error unmounts the app as for `Threw`.
- `Client.ChatClient.Receive`, `Client.ChatClient.HandleCall`: the log of connection calls records only description and candidate calls. The `addTrack` calls that attach the local stream and the handler assignments on a new connection are not logged.
- `Views.UploadFile`: the storage's name cleaning (`get_valid_name`), its length limit and the shape of the random suffix are not modelled. The alternates are passed in as `tries`, and the storage is assumed to draw a free one among them. `url` stands for the storage's address mapping.
- `Client.ChatClient.Receive`: a thrown `msg_type.startsWith` (route `Threw`) is modelled as an event that changes nothing, after which the client goes on. In the browser an uncaught error in an effect unmounts the whole app, transcript included. The same holds for the `media_url` error in `Render.RenderMessage` (`Crashed`).
- `Transcript.ExactlyOnce`, `Transcript.Run`, `EndToEnd.SendThenEcho`: these describe sessions in which the app survives every event. A session with an event whose `msg_type` is not a string ends in the browser at that event, which these members do not capture.
- `Client.ChatClient.Receive`, `Transcript.ExactlyOnce`: every inbound event is processed once, in order. The source reads events through a single state cell, so two events arriving before one render are seen as one, and the earlier event is never processed. The model does not capture that loss.
- Outbound objects are modelled as the maps the client builds. `JSON.stringify` leaving out undefined fields is not modelled.
- Ending a call by reloading the page is left out: it discards all state.
