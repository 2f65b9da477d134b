/**
 * The WebSocket relay (`ChatConsumer` in consumers.py). Every inbound
 * object is either a call-negotiation signal, forwarded to the whole group
 * as it came and never stored, or a chat message, stored first and then
 * broadcast in a fixed six-key shape.
 */
module Consumers {
  import opened Wire
  import opened TimeFormat
  import Store

  /** The three call-negotiation types, all in the client's `rtc_` family. */
  predicate IsSignal(msgType: Value): (b: bool)
    ensures b ==> msgType.Str? && StartsWith(msgType.s, "rtc_")
  {
    if msgType == Str("rtc_offer") then
      assert "rtc_offer"[..4] == "rtc_";
      true
    else if msgType == Str("rtc_answer") then
      assert "rtc_answer"[..4] == "rtc_";
      true
    else if msgType == Str("rtc_candidate") then
      assert "rtc_candidate"[..4] == "rtc_";
      true
    else false
  }

  /** The group event for a signal: `{'type': 'chat_message', **data}`, where the client's own keys win. */
  function SignalEvent(data: Object): (ev: Object)
    ensures ev.Keys == data.Keys + {"type"}
    ensures forall k :: k in data ==> ev[k] == data[k]
    ensures "type" !in data ==> ev["type"] == Str("chat_message")
  {
    map["type" := Str("chat_message")] + data
  }

  const ChatKeys: set<string> := {"type", "message", "username", "msg_type", "media_url", "timestamp"}

  /** The group event for a chat message, stamped at local instant `now`. */
  function ChatEvent(data: Object, now: int): (ev: Object)
    ensures ev.Keys == ChatKeys
    ensures ev["type"] == Str("chat_message")
    ensures ev["timestamp"].Str? && StartsWith(ev["timestamp"].s, "Today, ")
  {
    map["type" := Str("chat_message"),
        "message" := Get(data, "message"),
        "username" := Get(data, "username"),
        "msg_type" := Get(data, "msg_type"),
        "media_url" := GetOr(data, "media_url", Str("")),
        "timestamp" := Str(Labelled("Today", TimeOfDay(now)))]
  }

  /** The row `save_message` creates for an existing user, stamped with the instant `savedAt` it is created at. */
  function SavedRow(data: Object, user: string, savedAt: int): (row: Store.Row)
    ensures row.username == user && row.at == savedAt
    ensures "message" in data ==> row.message == data["message"]
    ensures "msg_type" in data ==> row.msgType == data["msg_type"]
    ensures "media_url" in data ==> row.mediaUrl == data["media_url"]
    ensures "message" !in data ==> row.message == Str("")
    ensures "msg_type" !in data ==> row.msgType == Str("text")
    ensures "media_url" !in data ==> row.mediaUrl == Str("")
  {
    Store.Row(user, GetOr(data, "message", Str("")), GetOr(data, "msg_type", Str("text")),
              GetOr(data, "media_url", Str("")), savedAt)
  }

  /** The account `User.objects.get(username=...)` finds, if any. */
  function Sender(data: Object, accounts: set<string>): (u: Option<string>)
    ensures u.Some? <==> Get(data, "username").Str? && Get(data, "username").s in accounts
    ensures u.Some? ==> Get(data, "username") == Str(u.value)
  {
    match Get(data, "username")
    case Str(name) => if name in accounts then Some(name) else None
    case _ => None
  }

  datatype Outcome =
    | Forwarded(event: Object)                   // a signal, sent to the group unstored
    | Persisted(row: Store.Row, event: Object)   // a chat message, stored and then sent
    | UserMissing                                // `User.DoesNotExist`: nothing stored, nothing sent

  /**
   * What `receive` does with one parsed object. The clock is read twice:
   * `savedAt` is the instant the row is created at, `now` the later read
   * that stamps the broadcast.
   */
  function Relay(data: Object, accounts: set<string>, savedAt: int, now: int): (o: Outcome)
    ensures o.Forwarded? <==> IsSignal(Get(data, "msg_type"))
    ensures o.UserMissing? <==> !IsSignal(Get(data, "msg_type")) && Sender(data, accounts).None?
    ensures o.Persisted? ==> o.row.username in accounts && Str(o.row.username) == Get(data, "username")
    ensures o.Persisted? ==> o.row.at == savedAt && "timestamp" in o.event && o.event["timestamp"] == Str(Labelled("Today", TimeOfDay(now)))
  {
    if IsSignal(Get(data, "msg_type")) then Forwarded(SignalEvent(data))
    else match Sender(data, accounts)
      case None => UserMissing
      case Some(user) => Persisted(SavedRow(data, user, savedAt), ChatEvent(data, now))
  }

  /** A signal reaches the group with every field the client sent. */
  lemma SignalForwardedIntact(data: Object, accounts: set<string>, savedAt: int, now: int)
    requires IsSignal(Get(data, "msg_type"))
    ensures Relay(data, accounts, savedAt, now).Forwarded?
    ensures var ev := Relay(data, accounts, savedAt, now).event;
      forall k :: k in data ==> k in ev && ev[k] == data[k]
  {
  }

  /** The chat broadcast drops every key the client added beyond the six, and carries the client's text and sender. */
  lemma ChatShapeFixed(data: Object, accounts: set<string>, savedAt: int, now: int)
    requires Relay(data, accounts, savedAt, now).Persisted?
    ensures var ev := Relay(data, accounts, savedAt, now).event;
      && ev.Keys == ChatKeys
      && ev["message"] == Get(data, "message") && ev["username"] == Get(data, "username")
      && ev["msg_type"] == Get(data, "msg_type")
      && ev["media_url"] == (if "media_url" in data then data["media_url"] else Str(""))
  {
  }

  /** Stored defaults apply only to absent keys: a key sent as null is stored as null. */
  lemma RowDefaults(data: Object, user: string, savedAt: int)
    ensures var row := SavedRow(data, user, savedAt);
      && (row.message == Str("") <==> "message" !in data || data["message"] == Str(""))
      && ("msg_type" !in data ==> row.msgType == Str("text"))
      && ("msg_type" in data ==> row.msgType == data["msg_type"])
      && (row.mediaUrl == Str("") <==> "media_url" !in data || data["media_url"] == Str(""))
  {
  }

  /** Without a `msg_type` the stored row says `text` while the broadcast says null. */
  lemma MissingTypeDiverges(data: Object, accounts: set<string>, savedAt: int, now: int)
    requires "msg_type" !in data && Sender(data, accounts).Some?
    ensures var o := Relay(data, accounts, savedAt, now);
      o.Persisted? && o.row.msgType == Str("text") && o.event["msg_type"] == Null
  {
  }

  /** The handler name the channel layer derives from a message `type`: every `.` becomes `_`. */
  function HandlerName(t: string): (h: string)
    ensures |h| == |t|
    ensures forall i :: 0 <= i < |t| ==> h[i] == (if t[i] == '.' then '_' else t[i])
  {
    seq(|t|, i requires 0 <= i < |t| => if t[i] == '.' then '_' else t[i])
  }

  /** Both spellings of the chat type name the `chat_message` handler. */
  lemma ChatHandlers()
    ensures HandlerName("chat_message") == "chat_message"
    ensures HandlerName("chat.message") == "chat_message"
  {
    var h := HandlerName("chat_message");
    assert h[0] == 'c' && h[1] == 'h' && h[2] == 'a' && h[3] == 't' && h[4] == '_' && h[5] == 'm';
    assert h[6] == 'e' && h[7] == 's' && h[8] == 's' && h[9] == 'a' && h[10] == 'g' && h[11] == 'e';
    h := HandlerName("chat.message");
    assert h[0] == 'c' && h[1] == 'h' && h[2] == 'a' && h[3] == 't' && h[4] == '_' && h[5] == 'm';
    assert h[6] == 'e' && h[7] == 's' && h[8] == 's' && h[9] == 'a' && h[10] == 'g' && h[11] == 'e';
  }

  /** No other message type reaches the `chat_message` handler. */
  lemma ChatHandlerOnly(t: string)
    requires HandlerName(t) == "chat_message"
    ensures t == "chat_message" || t == "chat.message"
  {
    var h := HandlerName(t);
    assert |t| == 12;
    assert forall i | 0 <= i < 12 && i != 4 :: t[i] == h[i];
    assert t[..4] == "chat" && t[5..] == "message";
    assert t == t[..4] + [t[4]] + t[5..];
  }

  /**
   * What a group member's socket receives for a group event: the channel
   * layer calls the handler its `type` names, and the `chat_message` handler
   * sends the event unchanged. For a `type` naming any other handler the
   * socket gets no chat event (`None`); which other handler runs instead is
   * not modelled.
   */
  function Deliver(event: Object): (out: Option<Object>)
    ensures out.Some? ==> out.value == event
  {
    var t := Get(event, "type");
    if t.Str? && HandlerName(t.s) == "chat_message" then Some(event) else None
  }

  /** An event is delivered exactly when its `type` is one of the two chat spellings. */
  lemma DeliverIff(event: Object)
    ensures Deliver(event).Some? <==> Get(event, "type") in {Str("chat_message"), Str("chat.message")}
  {
    ChatHandlers();
    var t := Get(event, "type");
    if t.Str? && HandlerName(t.s) == "chat_message" {
      ChatHandlerOnly(t.s);
    }
  }

  /**
   * Chat broadcasts are always delivered; a signal is delivered unless the
   * client set its own `type` to something other than `chat_message` or
   * `chat.message`.
   */
  lemma DeliveryIff(data: Object, now: int)
    ensures Deliver(ChatEvent(data, now)) == Some(ChatEvent(data, now))
    ensures Deliver(SignalEvent(data)).Some?
      <==> "type" !in data || data["type"] == Str("chat_message") || data["type"] == Str("chat.message")
  {
    DeliverIff(ChatEvent(data, now));
    var ev := SignalEvent(data);
    DeliverIff(ev);
    assert Get(ev, "type") == if "type" in data then data["type"] else Str("chat_message");
  }

  /** The group all consumers join. */
  class Group {
    var sent: seq<Object>   // every `group_send`, in order

    constructor ()
      ensures sent == []
    {
      sent := [];
    }
  }

  class ChatConsumer {
    const db: Store.Database
    const group: Group

    constructor (db: Store.Database, group: Group)
      ensures this.db == db && this.group == group
    {
      this.db := db;
      this.group := group;
    }

    /**
     * `receive`: store (for chat), then send to the group; a missing user
     * stops both. `savedAt` is the clock when the row is created, `now` the
     * clock read after the save.
     */
    method Receive(data: Object, savedAt: int, now: int) returns (o: Outcome)
      modifies db`messages, group
      ensures o == Relay(data, old(db.accounts.Keys), savedAt, now)
      ensures o.Forwarded? ==> db.messages == old(db.messages) && group.sent == old(group.sent) + [o.event]
      ensures o.Persisted? ==> db.messages == old(db.messages) + [o.row] && group.sent == old(group.sent) + [o.event]
      ensures o.UserMissing? ==> db.messages == old(db.messages) && group.sent == old(group.sent)
    {
      var msgType := Get(data, "msg_type");
      if IsSignal(msgType) {
        group.sent := group.sent + [SignalEvent(data)];
        return Forwarded(SignalEvent(data));
      }
      var user := Sender(data, db.accounts.Keys);
      if user.None? {
        return UserMissing;
      }
      var row := SavedRow(data, user.value, savedAt);
      db.Insert(row);
      var ev := ChatEvent(data, now);
      group.sent := group.sent + [ev];
      o := Persisted(row, ev);
    }
  }
}
