/**
 * Both sides together: what a client sends, what the relay makes of it,
 * and what each client then does with the relayed event.
 */
module EndToEnd {
  import opened Wire
  import opened TimeFormat
  import opened Composer
  import Store
  import opened Client
  import Consumers
  import Render
  import Views

  /**
   * A text message is stored with the sender's text, relayed in the fixed
   * shape, dropped as an echo by its sender and appended by everyone else.
   */
  lemma TextRoundTrip(me: string, other: string, text: string, now: string, savedAt: int, at: int, accounts: set<string>)
    requires me in accounts && other != me
    ensures var o := Consumers.Relay(TextEntry(text, me, now), accounts, savedAt, at);
      && o.Persisted?
      && o.row == Store.Row(me, Str(text), Str("text"), Str(""), savedAt)
      && Consumers.Deliver(o.event) == Some(o.event)
      && RouteOf(o.event, me) == OwnEcho
      && RouteOf(o.event, other) == Chat
      && o.event["message"] == Str(text) && o.event["username"] == Str(me)
  {
    Consumers.DeliveryIff(TextEntry(text, me, now), at);
    assert !StartsWith("text", "rtc_") by {
      assert "text"[0] != "rtc_"[0];
    }
  }

  /**
   * The history label of a stored message, read on day `today`, repeats the
   * stamp its live broadcast carried exactly when the history is read on the
   * day the row was created and the two clock reads (row creation, broadcast)
   * fall in the same second of the day. Two reads on one day agree exactly
   * when they are the same second.
   */
  lemma LiveStampMatchesHistory(data: Object, accounts: set<string>, savedAt: int, now: int, today: int)
    requires Consumers.Relay(data, accounts, savedAt, now).Persisted?
    ensures var o := Consumers.Relay(data, accounts, savedAt, now);
      Views.Label(o.row.at, today) == Views.Text(o.event["timestamp"].s)
      <==> DayOf(savedAt) == today && TimeOfDay(savedAt) == TimeOfDay(now)
    ensures var o := Consumers.Relay(data, accounts, savedAt, now);
      DayOf(savedAt) == DayOf(now) ==>
        (Views.Label(o.row.at, DayOf(now)) == Views.Text(o.event["timestamp"].s) <==> savedAt == now)
  {
    var o := Consumers.Relay(data, accounts, savedAt, now);
    assert o.event["timestamp"].s == Labelled("Today", TimeOfDay(now));
    StampIff(savedAt, now, today);
    StampIff(savedAt, now, DayOf(now));
    if DayOf(savedAt) == DayOf(now) && TimeOfDay(savedAt) == TimeOfDay(now) {
      SameInstant(savedAt, now);
    }
  }

  /** A history label matches a live `Today` stamp exactly when it is for the same day and second. */
  lemma StampIff(savedAt: int, now: int, today: int)
    ensures Views.Label(savedAt, today) == Views.Text(Labelled("Today", TimeOfDay(now)))
      <==> DayOf(savedAt) == today && TimeOfDay(savedAt) == TimeOfDay(now)
  {
    if Views.Label(savedAt, today) == Views.Text(Labelled("Today", TimeOfDay(now))) {
      assert DayOf(savedAt) == today;
      LabelledInjective("Today", TimeOfDay(savedAt), TimeOfDay(now));
    }
  }

  /**
   * The republished upload is stored with the server's address, and a peer
   * renders it by qualifying a relative address against the backend.
   */
  lemma UploadRelayed(me: string, mime: string, url: string, accounts: set<string>, savedAt: int, at: int)
    requires me in accounts && !Render.Absolute(url)
    ensures var o := Consumers.Relay(FileAnnouncement(me, mime, Str(url)), accounts, savedAt, at);
      && o.Persisted?
      && o.row.mediaUrl == Str(url) && o.row.msgType == Str(FileKind(mime))
      && Render.FullUrl(o.event) == Some(Render.BackendUrl + url)
  {
    var o := Consumers.Relay(FileAnnouncement(me, mime, Str(url)), accounts, savedAt, at);
    Render.PassThroughIff(o.event, url);
  }

  /** The optimistic entry for a file shows the local preview, in the element its classification picks. */
  lemma OptimisticPreviewShown(me: string, mime: string, localUrl: string, now: string)
    requires StartsWith(localUrl, "blob:")
    ensures var shown := Render.RenderMessage(FileEntry(me, mime, localUrl, now));
      && (FileKind(mime) == "image" ==> shown == Render.Image(localUrl))
      && (FileKind(mime) == "video" ==> shown == Render.VideoPlayer(localUrl))
      && (FileKind(mime) == "file" ==> shown == Render.DownloadLink(localUrl))
  {
  }

  /** An offer reaches the peer as an offer with its mode, and reaches its sender as a dropped signal. */
  lemma OfferRelayed(me: string, peer: string, offer: Value, mode: string, accounts: set<string>, at: int)
    requires peer != me
    ensures var o := Consumers.Relay(OfferEvent(me, offer, mode), accounts, at, at);
      && o.Forwarded?
      && Consumers.Deliver(o.event) == Some(o.event)
      && RouteOf(o.event, peer) == PeerOffer
      && RouteOf(o.event, me) == DroppedSignal
      && Get(o.event, "call_mode") == Str(mode) && Get(o.event, "offer") == offer
  {
  }

  /** An answer reaches the caller as an answer carrying the callee's description. */
  lemma AnswerRelayed(me: string, peer: string, answer: Value, accounts: set<string>, at: int)
    requires peer != me
    ensures var o := Consumers.Relay(AnswerEvent(me, answer), accounts, at, at);
      && o.Forwarded?
      && RouteOf(o.event, peer) == PeerAnswer
      && Get(o.event, "answer") == answer
  {
  }

  /**
   * Scenario: a user sends a non-blank text and then receives any event
   * carrying its own username, such as the relay's broadcast of that text
   * (`TextRoundTrip`): the transcript holds exactly the one optimistic entry.
   */
  method SendThenEcho(me: string, text: string, now: string, echo: Object) returns (t: seq<Object>)
    requires Trim(text) != "" && Get(echo, "username") == Str(me)
    ensures t == [TextEntry(text, me, now)]
  {
    var client := new ChatClient(me);
    client.Edit(text);
    client.SendMessage(now);
    OwnEventsInert([], echo, me);
    var route := client.Receive(echo, false, false, None);
    t := client.transcript;
  }

  /**
   * Scenario: one user calls, the other accepts. The caller's connection
   * gets its offer and then the peer's answer; the callee's gets the offer
   * and then its own answer.
   */
  method CallHandshake(caller: string, callee: string, mode: string, offer: Value, answer: Value, at: int)
    returns (callerCalls: seq<PeerCall>, calleeCalls: seq<PeerCall>)
    requires caller != callee
    ensures callerCalls == [SetLocal(1, offer), SetRemote(1, answer)]
    ensures calleeCalls == [SetRemote(1, offer), SetLocal(1, answer)]
  {
    var a := Dial(caller, mode, offer);
    var ringing := RelaySignal(OfferEvent(caller, offer, mode), at);
    OfferRelayed(caller, callee, offer, mode, {}, at);
    var answered;
    answered, calleeCalls := Answer(callee, ringing, answer, at);
    AnswerRelayed(callee, caller, answer, {}, at);
    Hear(a, answered, answer);
    callerCalls := a.peerCalls;
  }

  /** A fresh client starts a call; its connection holds the offer it sent. */
  method Dial(me: string, mode: string, offer: Value) returns (a: ChatClient)
    ensures fresh(a) && a.Valid() && a.username == me
    ensures a.peers == 1 && a.peerCalls == [SetLocal(1, offer)]
  {
    a := new ChatClient(me);
    a.HandleCall(mode, true, Some(offer));
  }

  /** A caller with one connection applies the relayed answer to it. */
  method Hear(a: ChatClient, answered: Object, answer: Value)
    requires a.Valid() && a.peers == 1
    requires RouteOf(answered, a.username) == PeerAnswer && Get(answered, "answer") == answer
    modifies a
    ensures a.peerCalls == old(a.peerCalls) + [SetRemote(1, answer)]
  {
    var r := a.Receive(answered, false, false, None);
  }

  /** A fresh client accepts a ringing offer and answers; returns what its answer becomes at the caller and its connection's calls. */
  method Answer(me: string, ringing: Object, answer: Value, at: int) returns (answered: Object, calls: seq<PeerCall>)
    requires RouteOf(ringing, me) == PeerOffer
    ensures answered == Consumers.Relay(AnswerEvent(me, answer), {}, at, at).event
    ensures calls == [SetRemote(1, Get(ringing, "offer")), SetLocal(1, answer)]
  {
    var b := new ChatClient(me);
    var r1 := b.Receive(ringing, true, true, Some(answer));
    assert b.outbox == [AnswerEvent(me, answer)];
    calls := b.peerCalls;
    answered := RelaySignal(AnswerEvent(me, answer), at);
  }

  /** A fresh server receives a signal and hands back what its group members are sent. */
  method RelaySignal(data: Object, at: int) returns (delivered: Object)
    requires Consumers.IsSignal(Get(data, "msg_type"))
    ensures delivered == Consumers.Relay(data, {}, at, at).event
  {
    var db := new Store.Database();
    var group := new Consumers.Group();
    var relay := new Consumers.ChatConsumer(db, group);
    var o := relay.Receive(data, at, at);
    delivered := group.sent[0];
  }
}
