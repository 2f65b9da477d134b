/**
 * The browser client's message handling (App.jsx): the transcript
 * (`chatHistory`), the single intake step for inbound socket events, the
 * optimistic text and file sends, and the call flow.
 *
 * Each handler runs here as one atomic step. What the browser decides
 * (`window.confirm`, whether `getUserMedia` grants a stream, whether session
 * description generation succeeds, the result of the upload request, the
 * clock) arrives as a parameter. Outbound socket sends are appended to
 * `outbox`; calls made on the browser's peer connection objects are appended
 * to `peerCalls`.
 */
module Client {
  import opened Wire
  import opened Composer

  const HardwareAlert: string := "Hardware Error: Camera/Mic not found."
  const UploadAlert: string := "Upload failed"

  /** Where one inbound event goes. */
  datatype Route =
    | PeerOffer      // `rtc_offer` from someone else: ask the user, then answer
    | PeerAnswer     // `rtc_answer` from someone else: applied to the current peer connection
    | PeerCandidate  // `rtc_candidate` from someone else: applied to the current peer connection
    | Chat           // a chat event from someone else: appended to the transcript
    | OwnEcho        // a chat event carrying the local username: dropped
    | DroppedSignal  // any other `rtc_`-prefixed event, including the local user's own signals
    | Threw          // `msg_type` is not a string, so `msg_type.startsWith` throws

  /** The dispatch of the intake step, in the order its branches are tested. */
  function RouteOf(e: Object, me: string): (r: Route)
    ensures r == PeerOffer <==> Get(e, "msg_type") == Str("rtc_offer") && Get(e, "username") != Str(me)
    ensures r == PeerAnswer <==> Get(e, "msg_type") == Str("rtc_answer") && Get(e, "username") != Str(me)
    ensures r == PeerCandidate <==> Get(e, "msg_type") == Str("rtc_candidate") && Get(e, "username") != Str(me)
    ensures r == Threw <==> !Get(e, "msg_type").Str?
    ensures r == OwnEcho
      <==> Get(e, "msg_type").Str? && !StartsWith(Get(e, "msg_type").s, "rtc_") && Get(e, "username") == Str(me)
  {
    var t := Get(e, "msg_type");
    var fromMe := Get(e, "username") == Str(me);
    if t == Str("rtc_offer") && !fromMe then PeerOffer
    else if t == Str("rtc_answer") && !fromMe then PeerAnswer
    else if t == Str("rtc_candidate") && !fromMe then PeerCandidate
    else if !t.Str? then Threw
    else if StartsWith(t.s, "rtc_") then DroppedSignal
    else if fromMe then OwnEcho
    else Chat
  }

  /** The intake step's effect on the transcript. */
  function Intake(t: seq<Object>, e: Object, me: string): (r: seq<Object>)
    ensures |t| <= |r| <= |t| + 1 && r[..|t|] == t
    ensures |r| == |t| + 1 <==> RouteOf(e, me) == Chat
    ensures |r| == |t| + 1 ==> r[|t|] == e
  {
    if RouteOf(e, me) == Chat then t + [e] else t
  }

  /** A chat event is appended exactly when its type is a string outside the `rtc_` family and its sender is someone else. */
  lemma ChatIff(e: Object, me: string)
    ensures RouteOf(e, me) == Chat
      <==> Get(e, "msg_type").Str? && !StartsWith(Get(e, "msg_type").s, "rtc_")
           && Get(e, "username") != Str(me)
  {
  }

  /** Events carrying the local username cause nothing: no append and no call action. */
  lemma OwnEventsInert(t: seq<Object>, e: Object, me: string)
    requires Get(e, "username") == Str(me)
    ensures RouteOf(e, me) in {OwnEcho, DroppedSignal, Threw}
    ensures Intake(t, e, me) == t
  {
  }

  /** No `rtc_` event enters the transcript; unknown `rtc_` types are dropped. */
  lemma SignalsNeverChat(e: Object, me: string, s: string)
    requires Get(e, "msg_type") == Str(s) && StartsWith(s, "rtc_")
    ensures RouteOf(e, me) in {PeerOffer, PeerAnswer, PeerCandidate, DroppedSignal}
    ensures s !in {"rtc_offer", "rtc_answer", "rtc_candidate"} ==> RouteOf(e, me) == DroppedSignal
  {
  }

  // ---- outbound objects ----

  /** The optimistic text entry, also the object sent: an echo for its sender, chat for everyone else. */
  function TextEntry(text: string, me: string, now: string): (e: Object)
    ensures Get(e, "message") == Str(text) && Get(e, "username") == Str(me) && Get(e, "timestamp") == Str(now)
    ensures RouteOf(e, me) == OwnEcho
    ensures forall other :: other != me ==> RouteOf(e, other) == Chat
  {
    assert "text"[0] != "rtc_"[0];
    map["message" := Str(text), "username" := Str(me), "msg_type" := Str("text"), "timestamp" := Str(now)]
  }

  /** The call offer: a dropped signal for its sender, an offer with its description and mode for everyone else. */
  function OfferEvent(me: string, offer: Value, mode: string): (e: Object)
    ensures Get(e, "offer") == offer && Get(e, "call_mode") == Str(mode) && Get(e, "username") == Str(me)
    ensures RouteOf(e, me) == DroppedSignal
    ensures forall other :: other != me ==> RouteOf(e, other) == PeerOffer
  {
    assert "rtc_offer"[..4] == "rtc_";
    map["msg_type" := Str("rtc_offer"), "offer" := offer, "username" := Str(me), "call_mode" := Str(mode)]
  }

  /** The call answer: a dropped signal for its sender, an answer carrying its description for everyone else. */
  function AnswerEvent(me: string, answer: Value): (e: Object)
    ensures Get(e, "answer") == answer && Get(e, "username") == Str(me)
    ensures RouteOf(e, me) == DroppedSignal
    ensures forall other :: other != me ==> RouteOf(e, other) == PeerAnswer
  {
    assert "rtc_answer"[..4] == "rtc_";
    map["msg_type" := Str("rtc_answer"), "answer" := answer, "username" := Str(me)]
  }

  /** A gathered candidate: a dropped signal for its sender, a candidate for everyone else. */
  function CandidateEvent(me: string, candidate: Value): (e: Object)
    ensures Get(e, "candidate") == candidate && Get(e, "username") == Str(me)
    ensures RouteOf(e, me) == DroppedSignal
    ensures forall other :: other != me ==> RouteOf(e, other) == PeerCandidate
  {
    assert "rtc_candidate"[..4] == "rtc_";
    map["msg_type" := Str("rtc_candidate"), "candidate" := candidate, "username" := Str(me)]
  }

  // ---- file classification ----

  /** `mime.split('/')[0]`: the text before the first slash, or all of it. */
  function TopLevel(mime: string): (top: string)
    ensures |top| <= |mime| && top == mime[..|top|]
    ensures '/' !in top
    ensures |top| < |mime| ==> mime[|top|] == '/'
  {
    if mime == [] || mime[0] == '/' then []
    else [mime[0]] + TopLevel(mime[1..])
  }

  /** The message type of an upload: the top-level MIME type when it is `image` or `video`, `file` otherwise. */
  function FileKind(mime: string): (kind: string)
    ensures kind in {"image", "video", "file"}
  {
    var top := TopLevel(mime);
    if top == "image" || top == "video" then top else "file"
  }

  /** The classifier picks `image` exactly for `image` and `image/...`, never picks `audio`. */
  lemma {:induction false} FileKindIff(mime: string, top: string)
    requires top == "image" || top == "video"
    ensures FileKind(mime) == top <==> mime == top || StartsWith(mime, top + "/")
    ensures FileKind(mime) != "audio"
  {
    var t := TopLevel(mime);
    if t == top && |t| < |mime| {
      assert mime[..|top| + 1] == top + "/";
    }
    if StartsWith(mime, top + "/") {
      TopLevelOfPrefix(mime, top);
    }
  }

  lemma {:induction false} TopLevelOfPrefix(mime: string, top: string)
    requires '/' !in top && StartsWith(mime, top + "/")
    ensures TopLevel(mime) == top
  {
    if top != [] {
      assert mime[0] == top[0];
      assert StartsWith(mime[1..], top[1..] + "/") by {
        assert mime[1..][..|top|] == mime[1..|top| + 1];
      }
      TopLevelOfPrefix(mime[1..], top[1..]);
    } else {
      assert mime[0] == '/';
    }
  }

  lemma KindNotSignal(mime: string)
    ensures !StartsWith(FileKind(mime), "rtc_")
  {
    var k := FileKind(mime);
    assert k[0] != 'r';
  }

  /** The optimistic entry for a chosen file, pointing at its local preview: an echo for its sender. */
  function FileEntry(me: string, mime: string, localUrl: string, now: string): (e: Object)
    ensures Get(e, "msg_type") == Str(FileKind(mime)) && Get(e, "media_url") == Str(localUrl)
    ensures Get(e, "username") == Str(me) && Get(e, "timestamp") == Str(now)
    ensures RouteOf(e, me) == OwnEcho
  {
    KindNotSignal(mime);
    map["username" := Str(me), "msg_type" := Str(FileKind(mime)), "media_url" := Str(localUrl),
        "message" := Str("Sent a " + TopLevel(mime)), "timestamp" := Str(now)]
  }

  /** The event that republishes an upload with the server's address: an echo for its sender, chat for everyone else. */
  function FileAnnouncement(me: string, mime: string, url: Value): (e: Object)
    ensures Get(e, "msg_type") == Str(FileKind(mime)) && Get(e, "media_url") == url && Get(e, "username") == Str(me)
    ensures RouteOf(e, me) == OwnEcho
    ensures forall other :: other != me ==> RouteOf(e, other) == Chat
  {
    KindNotSignal(mime);
    map["username" := Str(me), "msg_type" := Str(FileKind(mime)), "media_url" := url,
        "message" := Str("Sent a " + TopLevel(mime))]
  }

  /** The republished event carries the optimistic entry's sender, type and text, and only the address differs. */
  lemma AnnouncementMatchesEntry(me: string, mime: string, localUrl: string, now: string, url: Value)
    ensures var a, e := FileAnnouncement(me, mime, url), FileEntry(me, mime, localUrl, now);
      && a.Keys == e.Keys - {"timestamp"}
      && (forall k :: k in a && k != "media_url" ==> a[k] == e[k])
      && a["media_url"] == url
  {
  }

  // ---- the client object ----

  /** The constraints passed to `getUserMedia`. */
  datatype Stream = Stream(video: bool, audio: bool)

  /** A call made on peer connection number `pc` (numbered from 1 in creation order). */
  datatype PeerCall =
    | SetLocal(pc: nat, desc: Value)
    | SetRemote(pc: nat, desc: Value)
    | AddCandidate(pc: nat, candidate: Value)

  class ChatClient {
    const username: string
    var composing: string           // the `message` input buffer
    var transcript: seq<Object>     // `chatHistory`
    var outbox: seq<Object>         // every `sendJsonMessage`, in order
    var alerts: seq<string>         // every `alert`, in order
    var localStream: Option<Stream>
    var peers: nat                  // peer connections created; `pc.current` is the newest, null while 0
    var peerCalls: seq<PeerCall>
    var callType: Value

    ghost predicate Valid()
      reads this`peers, this`localStream, this`peerCalls
    {
      && (peers == 0 <==> localStream == None)
      && forall c :: c in peerCalls ==> 1 <= c.pc <= peers
    }

    constructor (username: string)
      ensures Valid()
      ensures this.username == username && composing == ""
      ensures transcript == [] && outbox == [] && alerts == [] && peerCalls == []
      ensures localStream == None && peers == 0 && callType == Null
    {
      this.username := username;
      composing := "";
      transcript := [];
      outbox := [];
      alerts := [];
      localStream := None;
      peers := 0;
      peerCalls := [];
      callType := Null;
    }

    /** Typing in the input row (App.jsx:249). */
    method Edit(text: string)
      modifies this`composing
      ensures composing == text
    {
      composing := text;
    }

    /** `startLocalStream`: on a granted stream, keep it and replace `pc.current` with a new connection. */
    method StartLocalStream(isVideo: bool, granted: bool) returns (success: bool)
      requires Valid()
      modifies this`localStream, this`peers, this`alerts
      ensures Valid()
      ensures success == granted
      ensures granted ==> localStream == Some(Stream(isVideo, true)) && peers == old(peers) + 1
      ensures !granted ==> localStream == old(localStream) && peers == old(peers)
      ensures alerts == old(alerts) + (if granted then [] else [HardwareAlert])
    {
      if granted {
        localStream := Some(Stream(isVideo, true));
        peers := peers + 1;
        success := true;
      } else {
        alerts := alerts + [HardwareAlert];
        success := false;
      }
    }

    /** `handleCall(mode)`: acquire a stream, then offer. `offer` is `None` when generating or setting the offer fails. */
    method HandleCall(mode: string, granted: bool, offer: Option<Value>)
      requires Valid()
      modifies this`outbox, this`alerts, this`localStream, this`peers, this`peerCalls, this`callType
      ensures Valid()
      ensures outbox == old(outbox) + (if granted && offer.Some? then [OfferEvent(username, offer.value, mode)] else [])
      ensures callType == if granted then Str(mode) else old(callType)
      ensures localStream == if granted then Some(Stream(mode == "video", true)) else old(localStream)
      ensures peers == old(peers) + (if granted then 1 else 0)
      ensures peerCalls == old(peerCalls) + (if granted && offer.Some? then [SetLocal(peers, offer.value)] else [])
      ensures alerts == old(alerts) + (if granted then [] else [HardwareAlert])
      ensures transcript == old(transcript) && composing == old(composing)
    {
      var success := StartLocalStream(mode == "video", granted);
      if success && peers > 0 {
        callType := Str(mode);
        if offer.Some? {
          peerCalls := peerCalls + [SetLocal(peers, offer.value)];
          outbox := outbox + [OfferEvent(username, offer.value, mode)];
        }
      }
    }

    /** `onicecandidate` of a peer connection: each gathered candidate is sent; the final null is not. */
    method IceCandidate(candidate: Value)
      requires peers > 0
      modifies this`outbox
      ensures outbox == old(outbox) + (if Truthy(candidate) then [CandidateEvent(username, candidate)] else [])
    {
      if Truthy(candidate) {
        outbox := outbox + [CandidateEvent(username, candidate)];
      }
    }

    /**
     * Accepting a peer's offer: acquire a stream, then apply the offer and
     * the generated answer to the new connection and send the answer.
     */
    method AcceptOffer(mode: Value, offer: Value, granted: bool, answer: Option<Value>)
      requires Valid()
      modifies this`outbox, this`alerts, this`localStream, this`peers, this`peerCalls, this`callType
      ensures Valid()
      ensures !granted ==>
        && outbox == old(outbox) && alerts == old(alerts) + [HardwareAlert] && callType == old(callType)
        && localStream == old(localStream) && peers == old(peers) && peerCalls == old(peerCalls)
      ensures granted ==>
        && alerts == old(alerts) && callType == mode
        && localStream == Some(Stream(mode == Str("video"), true)) && peers == old(peers) + 1
        && outbox == old(outbox) + (if answer.Some? then [AnswerEvent(username, answer.value)] else [])
        && peerCalls == old(peerCalls)
             + (if answer.Some? then [SetRemote(peers, offer), SetLocal(peers, answer.value)] else [])
    {
      var success := StartLocalStream(mode == Str("video"), granted);
      if success && peers > 0 {
        callType := mode;
        if answer.Some? {
          peerCalls := peerCalls + [SetRemote(peers, offer), SetLocal(peers, answer.value)];
          outbox := outbox + [AnswerEvent(username, answer.value)];
        }
      }
    }

    /**
     * The intake step for one inbound event. `confirmed`, `granted` and
     * `answer` are consulted only for a peer's offer: the user's answer to
     * the prompt, the stream request, and the generated answer (`None` when
     * applying the offer or generating the answer fails).
     */
    method Receive(e: Object, confirmed: bool, granted: bool, answer: Option<Value>) returns (route: Route)
      requires Valid()
      modifies this`transcript, this`outbox, this`alerts, this`localStream, this`peers, this`peerCalls, this`callType
      ensures Valid()
      ensures route == RouteOf(e, username)
      ensures transcript == Intake(old(transcript), e, username)
      ensures route != PeerOffer ==>
        && outbox == old(outbox) && alerts == old(alerts) && callType == old(callType)
        && localStream == old(localStream) && peers == old(peers)
      ensures route == PeerOffer && !confirmed ==>
        && outbox == old(outbox) && alerts == old(alerts) && callType == old(callType)
        && localStream == old(localStream) && peers == old(peers) && peerCalls == old(peerCalls)
      ensures route == PeerOffer && confirmed && !granted ==>
        && outbox == old(outbox) && alerts == old(alerts) + [HardwareAlert] && callType == old(callType)
        && localStream == old(localStream) && peers == old(peers) && peerCalls == old(peerCalls)
      ensures route == PeerOffer && confirmed && granted ==>
        && alerts == old(alerts) && callType == Get(e, "call_mode")
        && localStream == Some(Stream(Get(e, "call_mode") == Str("video"), true)) && peers == old(peers) + 1
        && outbox == old(outbox) + (if answer.Some? then [AnswerEvent(username, answer.value)] else [])
        && peerCalls == old(peerCalls)
             + (if answer.Some? then [SetRemote(peers, Get(e, "offer")), SetLocal(peers, answer.value)] else [])
      ensures route == PeerAnswer ==>
        peerCalls == old(peerCalls) + (if old(peers) > 0 then [SetRemote(old(peers), Get(e, "answer"))] else [])
      ensures route == PeerCandidate ==>
        peerCalls == old(peerCalls) + (if old(peers) > 0 then [AddCandidate(old(peers), Get(e, "candidate"))] else [])
      ensures route !in {PeerOffer, PeerAnswer, PeerCandidate} ==> peerCalls == old(peerCalls)
      ensures composing == old(composing)
    {
      route := RouteOf(e, username);
      match route
      case PeerOffer =>
        if confirmed {
          AcceptOffer(Get(e, "call_mode"), Get(e, "offer"), granted, answer);
        }
      case PeerAnswer =>
        if peers > 0 {
          peerCalls := peerCalls + [SetRemote(peers, Get(e, "answer"))];
        }
      case PeerCandidate =>
        if peers > 0 {
          peerCalls := peerCalls + [AddCandidate(peers, Get(e, "candidate"))];
        }
      case Chat =>
        transcript := transcript + [e];
      case OwnEcho =>
      case DroppedSignal =>
      case Threw =>
    }

    /** `handleSendMessage`: a non-blank buffer is appended, cleared and sent as one and the same object. */
    method SendMessage(now: string)
      modifies this`transcript, this`composing, this`outbox
      ensures Trim(old(composing)) == "" ==>
        transcript == old(transcript) && composing == old(composing) && outbox == old(outbox)
      ensures Trim(old(composing)) != "" ==>
        && transcript == old(transcript) + [TextEntry(old(composing), username, now)]
        && outbox == old(outbox) + [TextEntry(old(composing), username, now)]
        && composing == ""
    {
      if Trim(composing) != "" {
        var msgObj := TextEntry(composing, username, now);
        transcript := transcript + [msgObj];
        composing := "";
        outbox := outbox + [msgObj];
      }
    }

    /**
     * `handleFileUpload`. `file` is the chosen file's MIME type (`None` when
     * no file was chosen), `localUrl` its preview address, and `uploaded`
     * the `file` field of the upload reply (`None` when the request fails).
     */
    method FileUpload(file: Option<string>, localUrl: string, now: string, uploaded: Option<Value>)
      modifies this`transcript, this`outbox, this`alerts
      ensures file.None? ==> transcript == old(transcript) && outbox == old(outbox) && alerts == old(alerts)
      ensures file.Some? ==>
        && transcript == old(transcript) + [FileEntry(username, file.value, localUrl, now)]
        && outbox == old(outbox) + (if uploaded.Some? then [FileAnnouncement(username, file.value, uploaded.value)] else [])
        && alerts == old(alerts) + (if uploaded.Some? then [] else [UploadAlert])
    {
      if file.None? {
        return;
      }
      transcript := transcript + [FileEntry(username, file.value, localUrl, now)];
      match uploaded
      case Some(url) =>
        outbox := outbox + [FileAnnouncement(username, file.value, url)];
      case None =>
        alerts := alerts + [UploadAlert];
    }
  }
}
