/**
 * The transcript over a whole session: every action that can touch
 * `chatHistory` (a text send, a file choice, an inbound event), replayed in
 * order. The headline guarantee is exactly-once display: the local user's
 * entries are exactly the optimistic ones, in the order they were made, and
 * everyone else's are exactly the inbound chat events, in arrival order,
 * however many echoes of the local user's own sends come back.
 */
module Transcript {
  import opened Wire
  import opened Composer
  import opened Client

  datatype Action =
    | Send(text: string, now: string)                    // `handleSendMessage` with this buffer
    | Attach(mime: string, localUrl: string, now: string)  // `handleFileUpload` with a chosen file
    | Arrive(e: Object)                                  // one inbound socket event

  /** One action's effect on the transcript, as `ChatClient` performs it. */
  function Step(t: seq<Object>, me: string, a: Action): (r: seq<Object>)
    ensures |t| <= |r| <= |t| + 1 && r[..|t|] == t
  {
    match a
    case Send(text, now) => if Trim(text) != "" then t + [TextEntry(text, me, now)] else t
    case Attach(mime, url, now) => t + [FileEntry(me, mime, url, now)]
    case Arrive(e) => Intake(t, e, me)
  }

  function Replay(me: string, acts: seq<Action>): seq<Object> {
    if acts == [] then [] else Step(Replay(me, acts[..|acts| - 1]), me, acts[|acts| - 1])
  }

  predicate SentBy(e: Object, me: string) {
    Get(e, "username") == Str(me)
  }

  /** The entries of `t` whose sender is `me`, in order. */
  function Mine(t: seq<Object>, me: string): seq<Object> {
    if t == [] then []
    else Mine(t[..|t| - 1], me) + (if SentBy(t[|t| - 1], me) then [t[|t| - 1]] else [])
  }

  /** The entries of `t` sent by anyone else, in order. */
  function Theirs(t: seq<Object>, me: string): seq<Object> {
    if t == [] then []
    else Theirs(t[..|t| - 1], me) + (if SentBy(t[|t| - 1], me) then [] else [t[|t| - 1]])
  }

  /** The optimistic entry one action creates, if any. */
  function OwnEntry(me: string, a: Action): seq<Object> {
    match a
    case Send(text, now) => if Trim(text) != "" then [TextEntry(text, me, now)] else []
    case Attach(mime, url, now) => [FileEntry(me, mime, url, now)]
    case Arrive(_) => []
  }

  /** The peer chat event one action delivers, if any. */
  function PeerEntry(me: string, a: Action): seq<Object> {
    if a.Arrive? && RouteOf(a.e, me) == Chat then [a.e] else []
  }

  /** The optimistic entries the local actions create, in order. */
  function Optimistic(me: string, acts: seq<Action>): seq<Object> {
    if acts == [] then [] else Optimistic(me, acts[..|acts| - 1]) + OwnEntry(me, acts[|acts| - 1])
  }

  /** The inbound events that are chat from someone else, in arrival order. */
  function PeerChat(me: string, acts: seq<Action>): seq<Object> {
    if acts == [] then [] else PeerChat(me, acts[..|acts| - 1]) + PeerEntry(me, acts[|acts| - 1])
  }

  lemma MineAppend(t: seq<Object>, x: Object, me: string)
    ensures Mine(t + [x], me) == Mine(t, me) + (if SentBy(x, me) then [x] else [])
    ensures Theirs(t + [x], me) == Theirs(t, me) + (if SentBy(x, me) then [] else [x])
  {
    assert (t + [x])[..|t|] == t;
  }

  /** One step adds its optimistic entry to the local user's entries and its peer event to the others'. */
  lemma StepSplits(t: seq<Object>, me: string, a: Action)
    ensures Mine(Step(t, me, a), me) == Mine(t, me) + OwnEntry(me, a)
    ensures Theirs(Step(t, me, a), me) == Theirs(t, me) + PeerEntry(me, a)
  {
    match a
    case Send(text, now) =>
      if Trim(text) != "" {
        var x := TextEntry(text, me, now);
        assert Step(t, me, a) == t + [x] && SentBy(x, me);
        MineAppend(t, x, me);
      } else {
        assert Step(t, me, a) == t;
      }
    case Attach(mime, url, now) =>
      var x := FileEntry(me, mime, url, now);
      assert Step(t, me, a) == t + [x] && SentBy(x, me);
      MineAppend(t, x, me);
    case Arrive(e) =>
      if RouteOf(e, me) == Chat {
        assert Step(t, me, a) == t + [e] && !SentBy(e, me);
        MineAppend(t, e, me);
      } else {
        assert Step(t, me, a) == t;
      }
  }

  /** Exactly-once display: own entries are the optimistic ones, other entries the peers' chat events. */
  lemma {:induction false} ExactlyOnce(me: string, acts: seq<Action>)
    ensures Mine(Replay(me, acts), me) == Optimistic(me, acts)
    ensures Theirs(Replay(me, acts), me) == PeerChat(me, acts)
  {
    if acts != [] {
      var init, a := acts[..|acts| - 1], acts[|acts| - 1];
      ExactlyOnce(me, init);
      assert Replay(me, acts) == Step(Replay(me, init), me, a);
      StepSplits(Replay(me, init), me, a);
    }
  }

  lemma ReplaySnoc(me: string, acts: seq<Action>, a: Action)
    ensures Replay(me, acts + [a]) == Step(Replay(me, acts), me, a)
  {
    assert (acts + [a])[..|acts|] == acts;
  }

  lemma ReplayPrefix(me: string, acts: seq<Action>, i: nat)
    requires i < |acts|
    ensures Replay(me, acts[..i + 1]) == Step(Replay(me, acts[..i]), me, acts[i])
  {
    assert acts[..i + 1][..i] == acts[..i];
  }

  /** The transcript only grows: a longer session extends the transcript of any prefix of it. */
  lemma {:induction false} OnlyGrows(me: string, acts: seq<Action>, more: seq<Action>)
    ensures var r, r' := Replay(me, acts), Replay(me, acts + more);
      |r| <= |r'| && r'[..|r|] == r
  {
    if more == [] {
      assert acts + more == acts;
    } else {
      var init, last := more[..|more| - 1], more[|more| - 1];
      assert acts + more == (acts + init) + [last];
      OnlyGrows(me, acts, init);
      ReplaySnoc(me, acts + init, last);
      var mid := Replay(me, acts + init);
      var r' := Step(mid, me, last);
      assert r'[..|mid|] == mid;
    }
  }

  /** An echo of one's own message changes nothing, however many times it arrives. */
  lemma EchoIdempotent(me: string, acts: seq<Action>, echo: Object)
    requires SentBy(echo, me)
    ensures Replay(me, acts + [Arrive(echo)]) == Replay(me, acts)
  {
    ReplaySnoc(me, acts, Arrive(echo));
  }

  /** Sending a non-blank message and then receiving its echo adds exactly one entry, the sent one. */
  lemma SendThenEcho(me: string, acts: seq<Action>, text: string, now: string, echo: Object)
    requires Trim(text) != "" && SentBy(echo, me)
    ensures Replay(me, acts + [Send(text, now), Arrive(echo)]) == Replay(me, acts) + [TextEntry(text, me, now)]
  {
    var s := acts + [Send(text, now)];
    assert (acts + [Send(text, now), Arrive(echo)]) == s + [Arrive(echo)];
    assert s[..|acts|] == acts;
    EchoIdempotent(me, s, echo);
  }

  /**
   * Performs one action on a client. For the transcript the browser's
   * answers do not matter; here every call prompt is declined and every
   * upload fails.
   */
  method Apply(c: ChatClient, a: Action)
    requires c.Valid()
    modifies c
    ensures c.Valid()
    ensures c.transcript == Step(old(c.transcript), c.username, a)
  {
    match a
    case Send(text, now) =>
      c.Edit(text);
      c.SendMessage(now);
    case Attach(mime, url, now) =>
      c.FileUpload(Some(mime), url, now, None);
    case Arrive(e) =>
      var route := c.Receive(e, false, false, None);
  }

  /** A fresh client run over a session holds exactly the replayed transcript. */
  method Run(me: string, acts: seq<Action>) returns (c: ChatClient)
    ensures fresh(c) && c.username == me
    ensures c.transcript == Replay(me, acts)
  {
    c := new ChatClient(me);
    var i := 0;
    while i < |acts|
      invariant 0 <= i <= |acts|
      invariant c.Valid() && c.username == me
      invariant c.transcript == Replay(me, acts[..i])
    {
      ReplayPrefix(me, acts, i);
      Apply(c, acts[i]);
      i := i + 1;
    }
    assert acts[..|acts|] == acts;
  }
}
