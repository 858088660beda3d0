/**
 * The chat screen: the room key both participants derive, the conversation log
 * that the history request replaces and each socket frame extends, and the guard
 * on sending. The socket itself is not modelled: its `readyState` and the decoded
 * frames are inputs, and what the screen hands to `send` is recorded.
 */
module Chat {
  import opened Wrappers
  import opened Text

  /** One chat message as the server encodes it; any field may be missing from the JSON object. */
  datatype Message = Message(id: Option<int>, user: Option<string>, text: Option<string>)

  /**
   * What a history request produced: a JSON array, some other JSON value, or a
   * failure (the request failed or the body was not JSON).
   */
  datatype HistoryReply = Items(messages: seq<Message>) | NotAnArray | Failed

  /** The `readyState` of a WebSocket. */
  datatype ReadyState = Connecting | Open | Closing | Closed

  const Separator: char := '_'

  /** The local name used when nobody is logged in, or the logged-in user has an empty username. */
  const Anonymous: string := "anonymous"

  /** `user?.username || "anonymous"` */
  function LocalName(username: Option<string>): (r: string)
    ensures r != []
    ensures username.None? || username == Some("") ==> r == Anonymous
    ensures username.Some? && username.value != [] ==> r == username.value
  {
    if username.Some? && username.value != "" then username.value else Anonymous
  }

  // ---------------------------------------------------------------------------
  // Room key

  /** `[me, partner].sort().join("_")`: the two names in string order, joined by the separator. */
  function RoomId(me: string, partner: string): (r: string)
    ensures |r| == |me| + 1 + |partner|
    ensures r == me + [Separator] + partner || r == partner + [Separator] + me
    ensures r != me + [Separator] + partner ==> LexLe(partner, me)
  {
    LexTotal(me, partner);
    if LexLe(me, partner) then me + [Separator] + partner else partner + [Separator] + me
  }

  /** Both participants derive the same key, whichever of them opens the chat. */
  lemma RoomIdSymmetric(a: string, b: string)
    ensures RoomId(a, b) == RoomId(b, a)
  {
    LexTotal(a, b);
    if LexLe(a, b) && LexLe(b, a) {
      LexAntisymmetric(a, b);
    }
  }

  /** The key is the name that sorts first, the separator, then the other name. */
  lemma RoomIdSorted(a: string, b: string)
    ensures LexLe(a, b) ==> RoomId(a, b) == a + [Separator] + b
    ensures LexLe(b, a) ==> RoomId(a, b) == b + [Separator] + a
  {
    RoomIdSymmetric(a, b);
  }

  /** Cutting at the first separator recovers both parts when the first part has none. */
  lemma SplitAtFirstSeparator(x: string, y: string, u: string, v: string)
    requires Separator !in x && Separator !in u
    requires x + [Separator] + y == u + [Separator] + v
    ensures x == u && y == v
  {
    var s := x + [Separator] + y;
    assert s[|x|] == Separator;
    assert (u + [Separator] + v)[|u|] == Separator;
    assert forall i :: 0 <= i < |u| ==> s[i] == u[i];
    assert forall i :: 0 <= i < |x| ==> s[i] == x[i];
    assert |x| >= |u|;
    assert |u| >= |x|;
    assert x == s[..|x|] == u;
    assert y == s[|x| + 1..] == v;
  }

  /**
   * Names without the separator never collide: equal keys come from the same
   * pair of names, in one order or the other.
   */
  lemma RoomIdInjective(a: string, b: string, c: string, d: string)
    requires Separator !in a && Separator !in b && Separator !in c && Separator !in d
    requires RoomId(a, b) == RoomId(c, d)
    ensures (a == c && b == d) || (a == d && b == c)
  {
    var lo1, hi1 := if LexLe(a, b) then a else b, if LexLe(a, b) then b else a;
    var lo2, hi2 := if LexLe(c, d) then c else d, if LexLe(c, d) then d else c;
    SplitAtFirstSeparator(lo1, hi1, lo2, hi2);
  }

  /** With a separator inside a name, two different pairs can share a key. */
  lemma RoomIdCollision()
    ensures RoomId("a_b", "c") == RoomId("a", "b_c") == "a_b_c"
  {
    assert LexLe("a_b", "c");
    assert LexLe("a", "b_c");
  }

  // ---------------------------------------------------------------------------
  // Sending

  /**
   * What `sendMessage` hands to the socket: the trimmed input when it is not
   * blank and the socket is open, otherwise nothing.
   */
  function Outgoing(input: string, state: ReadyState): (r: Option<string>)
    ensures r.Some? <==> !AllWhitespace(input) && state == Open
    ensures r.Some? ==> r.value == Trim(input)
    ensures r.Some? ==> r.value != [] && !IsWhitespace(r.value[0]) && !IsWhitespace(r.value[|r.value| - 1])
    ensures r.Some? ==> exists k :: OccursAt(input, r.value, k) && AllWhitespace(input[..k])
                                    && AllWhitespace(input[k + |r.value|..])
  {
    if !IsBlank(input) && state == Open then Some(Trim(input)) else None
  }

  // ---------------------------------------------------------------------------
  // The screen

  /** One open chat view: its fixed names and key, the message log, the input box and the loading flag. */
  class ChatRoom {
    const userName: string
    const targetUserName: string
    const roomId: string
    var messages: seq<Message>
    var inputText: string
    var loading: bool
    /** The frames handed to the socket's `send`, oldest first. */
    var sent: seq<string>

    constructor (sessionUsername: Option<string>, targetUserName: string)
      ensures userName == LocalName(sessionUsername) && this.targetUserName == targetUserName
      ensures roomId == RoomId(userName, targetUserName)
      ensures messages == [] && inputText == "" && loading && sent == []
    {
      userName := LocalName(sessionUsername);
      this.targetUserName := targetUserName;
      roomId := RoomId(LocalName(sessionUsername), targetUserName);
      messages := [];
      inputText := "";
      loading := true;
      sent := [];
    }

    /** The history request settled: an array replaces the log; anything else leaves it. Loading ends either way. */
    method ApplyHistory(reply: HistoryReply)
      modifies this`messages, this`loading
      ensures messages == if reply.Items? then reply.messages else old(messages)
      ensures !loading
    {
      if reply.Items? {
        messages := reply.messages;
      }
      loading := false;
    }

    /**
     * A socket frame arrived, decoded by `JSON.parse` (`None` when it was not JSON:
     * the handler then throws before touching the log).
     */
    method Receive(frame: Option<Message>)
      modifies this`messages
      ensures messages == old(messages) + if frame.Some? then [frame.value] else []
    {
      if frame.Some? {
        messages := messages + [frame.value];
      }
    }

    /** The input box changed. */
    method EditInput(text: string)
      modifies this`inputText
      ensures inputText == text
    {
      inputText := text;
    }

    /**
     * `sendMessage`: hand the trimmed input to the socket and clear the box, when
     * the input is not blank and the socket is open; otherwise do nothing. The log
     * is never touched: a sent message shows up only when the server echoes it.
     */
    method SendMessage(state: ReadyState) returns (frame: Option<string>)
      modifies this`inputText, this`sent
      ensures frame == Outgoing(old(inputText), state)
      ensures frame.Some? <==> !AllWhitespace(old(inputText)) && state == Open
      ensures frame.Some? ==> frame.value == Trim(old(inputText))
      ensures frame.Some? ==> inputText == "" && sent == old(sent) + [frame.value]
      ensures frame.None? ==> inputText == old(inputText) && sent == old(sent)
    {
      frame := None;
      if !IsBlank(inputText) && state == Open {
        frame := Some(Trim(inputText));
        sent := sent + [Trim(inputText)];
        inputText := "";
      }
    }

    /** A message is drawn as the user's own exactly when its `user` field is the local name. */
    predicate IsOwn(m: Message)
      ensures IsOwn(m) <==> m.user.Some? && m.user.value == userName
    {
      m.user == Some(userName)
    }
  }

  // ---------------------------------------------------------------------------
  // The log over a whole session

  /** The two things that change the log: the history request settling, and a socket frame arriving. */
  datatype LogEvent = HistorySettled(reply: HistoryReply) | FrameArrived(frame: Option<Message>)

  /** Event `e` carries message `m`: as a decoded frame, or inside an array history reply. */
  predicate DeliveredIn(e: LogEvent, m: Message) {
    match e
    case HistorySettled(reply) => reply.Items? && m in reply.messages
    case FrameArrived(frame) => frame == Some(m)
  }

  /** Some event among `events` carries `m`. */
  predicate Delivered(events: seq<LogEvent>, m: Message) {
    exists i :: 0 <= i < |events| && DeliveredIn(events[i], m)
  }

  /** The log after `events`, in the order they happened, starting from the empty log. Nothing in it is invented. */
  function LogAfter(events: seq<LogEvent>): (r: seq<Message>)
    ensures forall m :: m in r ==> Delivered(events, m)
  {
    if events == [] then []
    else
      var init := events[..|events| - 1];
      var last := events[|events| - 1];
      var log := LogAfter(init);
      DeliveredGrows(init, last);
      match last
      case HistorySettled(reply) => if reply.Items? then reply.messages else log
      case FrameArrived(frame) => if frame.Some? then log + [frame.value] else log
  }

  /** Appending an event keeps every earlier delivery and adds the new event's. */
  lemma DeliveredGrows(init: seq<LogEvent>, last: LogEvent)
    ensures forall m :: Delivered(init, m) || DeliveredIn(last, m) ==> Delivered(init + [last], m)
  {
    var events := init + [last];
    forall m | Delivered(init, m) || DeliveredIn(last, m)
      ensures Delivered(events, m)
    {
      if DeliveredIn(last, m) {
        assert events[|init|] == last;
      } else {
        var i :| 0 <= i < |init| && DeliveredIn(init[i], m);
        assert events[i] == init[i];
      }
    }
  }

  /** The messages the frames among `events` decoded to, in order. */
  function LiveMessages(events: seq<LogEvent>): (r: seq<Message>)
    ensures |r| <= |events|
    ensures forall m :: m in r ==> FrameArrived(Some(m)) in events
  {
    if events == [] then []
    else
      var e := events[|events| - 1];
      assert events == events[..|events| - 1] + [e];
      LiveMessages(events[..|events| - 1]) + if e.FrameArrived? && e.frame.Some? then [e.frame.value] else []
  }

  /** No history reply in `events` was an array. */
  predicate NoSnapshot(events: seq<LogEvent>) {
    forall i :: 0 <= i < |events| ==> !(events[i].HistorySettled? && events[i].reply.Items?)
  }

  /** Without an array history reply, the log is every live message, in arrival order. */
  lemma {:induction false} LogWithoutSnapshot(events: seq<LogEvent>)
    requires NoSnapshot(events)
    ensures LogAfter(events) == LiveMessages(events)
  {
    if events != [] {
      LogWithoutSnapshot(events[..|events| - 1]);
    }
  }

  /**
   * The log is the last array snapshot followed by the live messages that came
   * after it. Live messages that arrived before the snapshot are gone: the history
   * reply overwrites them rather than being merged in front of them.
   */
  lemma {:induction false} LogIsLastSnapshotThenLive(before: seq<LogEvent>, snapshot: seq<Message>, after: seq<LogEvent>)
    requires NoSnapshot(after)
    ensures LogAfter(before + [HistorySettled(Items(snapshot))] + after) == snapshot + LiveMessages(after)
  {
    var events := before + [HistorySettled(Items(snapshot))] + after;
    if after == [] {
      assert events[..|events| - 1] == before;
    } else {
      var init := after[..|after| - 1];
      assert events[..|events| - 1] == before + [HistorySettled(Items(snapshot))] + init;
      LogIsLastSnapshotThenLive(before, snapshot, init);
    }
  }

  /** A live message that arrives before the history does is not in the log once the history is an array. */
  lemma LiveBeforeHistoryIsLost(m: Message, snapshot: seq<Message>)
    ensures LogAfter([FrameArrived(Some(m)), HistorySettled(Items(snapshot))]) == snapshot
  {
    LogIsLastSnapshotThenLive([FrameArrived(Some(m))], snapshot, []);
  }

  /** A failed history request leaves the log to the live messages: one frame after it is the whole log. */
  lemma FailedHistoryThenLive(m: Message)
    ensures LogAfter([HistorySettled(Failed), FrameArrived(Some(m))]) == [m]
  {
    LogWithoutSnapshot([HistorySettled(Failed), FrameArrived(Some(m))]);
    assert [HistorySettled(Failed), FrameArrived(Some(m))][..1] == [HistorySettled(Failed)];
  }

  /** Drive a fresh chat view through `events` and return its log. */
  method Replay(sessionUsername: Option<string>, targetUserName: string, events: seq<LogEvent>)
    returns (log: seq<Message>)
    ensures log == LogAfter(events)
  {
    var room := new ChatRoom(sessionUsername, targetUserName);
    var i := 0;
    while i < |events|
      invariant 0 <= i <= |events|
      invariant room.messages == LogAfter(events[..i])
    {
      assert events[..i + 1][..i] == events[..i];
      match events[i] {
        case HistorySettled(reply) => room.ApplyHistory(reply);
        case FrameArrived(frame) => room.Receive(frame);
      }
      i := i + 1;
    }
    assert events[..i] == events;
    log := room.messages;
  }
}
