/** readWSMessage of pkg/tts/cartesia_ws.go: fragments assembled into messages with
    control frames in between. */
module WebSocketMessages {
  import opened Octets
  import opened WebSocket

  datatype Failure = BadFrame(parsed: Parsed) | UnexpectedContinuation | UnsupportedOpcode | WriteFailed

  datatype Result =
    | Message(opcode: Byte, payload: Bytes, rest: Bytes)
    | PeerClosed(payload: Bytes, rest: Bytes)
    | Failed(why: Failure)

  /** Reading from s with `assembled` collected so far; `w` is the connection pongs and
      the closing frame are written to. */
  function ReadMessage(s: Bytes, w: Wire, keys: nat -> Key, started: bool, msgOpcode: Byte, assembled: Bytes): (Result, Wire)
    decreases |s|
  {
    match Parse(s)
    case Truncated => (Failed(BadFrame(Truncated)), w)
    case TooLarge => (Failed(BadFrame(TooLarge)), w)
    case Ok(f, rest) =>
      if f.opcode == PING then
        var (w', ok) := WriteFrame(w, keys, PONG, f.payload);
        if ok then ReadMessage(rest, w', keys, started, msgOpcode, assembled) else (Failed(WriteFailed), w')
      else if f.opcode == PONG then
        ReadMessage(rest, w, keys, started, msgOpcode, assembled)
      else if f.opcode == CLOSE then
        (PeerClosed(f.payload, rest), WriteFrame(w, keys, CLOSE, []).0)
      else if f.opcode == CONTINUATION then
        if !started then (Failed(UnexpectedContinuation), w)
        else if f.fin then (Message(msgOpcode, assembled + f.payload, rest), w)
        else ReadMessage(rest, w, keys, true, msgOpcode, assembled + f.payload)
      else if f.opcode == TEXT || f.opcode == BINARY then
        if f.fin && !started then (Message(f.opcode, f.payload, rest), w)
        else if f.fin then (Message(f.opcode, assembled + f.payload, rest), w)
        else ReadMessage(rest, w, keys, true, f.opcode, assembled + f.payload)
      else (Failed(UnsupportedOpcode), w)
  }

  method ReadWSMessage(conn: Conn, br: Reader) returns (result: Result)
    modifies conn, br
    ensures (result, conn.Abs()) == ReadMessage(old(br.rest), old(conn.Abs()), conn.keys, false, 0, [])
    ensures result.Message? || result.PeerClosed? ==> br.rest == result.rest
  {
    ghost var total := ReadMessage(br.rest, conn.Abs(), conn.keys, false, 0, []);
    var assembled: Bytes := [];
    var msgOpcode: Byte := 0;
    var started := false;
    while true
      invariant ReadMessage(br.rest, conn.Abs(), conn.keys, started, msgOpcode, assembled) == total
      decreases |br.rest|
    {
      var parsed := br.ReadWSFrame();
      if !parsed.Ok? {
        return Failed(BadFrame(parsed));
      }
      var Frame(fin, op, data) := parsed.frame;
      if op == PING {
        var ok := conn.WriteWSFrame(PONG, data);
        if !ok {
          return Failed(WriteFailed);
        }
        continue;
      } else if op == PONG {
        continue;
      } else if op == CLOSE {
        var _ := conn.WriteWSFrame(CLOSE, []);
        return PeerClosed(data, br.rest);
      } else if op == CONTINUATION {
        if !started {
          return Failed(UnexpectedContinuation);
        }
        assembled := assembled + data;
        if fin {
          return Message(msgOpcode, assembled, br.rest);
        }
      } else if op == TEXT || op == BINARY {
        if fin && !started {
          return Message(op, data, br.rest);
        }
        started := true;
        msgOpcode := op;
        assembled := assembled + data;
        if fin {
          return Message(msgOpcode, assembled, br.rest);
        }
      } else {
        return Failed(UnsupportedOpcode);
      }
    }
  }

  // ----- Sequences of frames

  predicate IsStart(f: Frame) {
    f.opcode == TEXT || f.opcode == BINARY
  }

  predicate IsData(f: Frame) {
    f.opcode == CONTINUATION || IsStart(f)
  }

  predicate IsControl(f: Frame) {
    f.opcode == PING || f.opcode == PONG
  }

  /** s parses as exactly these frames and then `rest`. */
  ghost predicate Holds(s: Bytes, frames: seq<Frame>, rest: Bytes)
    decreases |frames|
  {
    if frames == [] then s == rest
    else
      var parsed := Parse(s);
      parsed.Ok? && parsed.frame == frames[0] && Holds(parsed.rest, frames[1..], rest)
  }

  /** The frames the reader makes one message of: data frames, the last of them and no
      other final, with pings and pongs in between, and no continuation before a start. */
  predicate Accepted(frames: seq<Frame>, started: bool) {
    && frames != []
    && var f := frames[0];
       if IsControl(f) then Accepted(frames[1..], started)
       else
         && IsData(f) && (f.opcode == CONTINUATION ==> started)
         && if f.fin then |frames| == 1 else Accepted(frames[1..], true)
  }

  function Body(frames: seq<Frame>): Bytes {
    if frames == [] then [] else (if IsData(frames[0]) then frames[0].payload else []) + Body(frames[1..])
  }

  function Pings(frames: seq<Frame>): seq<Bytes> {
    if frames == [] then [] else (if frames[0].opcode == PING then [frames[0].payload] else []) + Pings(frames[1..])
  }

  /** The opcode of the last start frame. */
  function LastStart(frames: seq<Frame>, held: Byte): Byte {
    if frames == [] then held else LastStart(frames[1..], if IsStart(frames[0]) then frames[0].opcode else held)
  }

  /** One masked pong for each payload, in order, under successive keys. */
  function Pongs(payloads: seq<Bytes>, keys: nat -> Key, drawn: nat): Bytes {
    if payloads == [] then []
    else Encode(Frame(true, PONG, payloads[0]), Masked(keys(drawn))) + Pongs(payloads[1..], keys, drawn + 1)
  }

  ghost predicate Delivers(r: (Result, Wire), w: Wire, keys: nat -> Key, opcode: Byte, payload: Bytes, rest: Bytes, pings: seq<Bytes>) {
    && r.0 == Message(opcode, payload, rest)
    && r.1.sent == w.sent + Pongs(pings, keys, w.drawn)
  }

  // ----- What is accepted is delivered

  /** What a successful pong changes. */
  ghost predicate Answered(w: Wire, w': Wire, keys: nat -> Key, payload: Bytes) {
    && w'.sent == w.sent + Encode(Frame(true, PONG, payload), Masked(keys(w.drawn)))
    && w'.drawn == w.drawn + 1 && w'.writes >= w.writes - 2
  }

  lemma Regroup(a: Bytes, b: Bytes, c: Bytes)
    ensures a + b + c == a + (b + c)
  {
  }

  lemma PongFirst(w: Wire, w': Wire, keys: nat -> Key, payload: Bytes, others: seq<Bytes>)
    requires Answered(w, w', keys, payload)
    ensures w'.sent + Pongs(others, keys, w'.drawn) == w.sent + Pongs([payload] + others, keys, w.drawn)
  {
    Regroup(w.sent, Encode(Frame(true, PONG, payload), Masked(keys(w.drawn))), Pongs(others, keys, w.drawn + 1));
    assert ([payload] + others)[1..] == others;
  }

  lemma PongWritten(w: Wire, keys: nat -> Key, payload: Bytes)
    requires w.writes >= 2
    ensures var (w', ok) := WriteFrame(w, keys, PONG, payload); ok && Answered(w, w', keys, payload)
  {
    WrittenFrame(w, keys, PONG, payload);
  }

  lemma PingFirst(frames: seq<Frame>)
    requires frames != [] && frames[0].opcode == PING
    ensures Pings(frames) == [frames[0].payload] + Pings(frames[1..]) && Body(frames) == Body(frames[1..])
  {
  }

  lemma DataFirst(frames: seq<Frame>, assembled: Bytes)
    requires frames != []
    ensures IsData(frames[0]) ==>
              assembled + Body(frames) == assembled + frames[0].payload + Body(frames[1..]) && Pings(frames) == Pings(frames[1..])
    ensures IsControl(frames[0]) ==> Body(frames) == Body(frames[1..])
    ensures frames[0].opcode == PONG ==> Pings(frames) == Pings(frames[1..])
  {
  }

  /** One data frame or pong. */
  lemma QuietFrameRead(s: Bytes, f: Frame, after: Bytes, w: Wire, keys: nat -> Key, started: bool, held: Byte, assembled: Bytes)
    requires Parse(s) == Ok(f, after) && (IsData(f) || f.opcode == PONG)
    requires (f.opcode == CONTINUATION ==> started) && (!started ==> assembled == [])
    ensures ReadMessage(s, w, keys, started, held, assembled) ==
            if f.opcode == PONG then ReadMessage(after, w, keys, started, held, assembled)
            else
              var name := if IsStart(f) then f.opcode else held;
              if f.fin then (Message(name, assembled + f.payload, after), w)
              else ReadMessage(after, w, keys, true, name, assembled + f.payload)
  {
    if !started {
      assert assembled + f.payload == f.payload;
    }
  }

  lemma {:induction false} FramesAreRead(
    s: Bytes, frames: seq<Frame>, started: bool, held: Byte, assembled: Bytes, rest: Bytes, w: Wire, keys: nat -> Key)
    requires Holds(s, frames, rest) && Accepted(frames, started) && w.writes >= 2 * |Pings(frames)|
    requires !started ==> assembled == []
    ensures Delivers(ReadMessage(s, w, keys, started, held, assembled),
                     w, keys, LastStart(frames, held), assembled + Body(frames), rest, Pings(frames))
    decreases |frames|
  {
    var (f, after, others) := (frames[0], Parse(s).rest, frames[1..]);
    DataFirst(frames, assembled);
    if f.opcode == PING {
      var w' := WriteFrame(w, keys, PONG, f.payload).0;
      PingFirst(frames);
      PongWritten(w, keys, f.payload);
      PongFirst(w, w', keys, f.payload, Pings(others));
      FramesAreRead(after, others, started, held, assembled, rest, w', keys);
    } else {
      QuietFrameRead(s, f, after, w, keys, started, held, assembled);
      if f.opcode == PONG {
        FramesAreRead(after, others, started, held, assembled, rest, w, keys);
      } else if f.fin {
        assert others == [] && w.sent + Pongs([], keys, w.drawn) == w.sent;
        assert assembled + f.payload + [] == assembled + f.payload;
      } else {
        FramesAreRead(after, others, true, if IsStart(f) then f.opcode else held, assembled + f.payload, rest, w, keys);
      }
    }
  }

  // ----- What is delivered was accepted

  lemma HoldsOneMore(s: Bytes, frames: seq<Frame>, after: Bytes, rest: Bytes)
    requires frames != [] && Parse(s) == Ok(frames[0], after) && Holds(after, frames[1..], rest)
    ensures Holds(s, frames, rest)
  {
  }

  lemma InFront(s: Bytes, f: Frame, after: Bytes, others: seq<Frame>, held: Byte, assembled: Bytes, rest: Bytes)
    requires Parse(s) == Ok(f, after) && Holds(after, others, rest)
    ensures var frames := [f] + others;
            && frames[1..] == others && Holds(s, frames, rest)
            && LastStart(frames, held) == LastStart(others, if IsStart(f) then f.opcode else held)
            && (IsData(f) ==> assembled + Body(frames) == assembled + f.payload + Body(others))
            && (IsControl(f) ==> Body(frames) == Body(others))
  {
    var frames := [f] + others;
    assert frames[1..] == others;
    HoldsOneMore(s, frames, after, rest);
    DataFirst(frames, assembled);
  }

  lemma {:induction false} MessageHasFrames(s: Bytes, w: Wire, keys: nat -> Key, started: bool, held: Byte, assembled: Bytes)
    returns (frames: seq<Frame>)
    requires ReadMessage(s, w, keys, started, held, assembled).0.Message? && (!started ==> assembled == [])
    ensures var r := ReadMessage(s, w, keys, started, held, assembled).0;
            && Holds(s, frames, r.rest) && Accepted(frames, started)
            && r.opcode == LastStart(frames, held) && r.payload == assembled + Body(frames)
    decreases |s|
  {
    var (f, after) := (Parse(s).frame, Parse(s).rest);
    var rest := ReadMessage(s, w, keys, started, held, assembled).0.rest;
    var others := [];
    if f.opcode == PING {
      others := MessageHasFrames(after, WriteFrame(w, keys, PONG, f.payload).0, keys, started, held, assembled);
    } else {
      QuietFrameRead(s, f, after, w, keys, started, held, assembled);
      if f.opcode == PONG {
        others := MessageHasFrames(after, w, keys, started, held, assembled);
      } else if !f.fin {
        others := MessageHasFrames(after, w, keys, true, if IsStart(f) then f.opcode else held, assembled + f.payload);
      } else {
        assert assembled + f.payload + Body([]) == assembled + f.payload;
      }
    }
    InFront(s, f, after, others, held, assembled, rest);
    frames := [f] + others;
  }

  /** Each ping answered was two bytes of input at least. */
  lemma {:induction false} FewPings(s: Bytes, frames: seq<Frame>, rest: Bytes)
    requires Holds(s, frames, rest)
    ensures 2 * |Pings(frames)| <= |s|
    decreases |frames|
  {
    if frames != [] {
      FewPings(Parse(s).rest, frames[1..], rest);
    }
  }

  lemma AcceptedIsMessage(s: Bytes, frames: seq<Frame>, w: Wire, keys: nat -> Key, rest: Bytes)
    requires w.writes >= |s| && Holds(s, frames, rest) && Accepted(frames, false)
    ensures ReadMessage(s, w, keys, false, 0, []).0 == Message(LastStart(frames, 0), Body(frames), rest)
  {
    FewPings(s, frames, rest);
    FramesAreRead(s, frames, false, 0, [], rest, w, keys);
    assert [] + Body(frames) == Body(frames);
  }

  lemma MessageIsAccepted(s: Bytes, w: Wire, keys: nat -> Key) returns (frames: seq<Frame>)
    requires ReadMessage(s, w, keys, false, 0, []).0.Message?
    ensures var r := ReadMessage(s, w, keys, false, 0, []).0;
            Holds(s, frames, r.rest) && Accepted(frames, false) && r.opcode == LastStart(frames, 0) && r.payload == Body(frames)
  {
    frames := MessageHasFrames(s, w, keys, false, 0, []);
    assert [] + Body(frames) == Body(frames);
  }

  /** Exactly which input makes a message, and which message: with writing possible, the
      reader returns one if and only if the input begins with an accepted sequence of
      frames; its payload is the data in order, and its opcode that of the last start. */
  lemma MessageExactly(s: Bytes, w: Wire, keys: nat -> Key, opcode: Byte, payload: Bytes, rest: Bytes)
    requires w.writes >= |s|
    ensures ReadMessage(s, w, keys, false, 0, []).0 == Message(opcode, payload, rest) <==>
            exists frames :: Holds(s, frames, rest) && Accepted(frames, false) && opcode == LastStart(frames, 0) && payload == Body(frames)
  {
    var result := ReadMessage(s, w, keys, false, 0, []).0;
    if result == Message(opcode, payload, rest) {
      var frames := MessageIsAccepted(s, w, keys);
    }
    forall frames | Holds(s, frames, rest) && Accepted(frames, false)
      ensures result == Message(LastStart(frames, 0), Body(frames), rest)
    {
      AcceptedIsMessage(s, frames, w, keys, rest);
    }
  }

  // ----- What section 5.4 of RFC 6455 allows

  /** One message as section 5.4 has it: a start frame and then only continuations, with
      control frames in between that are not themselves fragmented. */
  predicate Conforming(frames: seq<Frame>, started: bool) {
    && frames != []
    && var f := frames[0];
       if IsControl(f) then f.fin && Conforming(frames[1..], started)
       else
         && IsData(f) && (f.opcode == CONTINUATION <==> started)
         && if f.fin then |frames| == 1 else Conforming(frames[1..], true)
  }

  /** A start frame inside a message already begun. */
  predicate StartsAgain(frames: seq<Frame>, started: bool) {
    frames != [] && ((started && IsStart(frames[0])) || StartsAgain(frames[1..], started || IsData(frames[0])))
  }

  predicate SplitsControl(frames: seq<Frame>) {
    exists i :: 0 <= i < |frames| && IsControl(frames[i]) && !frames[i].fin
  }

  lemma SplitsLater(frames: seq<Frame>)
    requires frames != []
    ensures SplitsControl(frames) <==> (IsControl(frames[0]) && !frames[0].fin) || SplitsControl(frames[1..])
  {
    var others := frames[1..];
    if SplitsControl(others) {
      var i :| 0 <= i < |others| && IsControl(others[i]) && !others[i].fin;
      assert frames[i + 1] == others[i];
    }
    if SplitsControl(frames) {
      var i :| 0 <= i < |frames| && IsControl(frames[i]) && !frames[i].fin;
      assert i == 0 || others[i - 1] == frames[i];
    }
  }

  /** Of the sequences the reader accepts, exactly those conform that do not start again
      and do not split a control frame; these two rules are the ones it does not enforce. */
  lemma {:induction false} ConformsExactly(frames: seq<Frame>, started: bool)
    ensures Conforming(frames, started) <==>
            Accepted(frames, started) && !StartsAgain(frames, started) && !SplitsControl(frames)
    decreases |frames|
  {
    if frames != [] {
      var f, others := frames[0], frames[1..];
      SplitsLater(frames);
      ConformsExactly(others, started);
      ConformsExactly(others, true);
      if IsData(f) && f.fin && |frames| == 1 {
        assert others == [] && !StartsAgain(others, true) && !SplitsControl(others);
      }
    }
  }

  function FirstStart(frames: seq<Frame>): Byte {
    if frames == [] then 0 else if IsStart(frames[0]) then frames[0].opcode else FirstStart(frames[1..])
  }

  /** A conforming message has one start, so it is delivered under its own opcode. */
  lemma {:induction false} OneStart(frames: seq<Frame>, started: bool, held: Byte)
    requires Conforming(frames, started)
    ensures LastStart(frames, held) == if started then held else FirstStart(frames)
    decreases |frames|
  {
    var f, others := frames[0], frames[1..];
    if IsControl(f) {
      OneStart(others, started, held);
    } else if !f.fin {
      OneStart(others, true, if IsStart(f) then f.opcode else held);
    } else {
      assert others == [];
    }
  }

  /** What the reader returns breaks section 5.4 exactly if it was spliced from more than
      one start, or a control frame in it was fragmented. */
  lemma DeliveredAgainstRules(s: Bytes, w: Wire, keys: nat -> Key) returns (frames: seq<Frame>)
    requires ReadMessage(s, w, keys, false, 0, []).0.Message?
    ensures var r := ReadMessage(s, w, keys, false, 0, []).0;
            && Holds(s, frames, r.rest) && r.opcode == LastStart(frames, 0) && r.payload == Body(frames)
            && (!Conforming(frames, false) <==> StartsAgain(frames, false) || SplitsControl(frames))
            && (Conforming(frames, false) ==> r.opcode == FirstStart(frames))
  {
    frames := MessageIsAccepted(s, w, keys);
    ConformsExactly(frames, false);
    if Conforming(frames, false) {
      OneStart(frames, false, 0);
    }
  }

  /** The sequence of frames is determined by the input. */
  lemma {:induction false} FramesUnique(s: Bytes, a: seq<Frame>, b: seq<Frame>, rest: Bytes, rest': Bytes, started: bool)
    requires Holds(s, a, rest) && Holds(s, b, rest') && Accepted(a, started) && Accepted(b, started)
    ensures a == b
    decreases |a|
  {
    if IsControl(a[0]) {
      FramesUnique(Parse(s).rest, a[1..], b[1..], rest, rest', started);
    } else if !a[0].fin {
      FramesUnique(Parse(s).rest, a[1..], b[1..], rest, rest', true);
    }
    assert a == [a[0]] + a[1..] && b == [b[0]] + b[1..];
  }

  // ----- On the wire

  predicate Encodable(frames: seq<Frame>) {
    forall i :: 0 <= i < |frames| ==> frames[i].opcode < 0x10 && |frames[i].payload| <= MAX_PAYLOAD
  }

  /** The frames as a peer may send them, each under a mask of its own or unmasked. */
  function Stream(frames: seq<Frame>, masks: seq<Mask>): Bytes
    requires Encodable(frames) && |masks| == |frames|
  {
    if frames == [] then [] else Encode(frames[0], masks[0]) + Stream(frames[1..], masks[1..])
  }

  lemma StreamSplit(frames: seq<Frame>, masks: seq<Mask>, rest: Bytes)
    requires Encodable(frames) && |masks| == |frames| && frames != []
    ensures Stream(frames, masks) + rest == Encode(frames[0], masks[0]) + (Stream(frames[1..], masks[1..]) + rest)
  {
  }

  lemma {:induction false} StreamHolds(frames: seq<Frame>, masks: seq<Mask>, rest: Bytes)
    requires Encodable(frames) && |masks| == |frames|
    ensures Holds(Stream(frames, masks) + rest, frames, rest)
    decreases |frames|
  {
    if frames == [] {
      assert [] + rest == rest;
    } else {
      var after := Stream(frames[1..], masks[1..]) + rest;
      StreamHolds(frames[1..], masks[1..], rest);
      FrameRoundTrip(frames[0], masks[0], after);
      StreamSplit(frames, masks, rest);
      HoldsOneMore(Stream(frames, masks) + rest, frames, after, rest);
    }
  }

  /** Any text or binary message, split into any fragments under any masks with pings
      and pongs in between, is returned whole under its own opcode; exactly its bytes
      are consumed, and each ping is answered by one pong with its payload, in order. */
  lemma MessageRoundTrip(frames: seq<Frame>, masks: seq<Mask>, rest: Bytes, w: Wire, keys: nat -> Key)
    requires Conforming(frames, false) && Encodable(frames) && |masks| == |frames| && w.writes >= 2 * |Pings(frames)|
    ensures Delivers(ReadMessage(Stream(frames, masks) + rest, w, keys, false, 0, []),
                     w, keys, FirstStart(frames), Body(frames), rest, Pings(frames))
  {
    StreamHolds(frames, masks, rest);
    ConformsExactly(frames, false);
    OneStart(frames, false, 0);
    FramesAreRead(Stream(frames, masks) + rest, frames, false, 0, [], rest, w, keys);
    assert [] + Body(frames) == Body(frames);
  }

  function PongFrames(payloads: seq<Bytes>): seq<Frame> {
    if payloads == [] then [] else [Frame(true, PONG, payloads[0])] + PongFrames(payloads[1..])
  }

  /** The pongs on the wire parse back to the ping payloads, all of them and in order. */
  lemma {:induction false} PongsCarryPings(payloads: seq<Bytes>, keys: nat -> Key, drawn: nat)
    requires forall i :: 0 <= i < |payloads| ==> |payloads[i]| <= MAX_PAYLOAD
    ensures Holds(Pongs(payloads, keys, drawn), PongFrames(payloads), [])
    decreases |payloads|
  {
    if payloads != [] {
      var (frame, others) := (Frame(true, PONG, payloads[0]), payloads[1..]);
      var after := Pongs(others, keys, drawn + 1);
      PongsCarryPings(others, keys, drawn + 1);
      FrameRoundTrip(frame, Masked(keys(drawn)), after);
      assert PongFrames(payloads)[1..] == PongFrames(others);
      HoldsOneMore(Pongs(payloads, keys, drawn), PongFrames(payloads), after, []);
    }
  }

  /** Messages that start again under any fragmentation and masks are not refused: all
      their data is spliced under the opcode of the last start. */
  lemma SecondStartIsSpliced(frames: seq<Frame>, masks: seq<Mask>, rest: Bytes, w: Wire, keys: nat -> Key)
    requires Accepted(frames, false) && StartsAgain(frames, false) && Encodable(frames) && |masks| == |frames|
    requires w.writes >= 2 * |Pings(frames)|
    ensures !Conforming(frames, false)
    ensures Delivers(ReadMessage(Stream(frames, masks) + rest, w, keys, false, 0, []),
                     w, keys, LastStart(frames, 0), Body(frames), rest, Pings(frames))
  {
    StreamHolds(frames, masks, rest);
    ConformsExactly(frames, false);
    FramesAreRead(Stream(frames, masks) + rest, frames, false, 0, [], rest, w, keys);
    assert [] + Body(frames) == Body(frames);
  }

  lemma StreamOfTwo(f: Frame, g: Frame, rest: Bytes)
    requires Encodable([f, g]) && f.opcode < 0x10 && g.opcode < 0x10
    ensures Stream([f, g], [Clear, Clear]) + rest == Encode(f, Clear) + (Encode(g, Clear) + rest)
  {
    assert Encodable([f, g][1..]) && [f, g][1..] == [g] && [Clear, Clear][1..] == [Clear];
    StreamSplit([f, g], [Clear, Clear], rest);
    StreamSplit([g], [Clear], rest);
    assert [] + rest == rest;
  }

  lemma TwoStarts(f: Frame, g: Frame)
    requires IsStart(f) && IsStart(g) && !f.fin && g.fin
    ensures Accepted([f, g], false) && StartsAgain([f, g], false) && LastStart([f, g], 0) == g.opcode
    ensures Body([f, g]) == f.payload + g.payload && Pings([f, g]) == []
  {
    assert [f, g][1..] == [g] && [g][1..] == [];
    assert Body([g]) == g.payload;
    assert Pings([g]) == [];
    assert LastStart([g], f.opcode) == LastStart([], g.opcode);
    assert LastStart([f, g], 0) == LastStart([g], f.opcode);
  }

  /** A witness: a text frame and a final binary frame make one binary message. */
  lemma TextThenBinary(f: Frame, g: Frame, rest: Bytes, w: Wire, keys: nat -> Key)
    requires IsStart(f) && IsStart(g) && !f.fin && g.fin
    requires |f.payload| <= MAX_PAYLOAD && |g.payload| <= MAX_PAYLOAD
    ensures ReadMessage(Encode(f, Clear) + (Encode(g, Clear) + rest), w, keys, false, 0, []).0
         == Message(g.opcode, f.payload + g.payload, rest)
  {
    TwoStarts(f, g);
    StreamOfTwo(f, g, rest);
    SecondStartIsSpliced([f, g], [Clear, Clear], rest, w, keys);
  }

  /** A witness for the other rule: a ping marked as a fragment is answered all the same. */
  lemma SplitPingIsAccepted(ping: Bytes, g: Frame)
    requires IsStart(g) && g.fin
    ensures var frames := [Frame(false, PING, ping), g]; Accepted(frames, false) && !Conforming(frames, false)
  {
    assert [Frame(false, PING, ping), g][1..] == [g];
  }
}
