/** What the frame and message readers of pkg/tts/cartesia_ws.go let pass that RFC 6455
    does not allow a server to send (sections 5.1, 5.2, 5.4 and 5.5). */
module WebSocketRules {
  import opened Octets
  import opened WebSocket
  import opened WebSocketMessages

  // ----- One frame

  /** The three reserved bits are zero. */
  predicate ReservedClear(s: Bytes)
    requires s != []
  {
    s[0] / 0x10 % 8 == 0
  }

  /** The length is in the shortest of the three forms. */
  predicate Minimal(s: Bytes)
    requires |s| >= 2 && |s| >= 2 + Extension(s[1] % 0x80)
  {
    var ext := Extension(s[1] % 0x80);
    && (ext == 2 ==> FromBigEndian(s[2..4]) > 125)
    && (ext == 8 ==> FromBigEndian(s[2..10]) > 65535)
  }

  function MaskOf(s: Bytes): Mask
    requires Parse(s).Ok?
  {
    var at := 2 + Extension(s[1] % 0x80);
    if s[1] < 0x80 then Clear else Masked(Key(s[at], s[at + 1], s[at + 2], s[at + 3]))
  }

  lemma FirstExactly(b: Byte, opcode: Byte)
    requires opcode == b % 0x10
    ensures First(b >= 0x80, opcode) == b <==> b / 0x10 % 8 == 0
  {
  }

  lemma SecondExactly(b: Byte)
    ensures Second(b >= 0x80, b % 0x80) == b
  {
  }

  /** The bytes after the header are the key, if any, and the payload as masked. */
  lemma PayloadIs(fin: bool, opcode: Byte, masked: bool, length: nat, s: Bytes)
    requires length <= MAX_PAYLOAD && ParsePayload(fin, opcode, masked, length, s).Ok?
    ensures masked ==> |s| >= 4
    ensures var r := ParsePayload(fin, opcode, masked, length, s);
            var mask := if masked then Masked(Key(s[0], s[1], s[2], s[3])) else Clear;
            s == KeyOctets(mask) + Apply(mask, r.frame.payload) + r.rest
  {
    if masked {
      MaskTwice(Masked(Key(s[0], s[1], s[2], s[3])), s[4..4 + length]);
      assert s == s[..4] + s[4..4 + length] + s[4 + length..];
    }
  }

  lemma NumberIs(bs: Bytes)
    requires |bs| == 2 || |bs| == 8
    ensures FromBigEndian(bs) < (if |bs| == 2 then 0x1_0000 else 0x1_0000_0000_0000_0000)
    ensures AsInt64(FromBigEndian(bs)) >= 0 ==> AsInt64(FromBigEndian(bs)) == FromBigEndian(bs)
  {
    FromBigEndianBound(bs);
    assert Pow256(2) == 0x1_0000;
    assert Pow256(4) == 0x1_0000_0000;
    assert Pow256(6) == 0x1_0000_0000_0000;
    assert Pow256(8) == 0x1_0000_0000_0000_0000;
  }

  /** Where a frame that was read lies in the input. */
  lemma HeaderIs(s: Bytes)
    requires Parse(s).Ok?
    ensures |s| >= 2 && var ext := Extension(s[1] % 0x80);
            var n := |Parse(s).frame.payload|;
            && |s| >= 2 + ext && (s[1] >= 0x80 ==> |s| >= 6 + ext)
            && n == (if ext == 0 then s[1] % 0x80 else FromBigEndian(s[2..2 + ext]))
            && Parse(s).frame.fin == (s[0] >= 0x80) && Parse(s).frame.opcode == s[0] % 0x10
            && s[2 + ext..] == KeyOctets(MaskOf(s)) + Apply(MaskOf(s), Parse(s).frame.payload) + Parse(s).rest
  {
    var ext := Extension(s[1] % 0x80);
    if ext != 0 {
      NumberIs(s[2..2 + ext]);
    }
    var length := if ext == 0 then s[1] % 0x80 else AsInt64(FromBigEndian(s[2..2 + ext]));
    PayloadIs(s[0] >= 0x80, s[0] % 0x10, s[1] >= 0x80, length, s[2 + ext..]);
  }

  /** An extended length in its shortest form is the one that would be written. */
  lemma ExtendedIs(masked: bool, number: Bytes)
    requires |number| == 2 || |number| == 8
    requires FromBigEndian(number) > (if |number| == 2 then 125 else 65535)
    ensures Length(masked, FromBigEndian(number)) == [Second(masked, if |number| == 2 then 126 else 127)] + number
  {
    NumberIs(number);
    FromBigEndianRoundTrip(number);
  }

  lemma CountIs(s: Bytes)
    requires Parse(s).Ok?
    ensures |s| >= 2 && var ext := Extension(s[1] % 0x80);
            && |s| >= 2 + ext && MaskOf(s).Masked? == (s[1] >= 0x80)
            && |Parse(s).frame.payload| == (if ext == 0 then s[1] % 0x80 else FromBigEndian(s[2..2 + ext]))
  {
    HeaderIs(s);
  }

  lemma LengthIs(s: Bytes)
    requires Parse(s).Ok? && Minimal(s)
    ensures s[1..2 + Extension(s[1] % 0x80)] == Length(MaskOf(s).Masked?, |Parse(s).frame.payload|)
  {
    var (masked, ext) := (s[1] >= 0x80, Extension(s[1] % 0x80));
    CountIs(s);
    SecondExactly(s[1]);
    if ext == 0 {
      assert Length(masked, s[1] % 0x80) == [s[1]];
    } else {
      ExtendedIs(masked, s[2..2 + ext]);
      assert s[1..2 + ext] == [s[1]] + s[2..2 + ext];
    }
  }

  lemma Assembled(s: Bytes, k: nat, l: Bytes, tail: Bytes)
    requires 1 <= k <= |s| && s[1..k] == l && s[k..] == tail
    ensures s == [s[0]] + l + tail
  {
  }

  lemma CleanIsEncoded(s: Bytes)
    requires Parse(s).Ok? && ReservedClear(s) && Minimal(s)
    ensures s == Encode(Parse(s).frame, MaskOf(s)) + Parse(s).rest
  {
    var (f, mask, rest) := (Parse(s).frame, MaskOf(s), Parse(s).rest);
    HeaderIs(s);
    LengthIs(s);
    FirstExactly(s[0], f.opcode);
    Assembled(s, 2 + Extension(s[1] % 0x80), Length(mask.Masked?, |f.payload|), KeyOctets(mask) + Apply(mask, f.payload) + rest);
    EncodeShape(f, mask, rest);
  }

  lemma EncodedIsClean(s: Bytes, mask: Mask)
    requires Parse(s).Ok? && s == Encode(Parse(s).frame, mask) + Parse(s).rest
    ensures ReservedClear(s) && Minimal(s) && mask.Masked? == (s[1] >= 0x80)
  {
    var f := Parse(s).frame;
    var n := |f.payload|;
    var tail := KeyOctets(mask) + Apply(mask, f.payload) + Parse(s).rest;
    HeaderIs(s);
    EncodeShape(f, mask, Parse(s).rest);
    LengthParses(mask.Masked?, n, First(f.fin, f.opcode), tail);
    FirstExactly(s[0], f.opcode);
    SecondParses(mask.Masked?, if n <= 125 then n else if n <= 65535 then 126 else 127);
  }

  /** The converse of FrameRoundTrip: what is read as a frame was encoded as that frame,
      under some mask, exactly if its reserved bits are zero and its length is minimal. */
  lemma ReadIsEncodedExactly(s: Bytes)
    requires Parse(s).Ok?
    ensures (exists mask :: s == Encode(Parse(s).frame, mask) + Parse(s).rest) <==> ReservedClear(s) && Minimal(s)
  {
    if ReservedClear(s) && Minimal(s) {
      CleanIsEncoded(s);
    }
    if mask :| s == Encode(Parse(s).frame, mask) + Parse(s).rest {
      EncodedIsClean(s, mask);
    }
  }

  // ----- One message

  /** The headers of all frames are as section 5.2 has them. */
  ghost predicate CleanHeaders(s: Bytes, frames: seq<Frame>)
    decreases |frames|
  {
    frames == [] ||
    (Parse(s).Ok? && ReservedClear(s) && Minimal(s) && CleanHeaders(Parse(s).rest, frames[1..]))
  }

  /** No frame is masked, as section 5.1 asks of a server. */
  ghost predicate Unmasked(s: Bytes, frames: seq<Frame>)
    decreases |frames|
  {
    frames == [] || (Parse(s).Ok? && s[1] < 0x80 && Unmasked(Parse(s).rest, frames[1..]))
  }

  /** Control payloads are within the 125 bytes of section 5.5. */
  predicate ShortControls(frames: seq<Frame>) {
    forall i :: 0 <= i < |frames| && IsControl(frames[i]) ==> |frames[i].payload| <= 125
  }

  function AllClear(n: nat): (masks: seq<Mask>)
    ensures |masks| == n
  {
    if n == 0 then [] else [Clear] + AllClear(n - 1)
  }

  lemma {:induction false} HeldAreEncodable(s: Bytes, frames: seq<Frame>, rest: Bytes)
    requires Holds(s, frames, rest)
    ensures Encodable(frames)
    decreases |frames|
  {
    if frames != [] {
      CountIs(s);
      HeaderIs(s);
      HeldAreEncodable(Parse(s).rest, frames[1..], rest);
      assert forall i :: 1 <= i < |frames| ==> frames[i] == frames[1..][i - 1];
    }
  }

  lemma ClearIsEncoded(s: Bytes)
    requires Parse(s).Ok?
    ensures s == Encode(Parse(s).frame, Clear) + Parse(s).rest <==> ReservedClear(s) && Minimal(s) && s[1] < 0x80
  {
    if ReservedClear(s) && Minimal(s) && s[1] < 0x80 {
      CleanIsEncoded(s);
    }
    if s == Encode(Parse(s).frame, Clear) + Parse(s).rest {
      EncodedIsClean(s, Clear);
    }
  }

  lemma ClearSplit(frames: seq<Frame>, rest: Bytes)
    requires Encodable(frames) && frames != []
    ensures Stream(frames, AllClear(|frames|)) + rest ==
            Encode(frames[0], Clear) + (Stream(frames[1..], AllClear(|frames[1..]|)) + rest)
  {
    assert AllClear(|frames|)[1..] == AllClear(|frames[1..]|);
    StreamSplit(frames, AllClear(|frames|), rest);
  }

  /** Two ways of going on after the same frame are told apart. */
  lemma SameAfter(f: Frame, s: Bytes, after: Bytes, other: Bytes)
    requires f.opcode < 0x10 && |f.payload| <= MAX_PAYLOAD && Parse(s) == Ok(f, after)
    ensures s == Encode(f, Clear) + other <==> s == Encode(f, Clear) + after && after == other
  {
    FrameRoundTrip(f, Clear, other);
  }

  /** The input is those frames as an encoder writes them unmasked, exactly if every
      header is clean and no frame is masked. */
  lemma {:induction false} WrittenClearExactly(s: Bytes, frames: seq<Frame>, rest: Bytes)
    requires Holds(s, frames, rest) && Encodable(frames)
    ensures s == Stream(frames, AllClear(|frames|)) + rest <==> CleanHeaders(s, frames) && Unmasked(s, frames)
    decreases |frames|
  {
    if frames == [] {
      assert [] + rest == rest;
    } else {
      var after := Parse(s).rest;
      ClearSplit(frames, rest);
      WrittenClearExactly(after, frames[1..], rest);
      ClearIsEncoded(s);
      SameAfter(frames[0], s, after, Stream(frames[1..], AllClear(|frames[1..]|)) + rest);
    }
  }

  /** What a server keeping to sections 5.1, 5.2, 5.4 and 5.5 may send as one message. */
  ghost predicate ServerMaySend(s: Bytes, frames: seq<Frame>, rest: Bytes) {
    && Conforming(frames, false) && ShortControls(frames) && Encodable(frames)
    && s == Stream(frames, AllClear(|frames|)) + rest
  }

  /** The exact condition: what the reader makes a message of is what a server may send if
      and only if it breaks none of six rules, so these are the ones of those sections that
      the reader does not enforce: no second start, no control frame fragmented or longer
      than 125 bytes, reserved bits zero, lengths minimal, no masks. */
  lemma MaySendExactly(s: Bytes, frames: seq<Frame>, rest: Bytes)
    requires Holds(s, frames, rest) && Accepted(frames, false)
    ensures ServerMaySend(s, frames, rest) <==>
            && !StartsAgain(frames, false) && !SplitsControl(frames) && ShortControls(frames)
            && CleanHeaders(s, frames) && Unmasked(s, frames)
  {
    HeldAreEncodable(s, frames, rest);
    ConformsExactly(frames, false);
    WrittenClearExactly(s, frames, rest);
  }

  lemma PingThen(ping: Bytes, g: Frame)
    requires IsStart(g) && g.fin
    ensures var frames := [Frame(true, PING, ping), g];
            Accepted(frames, false) && Pings(frames) == [ping] && Body(frames) == g.payload && LastStart(frames, 0) == g.opcode
  {
    var frames := [Frame(true, PING, ping), g];
    assert frames[1..] == [g] && [g][1..] == [];
    assert Pings([g]) == [] && Body([g]) == g.payload + [] && LastStart([g], 0) == LastStart([], g.opcode);
  }

  lemma OnePong(ping: Bytes, keys: nat -> Key, drawn: nat)
    ensures Pongs([ping], keys, drawn) == Encode(Frame(true, PONG, ping), Masked(keys(drawn)))
  {
    assert Pongs([ping][1..], keys, drawn + 1) == [];
  }

  /** A ping may be as long as any frame, and the pong that answers it is as long. */
  lemma LongPingIsAnswered(ping: Bytes, g: Frame, rest: Bytes, w: Wire, keys: nat -> Key)
    requires 125 < |ping| <= MAX_PAYLOAD && IsStart(g) && g.fin && |g.payload| <= MAX_PAYLOAD && w.writes >= 2
    ensures var (result, w') := ReadMessage(Encode(Frame(true, PING, ping), Clear) + (Encode(g, Clear) + rest), w, keys, false, 0, []);
            && result == Message(g.opcode, g.payload, rest)
            && w'.sent == w.sent + Encode(Frame(true, PONG, ping), Masked(keys(w.drawn)))
  {
    var f := Frame(true, PING, ping);
    PingThen(ping, g);
    OnePong(ping, keys, w.drawn);
    StreamOfTwo(f, g, rest);
    StreamHolds([f, g], [Clear, Clear], rest);
    FramesAreRead(Stream([f, g], [Clear, Clear]) + rest, [f, g], false, 0, [], rest, w, keys);
    assert [] + Body([f, g]) == g.payload;
  }
}
