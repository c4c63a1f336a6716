/** The WebSocket framing of pkg/tts/cartesia_ws.go (RFC 6455, sections 5.2 to 5.5). */
module WebSocket {
  import opened Octets

  const CONTINUATION: Byte := 0x0
  const TEXT: Byte := 0x1
  const BINARY: Byte := 0x2
  const CLOSE: Byte := 0x8
  const PING: Byte := 0x9
  const PONG: Byte := 0xA

  const MAX_PAYLOAD := 16 * 1024 * 1024

  datatype Key = Key(k0: Byte, k1: Byte, k2: Byte, k3: Byte) {
    function At(i: nat): Byte {
      var r := i % 4;
      if r == 0 then k0 else if r == 1 then k1 else if r == 2 then k2 else k3
    }

    function Octets(): Bytes {
      [k0, k1, k2, k3]
    }
  }

  datatype Mask = Clear | Masked(key: Key)

  datatype Frame = Frame(fin: bool, opcode: Byte, payload: Bytes)

  // ----- Numbers on the wire

  /** A uint64 read as int64. */
  function AsInt64(n: nat): int {
    if n % 0x1_0000_0000_0000_0000 >= 0x8000_0000_0000_0000
    then n % 0x1_0000_0000_0000_0000 - 0x1_0000_0000_0000_0000
    else n % 0x1_0000_0000_0000_0000
  }

  // ----- Masking

  function Apply(mask: Mask, payload: Bytes): (out: Bytes)
    ensures |out| == |payload|
  {
    match mask
    case Clear => payload
    case Masked(key) => seq(|payload|, i requires 0 <= i < |payload| => Xor(payload[i], key.At(i)))
  }

  lemma MaskTwice(mask: Mask, payload: Bytes)
    ensures Apply(mask, Apply(mask, payload)) == payload
  {
    if mask.Masked? {
      var once := Apply(mask, payload);
      var twice := Apply(mask, once);
      forall i | 0 <= i < |payload|
        ensures twice[i] == payload[i]
      {
        XorTwice(payload[i], mask.key.At(i));
      }
    }
  }

  // ----- Encoding

  function First(fin: bool, opcode: Byte): Byte
    requires opcode < 0x80
  {
    (if fin then 0x80 else 0x00) + opcode
  }

  function Second(masked: bool, len7: nat): Byte
    requires len7 < 0x80
  {
    (if masked then 0x80 else 0x00) + len7
  }

  function Length(masked: bool, n: nat): Bytes {
    if n <= 125 then [Second(masked, n)]
    else if n <= 65535 then [Second(masked, 126)] + BigEndian(n, 2)
    else [Second(masked, 127)] + BigEndian(n, 8)
  }

  function KeyOctets(mask: Mask): Bytes {
    match mask
    case Clear => []
    case Masked(key) => key.Octets()
  }

  function Encode(f: Frame, mask: Mask): Bytes
    requires f.opcode < 0x80
  {
    [First(f.fin, f.opcode)] + Length(mask.Masked?, |f.payload|) + KeyOctets(mask) + Apply(mask, f.payload)
  }

  // ----- Decoding

  datatype Parsed = Ok(frame: Frame, rest: Bytes) | Truncated | TooLarge

  function Extension(len7: nat): nat {
    if len7 == 126 then 2 else if len7 == 127 then 8 else 0
  }

  function Parse(s: Bytes): (r: Parsed)
    ensures r.Ok? ==>
              && |r.rest| + 2 <= |s| && r.rest == s[|s| - |r.rest|..]
              && |r.frame.payload| <= MAX_PAYLOAD
  {
    if |s| < 2 then Truncated
    else
      var fin, opcode := s[0] >= 0x80, s[0] % 0x10;
      var masked, len7 := s[1] >= 0x80, s[1] % 0x80;
      var ext := Extension(len7);
      if |s| < 2 + ext then Truncated
      else
        var length := if ext == 0 then len7 else AsInt64(FromBigEndian(s[2..2 + ext]));
        if length < 0 || length > MAX_PAYLOAD then TooLarge
        else ParsePayload(fin, opcode, masked, length, s[2 + ext..])
  }

  function ParsePayload(fin: bool, opcode: Byte, masked: bool, length: nat, s: Bytes): (r: Parsed)
    requires length <= MAX_PAYLOAD
    ensures r.Ok? ==>
              && |r.rest| <= |s| && r.rest == s[|s| - |r.rest|..]
              && |r.frame.payload| == length
  {
    if masked then
      if |s| < 4 + length then Truncated
      else
        var key := Key(s[0], s[1], s[2], s[3]);
        Ok(Frame(fin, opcode, Apply(Masked(key), s[4..4 + length])), s[4 + length..])
    else
      if |s| < length then Truncated
      else Ok(Frame(fin, opcode, s[..length]), s[length..])
  }

  // ----- Reading undoes writing

  lemma WideEnough(n: nat, width: nat)
    requires (width == 2 && n <= 65535) || (width == 8 && n <= MAX_PAYLOAD)
    ensures n < Pow256(width)
  {
    assert Pow256(2) == 65536;
    assert Pow256(4) == 0x1_0000_0000;
    assert Pow256(6) >= 0x1_0000_0000;
  }

  /** Where the extended length and what follows it are found. */
  lemma ExtensionAt(head: Byte, second: Byte, number: Bytes, tail: Bytes)
    ensures var s := [head] + ([second] + number) + tail;
            s[1] == second && s[2..2 + |number|] == number && s[2 + |number|..] == tail
  {
  }

  lemma ExtendedLength(n: nat, width: nat)
    requires (width == 2 && n <= 65535) || (width == 8 && n <= MAX_PAYLOAD)
    ensures AsInt64(FromBigEndian(BigEndian(n, width))) == n
  {
    WideEnough(n, width);
    BigEndianRoundTrip(n, width);
  }

  lemma LengthParses(masked: bool, n: nat, head: Byte, tail: Bytes)
    requires n <= MAX_PAYLOAD
    ensures var l := Length(masked, n);
            var s := [head] + l + tail;
            var len7 := s[1] % 0x80;
            var ext := Extension(len7);
            && |l| == 1 + ext && (s[1] >= 0x80) == masked && s[2 + ext..] == tail
            && n == if ext == 0 then len7 else AsInt64(FromBigEndian(s[2..2 + ext]))
  {
    var len7 := if n <= 125 then n else if n <= 65535 then 126 else 127;
    var ext := Extension(len7);
    var number: Bytes := if n <= 125 then [] else BigEndian(n, ext);
    var second := Second(masked, len7);
    SecondParses(masked, len7);
    assert Length(masked, n) == [second] + number;
    ExtensionAt(head, second, number, tail);
    if n > 125 {
      ExtendedLength(n, ext);
    }
  }

  lemma SecondParses(masked: bool, len7: nat)
    requires len7 < 0x80
    ensures var b := Second(masked, len7); b % 0x80 == len7 && (b >= 0x80) == masked
  {
  }

  lemma PayloadParses(fin: bool, opcode: Byte, mask: Mask, payload: Bytes, rest: Bytes)
    requires |payload| <= MAX_PAYLOAD
    ensures ParsePayload(fin, opcode, mask.Masked?, |payload|, KeyOctets(mask) + Apply(mask, payload) + rest)
         == Ok(Frame(fin, opcode, payload), rest)
  {
    var body := Apply(mask, payload);
    var s := KeyOctets(mask) + body + rest;
    var k := |KeyOctets(mask)|;
    assert s[k..k + |payload|] == body && s[k + |payload|..] == rest;
    match mask
    case Clear =>
      assert s[..|payload|] == body;
    case Masked(key) =>
      assert Key(s[0], s[1], s[2], s[3]) == key;
      MaskTwice(mask, payload);
  }

  lemma EncodeShape(f: Frame, mask: Mask, rest: Bytes)
    requires f.opcode < 0x80
    ensures Encode(f, mask) + rest ==
            [First(f.fin, f.opcode)] + Length(mask.Masked?, |f.payload|) + (KeyOctets(mask) + Apply(mask, f.payload) + rest)
  {
  }

  lemma ParseShape(fin: bool, opcode: Byte, masked: bool, n: nat, tail: Bytes)
    requires opcode < 0x10 && n <= MAX_PAYLOAD
    ensures Parse([First(fin, opcode)] + Length(masked, n) + tail) == ParsePayload(fin, opcode, masked, n, tail)
  {
    LengthParses(masked, n, First(fin, opcode), tail);
    assert First(fin, opcode) % 0x10 == opcode;
  }

  /** readWSFrame undoes the encoding of any frame, masked or not, and leaves the
      bytes that follow untouched. */
  lemma FrameRoundTrip(f: Frame, mask: Mask, rest: Bytes)
    requires f.opcode < 0x10 && |f.payload| <= MAX_PAYLOAD
    ensures Parse(Encode(f, mask) + rest) == Ok(f, rest)
  {
    EncodeShape(f, mask, rest);
    ParseShape(f.fin, f.opcode, mask.Masked?, |f.payload|, KeyOctets(mask) + Apply(mask, f.payload) + rest);
    PayloadParses(f.fin, f.opcode, mask, f.payload, rest);
  }

  // ----- The connection

  /** What has been written, how many more writes will succeed, and how many masking
      keys have been drawn from the random source. */
  datatype Wire = Wire(sent: Bytes, writes: nat, drawn: nat)

  function WriteBytes(w: Wire, bs: Bytes): (Wire, bool) {
    if w.writes == 0 then (w, false) else (w.(sent := w.sent + bs, writes := w.writes - 1), true)
  }

  function WriteFrame(w: Wire, keys: nat -> Key, opcode: Byte, payload: Bytes): (Wire, bool)
    requires opcode < 0x10
  {
    var mask := Masked(keys(w.drawn));
    var (w1, ok) := WriteBytes(w.(drawn := w.drawn + 1),
                               [First(true, opcode)] + Length(true, |payload|) + KeyOctets(mask));
    if !ok || payload == [] then (w1, ok) else WriteBytes(w1, Apply(mask, payload))
  }

  class Conn {
    var sent: Bytes
    var writes: nat
    var drawn: nat
    const keys: nat -> Key

    function Abs(): Wire
      reads this
    {
      Wire(sent, writes, drawn)
    }

    constructor (keys: nat -> Key, writes: nat)
      ensures Abs() == Wire([], writes, 0) && this.keys == keys
    {
      this.keys := keys;
      sent, this.writes, drawn := [], writes, 0;
    }

    method Write(bs: Bytes) returns (ok: bool)
      modifies this
      ensures (Abs(), ok) == WriteBytes(old(Abs()), bs)
    {
      ok := writes > 0;
      if ok {
        sent, writes := sent + bs, writes - 1;
      }
    }

    /** writeWSFrame: one unfragmented, masked client frame. */
    method WriteWSFrame(opcode: Byte, payload: Bytes) returns (ok: bool)
      requires opcode < 0x10
      modifies this
      ensures (Abs(), ok) == WriteFrame(old(Abs()), keys, opcode, payload)
    {
      var n := |payload|;
      var header: Bytes := [0x80 + opcode];
      if n <= 125 {
        header := header + [0x80 + n];
      } else if n <= 65535 {
        header := header + [0x80 + 126] + BigEndian(n, 2);
      } else {
        header := header + [0x80 + 127] + BigEndian(n, 8);
      }
      var maskKey := keys(drawn);
      drawn := drawn + 1;
      header := header + maskKey.Octets();
      assert header == [First(true, opcode)] + Length(true, n) + KeyOctets(Masked(maskKey));
      ok := Write(header);
      if !ok || n == 0 {
        return;
      }
      var masked: Bytes := [];
      for i := 0 to n
        invariant masked == Apply(Masked(maskKey), payload)[..i]
      {
        masked := masked + [Xor(payload[i], maskKey.At(i))];
      }
      assert masked == Apply(Masked(maskKey), payload);
      ok := Write(masked);
    }
  }

  /** A successful write puts exactly one encoded frame on the wire. */
  lemma WrittenFrame(w: Wire, keys: nat -> Key, opcode: Byte, payload: Bytes)
    requires opcode < 0x10
    ensures var (w', ok) := WriteFrame(w, keys, opcode, payload);
            && (ok ==> w'.sent == w.sent + Encode(Frame(true, opcode, payload), Masked(keys(w.drawn))))
            && (w.writes >= 2 ==> ok)
            && w'.drawn == w.drawn + 1 && w'.writes >= w.writes - 2
  {
  }

  /** bufio.Reader over a stream that ends. */
  class Reader {
    var rest: Bytes

    constructor (bytes: Bytes)
      ensures rest == bytes
    {
      rest := bytes;
    }

    method ReadFull(n: nat) returns (ok: bool, bs: Bytes)
      modifies this
      ensures ok == (n <= |old(rest)|)
      ensures ok ==> bs == old(rest)[..n] && rest == old(rest)[n..]
    {
      ok := n <= |rest|;
      if ok {
        bs, rest := rest[..n], rest[n..];
      } else {
        bs, rest := rest, [];
      }
    }

    /** readWSFrame. */
    method ReadWSFrame() returns (r: Parsed)
      modifies this
      ensures match Parse(old(rest))
              case Ok(frame, left) => r == Ok(frame, left) && rest == left
              case error => r == error
    {
      ghost var s := rest;
      var ok, head := ReadFull(2);
      if !ok {
        return Truncated;
      }
      var fin, opcode := head[0] >= 0x80, head[0] % 0x10;
      var masked := head[1] >= 0x80;
      var length: int := head[1] % 0x80;
      ghost var len7 := length;
      if length == 126 {
        var ext;
        ok, ext := ReadFull(2);
        if !ok {
          return Truncated;
        }
        assert ext == s[2..4];
        length := AsInt64(FromBigEndian(ext));
      } else if length == 127 {
        var ext;
        ok, ext := ReadFull(8);
        if !ok {
          return Truncated;
        }
        assert ext == s[2..10];
        length := AsInt64(FromBigEndian(ext));
      }
      assert rest == s[2 + Extension(len7)..];
      if length < 0 || length > MAX_PAYLOAD {
        return TooLarge;
      }
      assert Parse(s) == ParsePayload(fin, opcode, masked, length, rest);
      r := ReadPayload(fin, opcode, masked, length);
    }

    method ReadPayload(fin: bool, opcode: Byte, masked: bool, length: nat) returns (r: Parsed)
      requires length <= MAX_PAYLOAD
      modifies this
      ensures match ParsePayload(fin, opcode, masked, length, old(rest))
              case Ok(frame, left) => r == Ok(frame, left) && rest == left
              case error => r == error
    {
      ghost var s := rest;
      var ok;
      var maskKey := Key(0, 0, 0, 0);
      if masked {
        var octets;
        ok, octets := ReadFull(4);
        if !ok {
          return Truncated;
        }
        maskKey := Key(octets[0], octets[1], octets[2], octets[3]);
      }
      var payload: Bytes := [];
      if length > 0 {
        ok, payload := ReadFull(length);
        if !ok {
          return Truncated;
        }
      }
      ghost var raw := payload;
      if masked {
        assert raw == s[4..4 + length] && rest == s[4 + length..];
        for i := 0 to length
          invariant |payload| == length
          invariant forall k :: 0 <= k < i ==> payload[k] == Apply(Masked(maskKey), raw)[k]
          invariant forall k :: i <= k < length ==> payload[k] == raw[k]
        {
          payload := payload[i := Xor(payload[i], maskKey.At(i))];
        }
        assert payload == Apply(Masked(maskKey), raw);
      } else {
        assert raw == s[..length] && rest == s[length..];
      }
      r := Ok(Frame(fin, opcode, payload), rest);
    }
  }
}
