/** `readUntilWSClose`: the load tool's WebSocket frame reader, against the frame layout of
    RFC 6455, sections 5.2, 5.3 and 5.5.1. */
module WsClose {
  import opened Text

  type Byte = bv8

  // ----- frames as RFC 6455 lays them out -----

  datatype Key = Key(a: Byte, b: Byte, c: Byte, d: Byte)

  datatype Frame = Frame(fin: bool, opcode: Byte, length: Byte, key: Option<Key>, payload: seq<Byte>)

  const CLOSE: Byte := 8

  /** The seven-bit length is the payload's where it fits, and the mark of the shortest
      extended length otherwise. */
  predicate WellFormed(f: Frame) {
    && f.opcode < 16
    && (|f.payload| <= 125 ==> f.length <= 125 && f.length as nat == |f.payload|)
    && (125 < |f.payload| < 0x1_0000 ==> f.length == 126)
    && (0x1_0000 <= |f.payload| ==> f.length == 127)
  }

  function KeyByte(key: Key, i: nat): Byte {
    match i % 4 case 0 => key.a case 1 => key.b case 2 => key.c case _ => key.d
  }

  function Masked(payload: seq<Byte>, key: Key): seq<Byte> {
    seq(|payload|, i requires 0 <= i < |payload| => payload[i] ^ KeyByte(key, i))
  }

  /** Big-endian digits of an extended length. */
  function LengthBytes(n: nat, count: nat): (bytes: seq<Byte>)
    ensures |bytes| == count
  {
    if count == 0 then [] else LengthBytes(n / 256, count - 1) + [(n % 256) as Byte]
  }

  function ExtendedLength(f: Frame): seq<Byte> {
    if |f.payload| <= 125 then [] else if |f.payload| < 0x1_0000 then LengthBytes(|f.payload|, 2) else LengthBytes(|f.payload|, 8)
  }

  function FirstByte(f: Frame): Byte {
    (if f.fin then 0x80 else 0) | f.opcode
  }

  function SecondByte(f: Frame): Byte {
    (if f.key.Some? then 0x80 else 0) | f.length
  }

  function Body(f: Frame): seq<Byte> {
    match f.key case None => f.payload case Some(key) => [key.a, key.b, key.c, key.d] + Masked(f.payload, key)
  }

  function Wire(f: Frame): seq<Byte> {
    [FirstByte(f), SecondByte(f)] + ExtendedLength(f) + Body(f)
  }

  function WireAll(frames: seq<Frame>): seq<Byte> {
    if frames == [] then [] else Wire(frames[0]) + WireAll(frames[1..])
  }

  /** What servers send and the reader expects: unmasked, with a short payload. */
  predicate Plain(f: Frame) {
    WellFormed(f) && f.key.None? && |f.payload| <= 125
  }

  // ----- the reader -----

  function Opcode(header: Byte): Byte {
    header & 0x0F
  }

  function PayloadLength(header: Byte): nat {
    (header & 0x7F) as nat
  }

  datatype Taken = Short | Taken(opcode: Byte, payload: seq<Byte>, rest: seq<Byte>)

  /** One pass of the loop: two header bytes and as many bytes as the seven-bit length says. */
  function Take(input: seq<Byte>): (taken: Taken)
    ensures taken.Taken? ==> |taken.rest| < |input|
  {
    if |input| < 2 then Short else
    var length := PayloadLength(input[1]);
    if |input| < 2 + length then Short else Taken(Opcode(input[0]), input[2..2 + length], input[2 + length..])
  }

  function CodeOf(payload: seq<Byte>): bv16 {
    if |payload| < 2 then 1000 else (payload[0] as bv16 << 8) | payload[1] as bv16
  }

  datatype Outcome = Cut | Closed(code: bv16, rest: seq<Byte>)

  function Scan(input: seq<Byte>): Outcome
    decreases |input|
  {
    match Take(input)
    case Short => Cut
    case Taken(opcode, payload, rest) => if opcode == CLOSE then Closed(CodeOf(payload), rest) else Scan(rest)
  }

  lemma ScanStep(input: seq<Byte>)
    ensures Scan(input) == match Take(input)
                           case Short => Cut
                           case Taken(opcode, payload, rest) =>
                             if opcode == CLOSE then Closed(CodeOf(payload), rest) else Scan(rest)
  {
  }

  /** The payload of a Close frame with a status code. */
  function CodeBytes(code: bv16): (bytes: seq<Byte>)
    ensures |bytes| == 2
  {
    [(code >> 8) as Byte, (code & 0xFF) as Byte]
  }

  const REPLY_KEY := Key(0x12, 0x34, 0x56, 0x78)

  /** A client's Close frame: masked, carrying the code. */
  function CloseReply(code: bv16): Frame {
    Frame(true, CLOSE, 2, Some(REPLY_KEY), CodeBytes(code))
  }

  /** The network connection: what the peer will have sent, what was sent to it. */
  class Conn {
    var input: seq<Byte>
    var output: seq<Byte>

    constructor (input: seq<Byte>)
      ensures this.input == input && output == []
    {
      this.input, output := input, [];
    }

    /** `io.ReadFull`: all of `n` bytes, or whatever there was and a failure. */
    method ReadFull(n: nat) returns (ok: bool, data: seq<Byte>)
      modifies this`input
      ensures ok == (n <= |old(input)|)
      ensures ok ==> data == old(input)[..n] && input == old(input)[n..]
      ensures !ok ==> input == []
    {
      ok := n <= |input|;
      if ok {
        data, input := input[..n], input[n..];
      } else {
        data, input := input, [];
      }
    }

    /** A frame header and the payload it announces. */
    method ReadFrame() returns (taken: Taken)
      modifies this`input
      ensures taken == Take(old(input)) && input == match taken case Short => [] case Taken(_, _, rest) => rest
    {
      hide Opcode, PayloadLength;
      var ok, header := ReadFull(2);
      if !ok {
        return Short;
      }
      var payload := [];
      var length := PayloadLength(header[1]);
      if length > 0 {
        ok, payload := ReadFull(length);
        if !ok {
          return Short;
        }
      }
      assert payload == old(input)[2..2 + length];
      taken := Taken(Opcode(header[0]), payload, input);
    }

    method Write(data: seq<Byte>)
      modifies this`output
      ensures output == old(output) + data
    {
      output := output + data;
    }
  }

  /** Reads frames up to the first Close and, when asked, answers with a masked Close frame that
      carries the same code; otherwise it drains the connection. A stream that ends first yields
      (0, false) and no answer. */
  method ReadUntilClose(conn: Conn, echoClose: bool) returns (code: bv16, graceful: bool)
    modifies conn
    ensures match Scan(old(conn.input))
            case Cut => code == 0 && !graceful && conn.input == [] && conn.output == old(conn.output)
            case Closed(sent, rest) =>
              && code == sent && graceful == echoClose
              && conn.input == (if echoClose then rest else [])
              && conn.output == old(conn.output) + if echoClose then Wire(CloseReply(sent)) else []
  {
    hide Wire, CodeOf, Take, Scan, CodeBytes;
    ghost var start := conn.input;
    while true
      invariant conn.output == old(conn.output)
      invariant Scan(conn.input) == Scan(start)
      decreases |conn.input|
    {
      ScanStep(conn.input);
      var taken := conn.ReadFrame();
      if taken.Short? {
        return 0, false;
      }
      if taken.opcode == CLOSE {
        code := CodeOf(taken.payload);
        if echoClose {
          var closePayload := CodeBytes(code);
          ReplyBytes(code);
          conn.Write([0x88, 0x82, REPLY_KEY.a, REPLY_KEY.b, REPLY_KEY.c, REPLY_KEY.d,
                      closePayload[0] ^ REPLY_KEY.a, closePayload[1] ^ REPLY_KEY.b]);
          return code, true;
        }
        conn.input := [];
        return code, false;
      }
    }
  }

  lemma MaskedCode(code: bv16)
    ensures Masked(CodeBytes(code), REPLY_KEY) == [CodeBytes(code)[0] ^ 0x12, CodeBytes(code)[1] ^ 0x34]
  {
    hide CodeBytes;
  }

  lemma ReplyBytes(code: bv16)
    ensures Wire(CloseReply(code)) ==
            [0x88, 0x82, 0x12, 0x34, 0x56, 0x78, CodeBytes(code)[0] ^ 0x12, CodeBytes(code)[1] ^ 0x34]
  {
    hide CodeBytes, Masked;
    MaskedCode(code);
    assert Body(CloseReply(code)) == [0x12, 0x34, 0x56, 0x78] + Masked(CodeBytes(code), REPLY_KEY);
  }

  // ----- what the answer says -----

  lemma XorTwice(a: Byte, b: Byte)
    ensures (a ^ b) ^ b == a
  {
  }

  /** Unmasking is masking again. */
  lemma MaskingUndoesItself(payload: seq<Byte>, key: Key)
    ensures Masked(Masked(payload, key), key) == payload
  {
    var once := Masked(payload, key);
    var twice := Masked(once, key);
    forall i | 0 <= i < |payload| ensures twice[i] == payload[i] {
      XorTwice(payload[i], KeyByte(key, i));
    }
  }

  lemma CodeOfCodeBytes(code: bv16)
    ensures CodeOf(CodeBytes(code)) == code
  {
  }

  /** The answer is a well-formed final Close frame, masked as a client's must be, and its
      unmasked payload carries the code. */
  lemma ReplyCarriesTheCode(code: bv16)
    ensures WellFormed(CloseReply(code)) && CloseReply(code).key.Some? && CloseReply(code).fin
    ensures var sent := Wire(CloseReply(code))[6..];
            CodeOf(Masked(sent, CloseReply(code).key.value)) == code
  {
    hide Wire, Masked, CodeOf, CodeBytes;
    CodeOfCodeBytes(code);
    MaskingUndoesItself(CodeBytes(code), REPLY_KEY);
    ReplyBytes(code);
    MaskedCode(code);
    assert Wire(CloseReply(code))[6..] == Masked(CodeBytes(code), REPLY_KEY);
  }

  // ----- streams of plain frames -----

  lemma HeaderOf(f: Frame)
    requires WellFormed(f)
    ensures FirstByte(f) & 0x0F == f.opcode && SecondByte(f) & 0x7F == f.length
  {
    assert f.length <= 127;
    OpcodeBits(f.opcode);
    LengthBits(f.length);
  }

  lemma OpcodeBits(b: Byte)
    requires b < 16
    ensures (0x80 | b) & 0x0F == b && (0 | b) & 0x0F == b
  {
  }

  lemma LengthBits(b: Byte)
    requires b <= 127
    ensures (0x80 | b) & 0x7F == b && (0 | b) & 0x7F == b
  {
  }

  lemma TakePlain(f: Frame, rest: seq<Byte>)
    requires Plain(f)
    ensures Take(Wire(f) + rest) == Taken(f.opcode, f.payload, rest)
  {
    HeaderOf(f);
    var input := Wire(f) + rest;
    assert Wire(f) == [FirstByte(f), SecondByte(f)] + f.payload;
    assert input[2..2 + |f.payload|] == f.payload;
    assert input[2 + |f.payload|..] == rest;
  }

  ghost predicate Messages(frames: seq<Frame>) {
    forall i :: 0 <= i < |frames| ==> Plain(frames[i]) && frames[i].opcode != CLOSE
  }

  /** On plain frames followed by a plain Close frame the reader stops right after that frame,
      with its code. */
  lemma {:induction false} ReaderFindsTheClose(frames: seq<Frame>, close: Frame, rest: seq<Byte>)
    requires Messages(frames) && Plain(close) && close.opcode == CLOSE
    ensures Scan(WireAll(frames) + Wire(close) + rest) == Closed(CodeOf(close.payload), rest)
  {
    hide Wire, Take, CodeOf;
    if frames == [] {
      assert WireAll(frames) + Wire(close) + rest == Wire(close) + rest;
      TakePlain(close, rest);
    } else {
      var tail := WireAll(frames[1..]) + Wire(close) + rest;
      assert WireAll(frames) + Wire(close) + rest == Wire(frames[0]) + tail;
      TakePlain(frames[0], tail);
      ReaderFindsTheClose(frames[1..], close, rest);
    }
  }

  lemma TakeCut(f: Frame, n: nat)
    requires Plain(f) && n < |Wire(f)|
    ensures Take(Wire(f)[..n]) == Short
  {
    HeaderOf(f);
    assert Wire(f) == [FirstByte(f), SecondByte(f)] + f.payload;
  }

  /** The same stream cut anywhere before the end of the Close frame is never taken for closed. */
  lemma {:induction false} CutStreamIsNotClosed(frames: seq<Frame>, close: Frame, n: nat)
    requires Messages(frames) && Plain(close) && close.opcode == CLOSE && n < |WireAll(frames) + Wire(close)|
    ensures Scan((WireAll(frames) + Wire(close))[..n]) == Cut
    decreases |frames|
  {
    hide Wire, Take;
    if frames == [] {
      assert WireAll(frames) + Wire(close) == Wire(close);
      TakeCut(close, n);
    } else {
      var first, tail := Wire(frames[0]), WireAll(frames[1..]) + Wire(close);
      assert WireAll(frames) + Wire(close) == first + tail;
      if n < |first| {
        assert (first + tail)[..n] == first[..n];
        TakeCut(frames[0], n);
      } else {
        assert (first + tail)[..n] == first + tail[..n - |first|];
        TakePlain(frames[0], tail[..n - |first|]);
        CutStreamIsNotClosed(frames[1..], close, n - |first|);
      }
    }
  }

  // ----- where the reader leaves the frame layout -----

  /** The reader steps over a well-formed frame as a whole exactly when the frame is unmasked and
      its payload has at most 125 bytes. */
  lemma StepsOverTheFrameIff(f: Frame, rest: seq<Byte>)
    requires WellFormed(f)
    ensures Take(Wire(f) + rest).Taken? && Take(Wire(f) + rest).rest == rest <==> Plain(f)
  {
    HeaderOf(f);
    var input := Wire(f) + rest;
    var taken := Take(input);
    if Plain(f) {
      TakePlain(f, rest);
    } else if taken.Taken? {
      assert |taken.rest| == |input| - 2 - f.length as nat;
      assert |Wire(f)| > 2 + f.length as nat;
    }
  }

  /** Where the reader stops, frame by frame up to the first Close it sees: what is left then. */
  function Stops(input: seq<Byte>): seq<nat>
    decreases |input|
  {
    match Take(input)
    case Short => []
    case Taken(opcode, _, rest) => [|rest|] + if opcode == CLOSE then [] else Stops(rest)
  }

  /** Where the frames end, with `after` bytes behind the last: what is left then. */
  function Ends(frames: seq<Frame>, after: nat): seq<nat> {
    if frames == [] then [] else [|WireAll(frames[1..])| + after] + Ends(frames[1..], after)
  }

  lemma FallsShort(f: Frame, rest: seq<Byte>)
    requires WellFormed(f) && !Plain(f)
    ensures Take(Wire(f) + rest).Taken? ==> |Take(Wire(f) + rest).rest| > |rest|
  {
    HeaderOf(f);
    var input := Wire(f) + rest;
    assert |Wire(f)| > 2 + f.length as nat;
    assert input[1] == SecondByte(f);
  }

  /** For a stream of well-formed frames of which the last, and only the last, is a Close: the
      reader's stops are the ends of the frames exactly when every one of them is plain. */
  lemma {:induction false} StopsAreFrameEndsIff(frames: seq<Frame>, rest: seq<Byte>)
    requires frames != [] && forall i :: 0 <= i < |frames| ==> WellFormed(frames[i])
    requires forall i :: 0 <= i < |frames| ==> (frames[i].opcode == CLOSE <==> i == |frames| - 1)
    ensures Stops(WireAll(frames) + rest) == Ends(frames, |rest|) <==> forall i :: 0 <= i < |frames| ==> Plain(frames[i])
  {
    hide Wire, Take, WellFormed, Plain;
    var tail := WireAll(frames[1..]) + rest;
    assert WireAll(frames) + rest == Wire(frames[0]) + tail;
    assert Ends(frames, |rest|)[0] == |tail|;
    var others := frames[1..];
    assert forall i :: 0 <= i < |others| ==> others[i] == frames[i + 1];
    if !Plain(frames[0]) {
      FallsShort(frames[0], tail);
      assert Stops(Wire(frames[0]) + tail) == [] || Stops(Wire(frames[0]) + tail)[0] > |tail|;
    } else {
      TakePlain(frames[0], tail);
      if others == [] {
        assert Ends(others, |rest|) == [];
      } else {
        assert frames[0].opcode != CLOSE;
        assert Stops(WireAll(frames) + rest) == [|tail|] + Stops(tail);
        assert Ends(frames, |rest|) == [|tail|] + Ends(others, |rest|);
        SameTail(|tail|, Stops(tail), Ends(others, |rest|));
        StopsAreFrameEndsIff(others, rest);
        assert (forall i :: 0 <= i < |frames| ==> Plain(frames[i])) <==> forall i :: 0 <= i < |others| ==> Plain(others[i]) by {
          assert forall i :: 1 <= i < |frames| ==> frames[i] == others[i - 1];
        }
      }
    }
  }

  lemma SameTail(n: nat, a: seq<nat>, b: seq<nat>)
    ensures [n] + a == [n] + b <==> a == b
  {
    assert ([n] + a)[1..] == a && ([n] + b)[1..] == b;
  }

  function Zeros(n: nat): (zeros: seq<Byte>)
    ensures |zeros| == n
  {
    if n == 0 then [] else Zeros(n - 1) + [0]
  }

  /** A data message of 126 bytes, well-formed, ending in 0x88 0x00: the reader reports a Close
      frame with code 1000 where the stream holds none. */
  lemma LongMessageReadAsClose()
    ensures var f := Frame(true, 2, 126, None, Zeros(124) + [0x88, 0x00]);
            WellFormed(f) && f.opcode != CLOSE && Scan(Wire(f)) == Closed(1000, [])
  {
    hide Zeros, Scan, LengthBytes;
    var f := Frame(true, 2, 126, None, Zeros(124) + [0x88, 0x00]);
    HeaderOf(f);
    var input := Wire(f);
    assert |input| == 130;
    assert input[0] & 0x0F == 2 && PayloadLength(input[1]) == 126;
    assert input[128..] == [0x88, 0x00];
    assert Take(input) == Taken(2, input[2..128], [0x88, 0x00]);
    ScanStep(input);
    LastTwo();
  }

  lemma LastTwo()
    ensures Scan([0x88, 0x00]) == Closed(1000, [])
  {
    var bytes: seq<Byte> := [0x88, 0x00];
    assert bytes[0] & 0x0F == 8 && bytes[1] & 0x7F == 0;
    assert Take(bytes) == Taken(8, [], []);
  }
}
