/**
 SASL responses on the wire: base64 (section 4 of RFC 4648), cut into AUTHENTICATE messages of at most
 400 characters, and put back together by the receiver.
 */
module Sasl {
  import opened Text

  type Byte = b: int | 0 <= b < 256

  const MAX_LENGTH := 400
  const MAX_PENDING := 10 * 1024

  // ----- Base64 -----

  function Letter(n: int): char
    requires 0 <= n < 64
  {
    if n < 26 then ('A' as int + n) as char
    else if n < 52 then ('a' as int + n - 26) as char
    else if n < 62 then ('0' as int + n - 52) as char
    else if n == 62 then '+' else '/'
  }

  function Value(c: char): (r: Option<int>)
    ensures r.Some? ==> 0 <= r.value < 64
  {
    if 'A' <= c <= 'Z' then Some(c as int - 'A' as int)
    else if 'a' <= c <= 'z' then Some(c as int - 'a' as int + 26)
    else if '0' <= c <= '9' then Some(c as int - '0' as int + 52)
    else if c == '+' then Some(62)
    else if c == '/' then Some(63)
    else None
  }

  function Encode(b: seq<Byte>): string {
    if b == [] then ""
    else if |b| == 1 then [Letter(b[0] / 4), Letter(b[0] % 4 * 16), '=', '=']
    else if |b| == 2 then [Letter(b[0] / 4), Letter(b[0] % 4 * 16 + b[1] / 16), Letter(b[1] % 16 * 4), '=']
    else Quad(b[0], b[1], b[2]) + Encode(b[3..])
  }

  function Quad(x: Byte, y: Byte, z: Byte): string {
    [Letter(x / 4), Letter(x % 4 * 16 + y / 16), Letter(y % 16 * 4 + z / 64), Letter(z % 64)]
  }

  function DecodeQuad(c0: char, c1: char, c2: char, c3: char, last: bool): Option<seq<Byte>> {
    match (Value(c0), Value(c1), Value(c2), Value(c3))
    case (Some(p), Some(q), Some(r), Some(s)) => Some([p * 4 + q / 16, q % 16 * 16 + r / 4, r % 4 * 64 + s])
    case (Some(p), Some(q), Some(r), None) =>
      if last && c3 == '=' then Some([p * 4 + q / 16, q % 16 * 16 + r / 4]) else None
    case (Some(p), Some(q), None, None) =>
      if last && c2 == '=' && c3 == '=' then Some([p * 4 + q / 16]) else None
    case _ => None
  }

  function Decode(s: string): Option<seq<Byte>> {
    if s == "" then Some([])
    else if |s| < 4 then None
    else
      match DecodeQuad(s[0], s[1], s[2], s[3], |s| == 4)
      case None => None
      case Some(b) =>
        match Decode(s[4..])
        case None => None
        case Some(rest) => Some(b + rest)
  }

  lemma LetterValue(n: int)
    requires 0 <= n < 64
    ensures Value(Letter(n)) == Some(n)
  {
  }

  lemma DigitsOf(a: int, b: int, base: int)
    requires 0 <= b < base <= 64 && 0 <= a < 64 && (base == 4 || base == 16 || base == 64)
    ensures (a * base + b) / base == a && (a * base + b) % base == b
  {
  }

  lemma QuadInverse(x: Byte, y: Byte, z: Byte, last: bool)
    ensures var q := Quad(x, y, z); DecodeQuad(q[0], q[1], q[2], q[3], last) == Some([x, y, z])
  {
    LetterValue(x / 4);
    LetterValue(x % 4 * 16 + y / 16);
    LetterValue(y % 16 * 4 + z / 64);
    LetterValue(z % 64);
    DigitsOf(x % 4, y / 16, 16);
    DigitsOf(y % 16, z / 64, 4);
  }

  lemma OneInverse(x: Byte)
    ensures DecodeQuad(Letter(x / 4), Letter(x % 4 * 16), '=', '=', true) == Some([x])
  {
    LetterValue(x / 4);
    LetterValue(x % 4 * 16);
    DigitsOf(x % 4, 0, 16);
  }

  lemma TwoInverse(x: Byte, y: Byte)
    ensures DecodeQuad(Letter(x / 4), Letter(x % 4 * 16 + y / 16), Letter(y % 16 * 4), '=', true) == Some([x, y])
  {
    LetterValue(x / 4);
    LetterValue(x % 4 * 16 + y / 16);
    LetterValue(y % 16 * 4);
    DigitsOf(x % 4, y / 16, 16);
    DigitsOf(y % 16, 0, 4);
  }

  lemma TailInverse(b: seq<Byte>)
    requires 1 <= |b| <= 2
    ensures var e := Encode(b); |e| == 4 && DecodeQuad(e[0], e[1], e[2], e[3], true) == Some(b)
  {
    if |b| == 1 {
      OneInverse(b[0]);
      assert b == [b[0]];
    } else {
      TwoInverse(b[0], b[1]);
      assert b == [b[0], b[1]];
    }
  }

  lemma DecodeFirst(q: string, rest: string, b: seq<Byte>)
    requires |q| == 4 && DecodeQuad(q[0], q[1], q[2], q[3], rest == "") == Some(b)
    ensures Decode(q + rest) == match Decode(rest) case None => None case Some(more) => Some(b + more)
  {
    assert (q + rest)[4..] == rest;
  }

  lemma {:induction false} Base64Inverse(b: seq<Byte>)
    ensures Decode(Encode(b)) == Some(b)
  {
    if 1 <= |b| <= 2 {
      TailInverse(b);
      DecodeFirst(Encode(b), "", b);
      assert Encode(b) + "" == Encode(b) && b + [] == b;
    } else if b != [] {
      var q, rest := Quad(b[0], b[1], b[2]), Encode(b[3..]);
      QuadInverse(b[0], b[1], b[2], rest == "");
      DecodeFirst(q, rest, [b[0], b[1], b[2]]);
      Base64Inverse(b[3..]);
      assert [b[0], b[1], b[2]] + b[3..] == b;
    }
  }

  lemma ThreeMore(n: int)
    ensures (n + 3 + 2) / 3 == (n + 2) / 3 + 1
  {
  }

  lemma {:induction false} EncodedLength(b: seq<Byte>)
    ensures |Encode(b)| == (|b| + 2) / 3 * 4
  {
    if |b| >= 3 {
      EncodedLength(b[3..]);
      ThreeMore(|b| - 3);
    }
  }

  // ----- Chunks -----

  /** The chunks of the text from `i` on; a lone plus sign stands for an empty last one. */
  function Chunks(e: string, i: nat): seq<string>
    requires i <= |e|
    decreases |e| - i
  {
    if |e| - i >= MAX_LENGTH then [e[i..i + MAX_LENGTH]] + Chunks(e, i + MAX_LENGTH)
    else [if e[i..] == "" then "+" else e[i..]]
  }

  method GenerateSASL(resp: seq<Byte>) returns (msgs: seq<string>)
    ensures msgs == Chunks(Encode(resp), 0)
  {
    var encoded := Encode(resp);
    msgs := [];
    var i := 0;
    ghost var done := false;
    while i <= |encoded|
      invariant 0 <= i && (i <= |encoded| || done)
      invariant done ==> msgs == Chunks(encoded, 0) && i > |encoded|
      invariant !done ==> msgs + Chunks(encoded, i) == Chunks(encoded, 0)
    {
      var j := i + MAX_LENGTH;
      if j > |encoded| {
        j := |encoded|;
      }
      var chunk := encoded[i..j];
      if chunk == "" {
        chunk := "+";
      }
      if |encoded| - i >= MAX_LENGTH {
        Assoc(msgs, [chunk], Chunks(encoded, i + MAX_LENGTH));
      } else {
        assert encoded[i..j] == encoded[i..];
        assert Chunks(encoded, i) == [chunk];
        done := true;
      }
      msgs := msgs + [chunk];
      i := i + MAX_LENGTH;
    }
  }

  // ----- Putting them back together -----

  datatype Reply = Wait | Done(resp: seq<Byte>) | TooLong | Invalid

  class Reassembler {
    var pendingResp: string

    constructor ()
      ensures pendingResp == ""
    {
      pendingResp := "";
    }

    method Feed(msg: string) returns (r: Reply)
      modifies this
      ensures (r, pendingResp) == Receive(old(pendingResp), msg)
    {
      var chunk := msg;
      if chunk == "+" {
        chunk := "";
      }
      if |pendingResp| + |chunk| > MAX_PENDING {
        return TooLong;
      }
      pendingResp := pendingResp + chunk;
      if |chunk| == MAX_LENGTH {
        return Wait;
      }
      var resp := Decode(pendingResp);
      if resp.None? {
        return Invalid;
      }
      pendingResp := "";
      r := Done(resp.value);
    }
  }

  /** The answer to one chunk and the text pending after it. */
  function Receive(pending: string, msg: string): (Reply, string) {
    var chunk := if msg == "+" then "" else msg;
    var all := pending + chunk;
    if |all| > MAX_PENDING then (TooLong, pending)
    else if |chunk| == MAX_LENGTH then (Wait, all)
    else match Decode(all) case None => (Invalid, all) case Some(resp) => (Done(resp), "")
  }

  /** The answers to a series of chunks, up to the first that ends the exchange. */
  function ReceiveAll(pending: string, msgs: seq<string>): seq<Reply>
    decreases msgs
  {
    if msgs == [] then []
    else
      var (r, rest) := Receive(pending, msgs[0]);
      [r] + if r.Wait? then ReceiveAll(rest, msgs[1..]) else []
  }

  /** Nothing but requests for more before the last answer. */
  ghost predicate OnlyLast(replies: seq<Reply>, last: Reply) {
    replies != [] && replies[|replies| - 1] == last && forall i | 0 <= i < |replies| - 1 :: replies[i] == Wait
  }

  lemma OnlyLastCons(replies: seq<Reply>, last: Reply)
    requires OnlyLast(replies, last)
    ensures OnlyLast([Wait] + replies, last)
  {
  }

  /** The last chunk of a multiple of four characters is never a lone plus sign by itself. */
  lemma LastChunk(e: string, i: nat)
    requires |e| % 4 == 0 && i % 4 == 0 && i <= |e|
    ensures e[i..] != "+"
  {
  }

  lemma {:induction false} ReceiveChunks(e: string, i: nat)
    requires |e| % 4 == 0 && i % 4 == 0 && i <= |e| && i <= MAX_PENDING
    ensures OnlyLast(ReceiveAll(e[..i], Chunks(e, i)),
                     if |e| > MAX_PENDING then TooLong
                     else match Decode(e) case Some(resp) => Done(resp) case None => Invalid)
    ensures |e| <= MAX_PENDING ==> |ReceiveAll(e[..i], Chunks(e, i))| == |Chunks(e, i)|
    decreases |e| - i
  {
    var msgs := Chunks(e, i);
    if |e| - i >= MAX_LENGTH {
      var j := i + MAX_LENGTH;
      assert |msgs[0]| == MAX_LENGTH && msgs[0] != "+" && msgs[1..] == Chunks(e, j);
      assert e[..i] + e[i..j] == e[..j];
      if j <= MAX_PENDING {
        ReceiveChunks(e, j);
        var replies := ReceiveAll(e[..j], msgs[1..]);
        OnlyLastCons(replies, replies[|replies| - 1]);
      }
    } else {
      LastChunk(e, i);
      assert e[..i] + e[i..] == e;
    }
  }

  lemma SizeLimit(n: nat)
    ensures (n + 2) / 3 * 4 > MAX_PENDING <==> n > 7680
    ensures (n + 2) / 3 * 4 % 4 == 0
  {
  }

  /**
   The receiver gets the response with the last chunk and nothing before it, exactly if the response is
   within the size limit; otherwise it refuses it as too long.
   */
  lemma ResponseReceived(resp: seq<Byte>)
    ensures var msgs := Chunks(Encode(resp), 0);
            && OnlyLast(ReceiveAll("", msgs), if |resp| <= 7680 then Done(resp) else TooLong)
            && (|resp| <= 7680 ==> |ReceiveAll("", msgs)| == |msgs|)
  {
    var e := Encode(resp);
    EncodedLength(resp);
    SizeLimit(|resp|);
    Base64Inverse(resp);
    assert e[..0] == "";
    ReceiveChunks(e, 0);
  }

  lemma ReceiveNext(pending: string, msgs: seq<string>, i: nat, replies: seq<Reply>)
    requires i < |msgs|
    ensures var (r, rest) := Receive(pending, msgs[i]);
            replies + ReceiveAll(pending, msgs[i..]) ==
            replies + [r] + if r.Wait? then ReceiveAll(rest, msgs[i + 1..]) else []
  {
    assert msgs[i..][0] == msgs[i] && msgs[i..][1..] == msgs[i + 1..];
    var (r, rest) := Receive(pending, msgs[i]);
    Assoc(replies, [r], if r.Wait? then ReceiveAll(rest, msgs[i + 1..]) else []);
  }

  /** A series of messages, as long as the receiver asks for more. */
  method FeedAll(receiver: Reassembler, msgs: seq<string>) returns (replies: seq<Reply>)
    modifies receiver
    ensures replies == ReceiveAll(old(receiver.pendingResp), msgs) && |replies| <= |msgs|
  {
    replies := [];
    ghost var all := ReceiveAll(receiver.pendingResp, msgs);
    assert msgs[0..] == msgs;
    for i := 0 to |msgs|
      invariant |replies| == i && replies + ReceiveAll(receiver.pendingResp, msgs[i..]) == all
    {
      ReceiveNext(receiver.pendingResp, msgs, i, replies);
      var r := receiver.Feed(msgs[i]);
      replies := replies + [r];
      if !r.Wait? {
        assert replies + [] == replies;
        return;
      }
    }
    assert replies + [] == replies;
  }

  /**
   The whole exchange: the messages generated for a response bring it to the receiver with the last of them and no
   earlier, exactly if it is within the size limit.
   */
  method Exchange(resp: seq<Byte>) returns (msgs: seq<string>, replies: seq<Reply>)
    ensures OnlyLast(replies, if |resp| <= 7680 then Done(resp) else TooLong)
    ensures |replies| <= |msgs| && (|resp| <= 7680 ==> |replies| == |msgs|)
  {
    msgs := GenerateSASL(resp);
    var receiver := new Reassembler();
    replies := FeedAll(receiver, msgs);
    ResponseReceived(resp);
  }

  lemma {:induction false} ChunksFit(e: string, i: nat)
    requires i <= |e|
    ensures forall c | c in Chunks(e, i) :: 0 < |c| <= MAX_LENGTH
    decreases |e| - i
  {
    if |e| - i >= MAX_LENGTH {
      ChunksFit(e, i + MAX_LENGTH);
    }
  }
}
