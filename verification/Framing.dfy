/** Message framing: a 32-bit little-endian length followed by the message bytes. */
module Framing {
  import opened Common

  type Byte = x: int | 0 <= x < 256
  type Message = seq<Byte>

  const HEADER: nat := 4
  const WIDTH: nat := 0x1_0000_0000

  /** The length can be stored in the header. */
  predicate Representable(m: Message) {
    |m| < WIDTH
  }

  /** The length of the whole frame can be passed to the operating system as a DWORD. */
  predicate Fits(m: Message) {
    |m| + HEADER < WIDTH
  }

  function LittleEndian(n: nat, k: nat): (h: seq<Byte>)
    ensures |h| == k
  {
    if k == 0 then [] else [n % 256] + LittleEndian(n / 256, k - 1)
  }

  function Value(h: seq<Byte>): nat {
    if h == [] then 0 else h[0] as int + 256 * Value(h[1..])
  }

  function Pow256(k: nat): nat {
    if k == 0 then 1 else 256 * Pow256(k - 1)
  }

  /** The bytes of `SIZE_ELEMENT(n)`; the cast keeps the low 32 bits. */
  function EncodeSize(n: nat): (h: seq<Byte>)
    ensures |h| == HEADER
  {
    LittleEndian(n % WIDTH, HEADER)
  }

  function DecodeSize(h: seq<Byte>): (n: nat)
    requires |h| >= HEADER
    ensures n < WIDTH
  {
    ValueBound(h[..HEADER]);
    Value(h[..HEADER])
  }

  function Frame(m: Message): seq<Byte> {
    EncodeSize(|m|) + m
  }

  function Frames(ms: seq<Message>): seq<Byte> {
    if ms == [] then [] else Frame(ms[0]) + Frames(ms[1..])
  }

  /** What one `write` hands to the pipe: the frame, cut to its length as a DWORD. */
  function Wire(m: Message): seq<Byte> {
    Frame(m)[..|Frame(m)| % WIDTH]
  }

  /** Reference decoder: all complete messages of a stream, and the bytes left over. */
  function Parse(s: seq<Byte>): (seq<Message>, seq<Byte>)
    decreases |s|
  {
    if Incomplete(s) then ([], s) else
    var end := HEADER + DecodeSize(s);
    var (ms, rest) := Parse(s[end..]);
    ([s[HEADER..end]] + ms, rest)
  }

  /** The stream does not start with a complete frame. */
  predicate Incomplete(s: seq<Byte>) {
    |s| < HEADER || |s| < HEADER + DecodeSize(s)
  }

  lemma {:induction false} ValueBound(h: seq<Byte>)
    ensures Value(h) < Pow256(|h|)
  {
    if h != [] {
      ValueBound(h[1..]);
    }
  }

  lemma {:induction false} ValueOfLittleEndian(n: nat, k: nat)
    requires n < Pow256(k)
    ensures Value(LittleEndian(n, k)) == n
  {
    if k > 0 {
      ValueOfLittleEndian(n / 256, k - 1);
      assert LittleEndian(n, k)[1..] == LittleEndian(n / 256, k - 1);
    }
  }

  lemma {:induction false} LittleEndianOfValue(h: seq<Byte>)
    ensures LittleEndian(Value(h), |h|) == h
  {
    if h != [] {
      LittleEndianOfValue(h[1..]);
      assert Value(h) / 256 == Value(h[1..]);
    }
  }

  /** The header holds the bytes of the length as a 32-bit word, the lowest first. */
  lemma HeaderBytes(n: nat)
    ensures var w := n % WIDTH;
            EncodeSize(n) == [w % 256, w / 256 % 256, w / 256 / 256 % 256, w / 256 / 256 / 256 % 256]
  {
    LittleEndianBytes(n % WIDTH);
  }

  lemma LittleEndianBytes(w: nat)
    ensures LittleEndian(w, 4) == [w % 256, w / 256 % 256, w / 256 / 256 % 256, w / 256 / 256 / 256 % 256]
  {
    assert LittleEndian(w / 256 / 256 / 256, 1) == [w / 256 / 256 / 256 % 256];
    assert LittleEndian(w / 256 / 256, 2) == [w / 256 / 256 % 256, w / 256 / 256 / 256 % 256];
  }

  lemma HeaderRoundTrip(n: nat)
    ensures DecodeSize(EncodeSize(n)) == n % WIDTH
  {
    ValueOfLittleEndian(n % WIDTH, HEADER);
    var h := EncodeSize(n);
    assert h[..HEADER] == h;
  }

  lemma HeaderReEncodes(h: seq<Byte>)
    requires |h| == HEADER
    ensures EncodeSize(DecodeSize(h)) == h
  {
    assert h[..HEADER] == h;
    LittleEndianOfValue(h);
  }

  lemma DecodePrefix(h: seq<Byte>, tail: seq<Byte>)
    requires |h| >= HEADER
    ensures DecodeSize(h + tail) == DecodeSize(h)
  {
    assert (h + tail)[..HEADER] == h[..HEADER];
  }

  /** A header in front of any bytes decodes to the encoded length. */
  lemma FrameHeader(m: Message, tail: seq<Byte>)
    requires Representable(m)
    ensures DecodeSize(Frame(m) + tail) == |m|
    ensures (Frame(m) + tail)[HEADER..HEADER + |m|] == m
    ensures (Frame(m) + tail)[HEADER + |m|..] == tail
  {
    HeaderRoundTrip(|m|);
    var h := EncodeSize(|m|);
    assert Frame(m) + tail == h + (m + tail);
    DecodePrefix(h, m + tail);
  }

  /** The bytes written are the whole frame with an exact header just for messages of at most 2^32 - 5 bytes. */
  lemma WireExactIff(m: Message)
    ensures Wire(m) == Frame(m) && DecodeSize(Frame(m)) == |m| <==> Fits(m)
  {
    HeaderRoundTrip(|m|);
    DecodePrefix(EncodeSize(|m|), m);
    if !Fits(m) {
      assert |Wire(m)| < WIDTH <= |Frame(m)|;
    }
  }

  /** What is written of a message that does not fit: its frame cut by a positive multiple of 2^32 bytes at the end. */
  lemma UnfitIsCut(m: Message) returns (k: nat)
    requires !Fits(m)
    ensures k > 0 && Wire(m) <= Frame(m) && |Wire(m)| < WIDTH && |m| + HEADER == |Wire(m)| + k * WIDTH
  {
    k := |Frame(m)| / WIDTH;
    hide EncodeSize;
  }

  /** The smallest message that does not fit is accepted, and none of its bytes are written. */
  lemma SmallestUnfitMessageVanishes(m: Message)
    requires |m| == WIDTH - HEADER
    ensures !Fits(m) && Representable(m) && Wire(m) == []
  {
    assert |Frame(m)| == WIDTH;
    assert WIDTH % WIDTH == 0;
  }

  lemma {:induction false} ParseInvertsFrames(ms: seq<Message>, tail: seq<Byte>)
    requires forall i :: 0 <= i < |ms| ==> Representable(ms[i])
    requires Incomplete(tail)
    ensures Parse(Frames(ms) + tail) == (ms, tail)
  {
    if ms == [] {
      assert Frames(ms) + tail == tail;
    } else {
      assert Frames(ms) + tail == Frame(ms[0]) + (Frames(ms[1..]) + tail);
      FrameHeader(ms[0], Frames(ms[1..]) + tail);
      ParseInvertsFrames(ms[1..], tail);
      assert [ms[0]] + ms[1..] == ms;
    }
  }

  lemma SplitFrame(s: seq<Byte>)
    requires !Incomplete(s)
    ensures var end := HEADER + DecodeSize(s); s == Frame(s[HEADER..end]) + s[end..]
  {
    hide EncodeSize, DecodeSize;
    var end := HEADER + DecodeSize(s);
    var h, m := s[..HEADER], s[HEADER..end];
    HeaderReEncodes(h);
    DecodePrefix(h, s[HEADER..]);
    assert h + s[HEADER..] == s;
    assert s[..end] == h + m;
    assert s == s[..end] + s[end..];
  }

  lemma {:induction false} FramesInvertParse(s: seq<Byte>)
    ensures var (ms, rest) := Parse(s); Frames(ms) + rest == s && Incomplete(rest)
    decreases |s|
  {
    if !Incomplete(s) {
      SplitFrame(s);
      var end := HEADER + DecodeSize(s);
      var m := s[HEADER..end];
      FramesInvertParse(s[end..]);
      var (ms, rest) := Parse(s[end..]);
      hide Incomplete, Frame, DecodeSize;
      assert ([m] + ms)[1..] == ms;
      Associate(Frame(m), Frames(ms), rest);
    }
  }

  /** The decoder may work in pieces: what it finds in the first bytes stands, and it goes on from what it left. */
  lemma {:induction false} ParseAppend(x: seq<Byte>, y: seq<Byte>)
    ensures var (ms, rest) := Parse(x);
            Parse(x + y) == (ms + Parse(rest + y).0, Parse(rest + y).1)
    decreases |x|
  {
    if Incomplete(x) {
      assert [] + Parse(x + y).0 == Parse(x + y).0;
    } else {
      DecodePrefix(x, y);
      var end := HEADER + DecodeSize(x);
      hide DecodeSize;
      assert (x + y)[HEADER..end] == x[HEADER..end] && (x + y)[end..] == x[end..] + y;
      ParseAppend(x[end..], y);
      var (ms, rest) := Parse(x[end..]);
      assert Parse(x + y) == ([x[HEADER..end]] + Parse(x[end..] + y).0, Parse(x[end..] + y).1);
      Associate([x[HEADER..end]], ms, Parse(rest + y).0);
    }
  }

  /** Messages that lie wholly in the first bytes of a stream of frames are found there. */
  lemma ParseFindsArrived(x: seq<Byte>, ms: seq<Message>, n: nat)
    requires forall i :: 0 <= i < |ms| ==> Representable(ms[i])
    requires x <= Frames(ms) && n <= |ms| && |Frames(ms[..n])| <= |x|
    ensures ms[..n] <= Parse(x).0
  {
    hide Frames, Parse, Incomplete, Representable;
    var head := ms[..n];
    assert ms == head + ms[n..];
    FramesConcat(head, ms[n..]);
    var f := Frames(head);
    assert f <= x by {
      assert x == Frames(ms)[..|x|] && f == Frames(ms)[..|f|];
    }
    var tail := x[|f|..];
    assert x == f + tail;
    ParseOfFrames(head);
    ParseAppend(f, tail);
  }

  lemma {:induction false} ParseOfFrames(ms: seq<Message>)
    requires forall i :: 0 <= i < |ms| ==> Representable(ms[i])
    ensures Parse(Frames(ms)) == (ms, [])
  {
    hide Frames, Parse;
    assert Frames(ms) + [] == Frames(ms);
    ParseInvertsFrames(ms, []);
  }

  /** A frame at the start of a stream is told by the stream alone. */
  lemma FirstFrame(a: Message, b: Message, x: seq<Byte>, y: seq<Byte>)
    requires Representable(a) && Representable(b) && Frame(a) + x == Frame(b) + y
    ensures a == b && x == y
  {
    FrameHeader(a, x);
    FrameHeader(b, y);
  }

  /** No message sequence's frames start another's unless the messages do. */
  lemma {:induction false} PrefixFree(a: seq<Message>, b: seq<Message>)
    requires forall i :: 0 <= i < |a| ==> Representable(a[i])
    requires forall i :: 0 <= i < |b| ==> Representable(b[i])
    requires Frames(a) <= Frames(b)
    ensures a <= b
  {
    hide Frame;
    if a != [] {
      FrameNotEmpty(a[0]);
      var x, rest := Frames(a[1..]), Frames(b)[|Frames(a)|..];
      Associate(Frame(a[0]), x, rest);
      assert Frames(b) == Frame(a[0]) + (x + rest);
      FirstFrame(a[0], b[0], x + rest, Frames(b[1..]));
      PrefixFree(a[1..], b[1..]);
      assert a == [a[0]] + a[1..] && b == [b[0]] + b[1..];
    }
  }

  lemma FrameNotEmpty(m: Message)
    ensures |Frame(m)| >= HEADER
  {
  }

  lemma {:induction false} UniquelyDecodable(a: seq<Message>, b: seq<Message>)
    requires forall i :: 0 <= i < |a| ==> Representable(a[i])
    requires forall i :: 0 <= i < |b| ==> Representable(b[i])
    ensures Frames(a) == Frames(b) <==> a == b
  {
    if Frames(a) == Frames(b) {
      PrefixFree(a, b);
      PrefixFree(b, a);
    }
  }

  lemma {:induction false} FramesConcat(a: seq<Message>, b: seq<Message>)
    ensures Frames(a + b) == Frames(a) + Frames(b)
  {
    hide Frame;
    if a == [] {
      assert a + b == b;
    } else {
      FramesConcat(a[1..], b);
      AppendToTail(a, b);
      Associate(Frame(a[0]), Frames(a[1..]), Frames(b));
    }
  }

  lemma FramesAppend(ms: seq<Message>, m: Message)
    ensures Frames(ms + [m]) == Frames(ms) + Frame(m)
  {
    hide Frame;
    FramesConcat(ms, [m]);
    assert Frames([m]) == Frame(m) + Frames([]);
  }

  /** `std::vector::resize` on a byte vector. */
  function Resize(b: seq<Byte>, n: nat): (r: seq<Byte>)
    ensures |r| == n
    ensures forall i :: 0 <= i < n && i < |b| ==> r[i] == b[i]
  {
    if n <= |b| then b[..n] else b + seq(n - |b|, _ => 0)
  }

  /** Bytes copied over a vector, from an offset on. */
  function Overwrite(b: seq<Byte>, at: nat, data: seq<Byte>): (r: seq<Byte>)
    requires at + |data| <= |b|
    ensures |r| == |b|
    ensures r[at..at + |data|] == data
    ensures r[..at] == b[..at] && r[at + |data|..] == b[at + |data|..]
  {
    b[..at] + data + b[at + |data|..]
  }

  /** The buffer of one outgoing message; it may be assigned many times. */
  class Task {
    var buffer: seq<Byte>

    constructor ()
      ensures buffer == []
    {
      buffer := [];
    }

    method Assign(data: Message)
      modifies this
      ensures buffer == Frame(data)
    {
      buffer := Resize(buffer, |data| + HEADER);
      buffer := Overwrite(buffer, HEADER, data);
      buffer := Overwrite(buffer, 0, EncodeSize(|data|));
    }
  }
}
