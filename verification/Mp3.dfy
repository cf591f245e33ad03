/**
 Length of an MP3 stream, found by walking from frame header to frame header (ID3v2.4.0 sections 3.1 and
 6.2 for the tag in front). Durations are exact rationals here.

 Printing a stream is the specification: tag, frames as long as their headers demand, and filler.
 */
module Mp3 {
  import opened Common

  /** Kilobits per second by bitrate index 1 to 14; index 0 is "free", 15 is invalid. */
  function Bitrates(mpeg1: bool, layer: int): seq<nat> {
    if mpeg1 && layer == 1 then [0, 32, 64, 96, 128, 160, 192, 224, 256, 288, 320, 352, 384, 416, 448]
    else if mpeg1 && layer == 2 then [0, 32, 48, 56, 64, 80, 96, 112, 128, 160, 192, 224, 256, 320, 384]
    else if mpeg1 then [0, 32, 40, 48, 56, 64, 80, 96, 112, 128, 160, 192, 224, 256, 320]
    else if layer == 1 then [0, 32, 48, 56, 64, 80, 96, 112, 128, 144, 160, 176, 192, 224, 256]
    else [0, 8, 16, 24, 32, 40, 48, 56, 64, 80, 96, 112, 128, 144, 160]
  }

  /** Samples per second by version bits (3 is MPEG 1, 2 is MPEG 2, 0 is MPEG 2.5). */
  function SampleRates(verBits: int): seq<nat> {
    if verBits == 3 then [44100, 48000, 32000]
    else if verBits == 2 then [22050, 24000, 16000]
    else [11025, 12000, 8000]
  }

  /** Two to the power of `n`. */
  function Power(n: nat): nat {
    if n == 0 then 1 else 2 * Power(n - 1)
  }

  /** Four steps an octave, each a quarter of its first rate. */
  function OctaveStep(base: nat, i: nat): nat {
    base / 4 * (4 + i % 4) * Power(i / 4)
  }

  /**
   The rates go up by rules: layer I of MPEG 1 in steps of 32; its other layers from 32 in four steps an octave,
   layer II without the first of them; the lower sampling rates from 8 in steps of 8, 16 and 32.
   */
  lemma RatesFollowSteps(i: nat)
    requires 1 <= i <= 14
    ensures Bitrates(true, 1)[i] == 32 * i
    ensures Bitrates(true, 3)[i] == OctaveStep(32, i - 1)
    ensures Bitrates(true, 2)[i] == OctaveStep(32, if i == 1 then 0 else i)
    ensures Bitrates(false, 2)[i] == if i <= 8 then 8 * i else 16 * (i - 4)
    ensures Bitrates(false, 3) == Bitrates(false, 2)
    ensures Bitrates(false, 1)[i]
         == if i == 1 then 32 else if i <= 4 then 8 * (i + 4) else if i <= 12 then 16 * i else 32 * (i - 6)
  {
    assert Power(0) == 1 && Power(1) == 2 && Power(2) == 4 && Power(3) == 8;
  }

  /** MPEG 2 samples at half the rates of MPEG 1, and MPEG 2.5 at half of those. */
  lemma SampleRatesHalve(i: nat)
    requires i <= 2
    ensures SampleRates(3)[i] == 2 * SampleRates(2)[i] == 4 * SampleRates(0)[i]
    ensures SampleRates(3) == [44_100, 48_000, 32_000]
  {
  }

  // ── The fields of a header ───────────────────────────────────────────────

  /** The fields the walker reads out of the second and third byte of a header. */
  datatype Header = Header(verBits: nat, layerBits: nat, brIdx: nat, srIdx: nat, padding: nat)

  predicate Sync(b0: byte, b1: byte) {
    b0 == 0xff && b1 as int / 32 == 7
  }

  function Fields(b1: byte, b2: byte): Header {
    Header(b1 as int / 8 % 4, b1 as int / 2 % 4, b2 as int / 16, b2 as int / 4 % 4, b2 as int / 2 % 2)
  }

  predicate Usable(h: Header) {
    h.verBits in {0, 2, 3} && h.layerBits in {1, 2, 3} && 1 <= h.brIdx <= 14 && h.srIdx <= 2
  }

  function Samples(h: Header): nat {
    if h.layerBits == 3 then 384 else if h.layerBits == 2 then 1152 else if h.verBits == 3 then 1152 else 576
  }

  function Rate(h: Header): (r: nat)
    requires Usable(h)
    ensures 8000 <= r <= 48000
  {
    SampleRates(h.verBits)[h.srIdx]
  }

  function Kbps(h: Header): (r: nat)
    requires Usable(h)
    ensures 8 <= r <= 448
  {
    Bitrates(h.verBits == 3, 4 - h.layerBits)[h.brIdx]
  }

  function FrameLength(h: Header): nat
    requires Usable(h)
  {
    if h.layerBits == 3 then (12 * Kbps(h) * 1000 / Rate(h) + h.padding) * 4
    else Samples(h) / 8 * Kbps(h) * 1000 / Rate(h) + h.padding
  }

  function Duration(h: Header): real
    requires Usable(h)
  {
    Samples(h) as real / Rate(h) as real
  }

  /** A quotient is at least `q` when the divisor fits `q` times. */
  lemma {:induction false} QuotientAtLeast(a: nat, d: nat, q: nat)
    requires d > 0 && q * d <= a
    ensures a / d >= q
  {
    assert a == a / d * d + a % d;
    if a / d < q {
      Scaled(a / d + 1, q, d);
    }
  }

  lemma Scaled(x: nat, y: nat, d: nat)
    requires x <= y
    ensures x * d <= y * d
  {
  }

  /** The shortest frame there is has 24 bytes, so the walker always steps over a whole header. */
  lemma {:induction false} FramesAreLong(h: Header)
    requires Usable(h)
    ensures FrameLength(h) >= 24
  {
    if h.layerBits == 3 {
      assert Kbps(h) >= 32;
      QuotientAtLeast(12 * Kbps(h) * 1000, Rate(h), 8);
    } else if h.layerBits == 2 {
      if h.verBits == 3 {
        assert Kbps(h) >= 32;
      } else {
        assert Rate(h) <= 24000;
      }
      QuotientAtLeast(144 * Kbps(h) * 1000, Rate(h), 24);
    } else if h.verBits == 3 {
      assert Kbps(h) >= 32;
      QuotientAtLeast(144 * Kbps(h) * 1000, Rate(h), 24);
    } else {
      assert Rate(h) <= 24000;
      QuotientAtLeast(72 * Kbps(h) * 1000, Rate(h), 24);
    }
  }

  // ── The walk ─────────────────────────────────────────────────────────────

  /** A usable header starts at `i`. */
  predicate FrameAt(buf: Bytes, i: nat)
    requires i + 4 <= |buf|
  {
    Sync(buf[i], buf[i + 1]) && Usable(Fields(buf[i + 1], buf[i + 2]))
  }

  function HeaderAt(buf: Bytes, i: nat): Header
    requires i + 4 <= |buf|
  {
    Fields(buf[i + 1], buf[i + 2])
  }

  /** How long the frame of each header is; all that the walk needs to know is that none is short. */
  ghost predicate LongEnough(len: Header -> nat) {
    forall h :: Usable(h) ==> len(h) >= 24
  }

  const FRAME_LENGTH: Header -> nat := h => if Usable(h) then FrameLength(h) else 24

  lemma FrameLengthsAreLong()
    ensures LongEnough(FRAME_LENGTH)
  {
    forall h | Usable(h) ensures FRAME_LENGTH(h) >= 24 {
      FramesAreLong(h);
    }
  }

  /** Frames found from position `i` on. */
  ghost function Walk(len: Header -> nat, buf: Bytes, i: nat): seq<Header>
    requires LongEnough(len)
    decreases |buf| - i
  {
    if i + 4 > |buf| then []
    else if !FrameAt(buf, i) then Walk(len, buf, i + 1)
    else [HeaderAt(buf, i)] + Walk(len, buf, i + len(HeaderAt(buf, i)))
  }

  const ID3: Bytes := [0x49, 0x44, 0x33]

  /** Four bytes of seven bits each. */
  function Syncsafe(b: Bytes): nat
    requires |b| == 4
  {
    (b[0] as int % 128) * 0x200000 + (b[1] as int % 128) * 0x4000 + (b[2] as int % 128) * 0x80 + b[3] as int % 128
  }

  /** Where the walk starts: behind the tag, if there is one. */
  function Start(buf: Bytes): nat {
    if |buf| > 10 && buf[..3] == ID3 then 10 + Syncsafe(buf[6..10]) else 0
  }

  ghost function Frames(buf: Bytes): seq<Header> {
    FrameLengthsAreLong();
    Walk(FRAME_LENGTH, buf, Start(buf))
  }

  ghost predicate AllUsable(hs: seq<Header>) {
    forall h :: h in hs ==> Usable(h)
  }

  function Total(hs: seq<Header>): real
    requires AllUsable(hs)
  {
    if hs == [] then 0.0 else Total(hs[..|hs| - 1]) + Duration(hs[|hs| - 1])
  }

  lemma {:induction false} WalkFindsUsable(len: Header -> nat, buf: Bytes, i: nat)
    requires LongEnough(len)
    ensures AllUsable(Walk(len, buf, i))
    decreases |buf| - i
  {
    if i + 4 <= |buf| {
      if FrameAt(buf, i) {
        var n := len(HeaderAt(buf, i));
        WalkFindsUsable(len, buf, i + n);
        WalkFrame(len, buf, i, n);
      } else {
        WalkFindsUsable(len, buf, i + 1);
      }
    }
  }

  lemma TotalAppend(found: seq<Header>, h: Header)
    requires AllUsable(found) && Usable(h)
    ensures AllUsable(found + [h]) && Total(found + [h]) == Total(found) + Duration(h)
  {
    assert (found + [h])[..|found|] == found;
  }

  lemma WalkFrame(len: Header -> nat, buf: Bytes, i: nat, n: nat)
    requires LongEnough(len) && i + 4 <= |buf| && FrameAt(buf, i) && len(HeaderAt(buf, i)) == n
    ensures Walk(len, buf, i) == [HeaderAt(buf, i)] + Walk(len, buf, i + n)
  {
  }

  lemma WalkOn(len: Header -> nat, buf: Bytes, i: nat)
    requires LongEnough(len) && i + 4 <= |buf| && !FrameAt(buf, i)
    ensures Walk(len, buf, i) == Walk(len, buf, i + 1)
  {
  }

  /** Rounded to hundredths, halves up. */
  function Rounded(seconds: real): real {
    (seconds * 100.0 + 0.5).Floor as real / 100.0
  }

  /** The header at a position, if there is a usable one. */
  method ReadHeader(buf: Bytes, i: nat) returns (h: Option<Header>)
    requires i + 4 <= |buf|
    ensures h == if FrameAt(buf, i) then Some(HeaderAt(buf, i)) else None
  {
    if buf[i] != 0xff || buf[i + 1] as int / 32 != 7 {
      return None;
    }
    var fields := Fields(buf[i + 1], buf[i + 2]);
    if fields.verBits == 1 || fields.layerBits == 0 || fields.brIdx == 0 || fields.brIdx == 15 || fields.srIdx == 3 {
      return None;
    }
    h := Some(fields);
  }

  /** Where the walk is and what it has found so far. */
  ghost predicate Progress(len: Header -> nat, buf: Bytes, all: seq<Header>, i: nat, found: seq<Header>, seconds: real)
    requires LongEnough(len)
  {
    found + Walk(len, buf, i) == all && AllUsable(found) && seconds == Total(found)
  }

  /** One more frame, of the length that it has. */
  lemma StepsOver(len: Header -> nat, buf: Bytes, all: seq<Header>, i: nat, found: seq<Header>, seconds: real, n: nat)
    requires LongEnough(len) && Progress(len, buf, all, i, found, seconds)
    requires i + 4 <= |buf| && FrameAt(buf, i) && n == len(HeaderAt(buf, i))
    ensures n >= 24
    ensures Progress(len, buf, all, i + n, found + [HeaderAt(buf, i)], seconds + Duration(HeaderAt(buf, i)))
  {
    var h := HeaderAt(buf, i);
    TotalAppend(found, h);
    WalkFrame(len, buf, i, n);
    Assoc(found, [h], Walk(len, buf, i + n));
  }

  lemma StepsOn(len: Header -> nat, buf: Bytes, all: seq<Header>, i: nat, found: seq<Header>, seconds: real)
    requires LongEnough(len) && Progress(len, buf, all, i, found, seconds) && i + 4 <= |buf| && !FrameAt(buf, i)
    ensures Progress(len, buf, all, i + 1, found, seconds)
  {
    WalkOn(len, buf, i);
  }

  lemma Begins(len: Header -> nat, buf: Bytes, all: seq<Header>, i: nat)
    requires LongEnough(len) && all == Walk(len, buf, i)
    ensures Progress(len, buf, all, i, [], 0.0)
  {
    assert [] + all == all;
  }

  lemma Ends(len: Header -> nat, buf: Bytes, all: seq<Header>, i: nat, found: seq<Header>, seconds: real)
    requires LongEnough(len) && Progress(len, buf, all, i, found, seconds) && i + 4 > |buf|
    ensures found == all && AllUsable(all) && seconds == Total(all)
  {
    assert found + [] == found;
  }

  /** One turn of the walk: the step to the next position, and the header of the frame that was found. */
  method Turn(buf: Bytes, i: nat, ghost all: seq<Header>, ghost found: seq<Header>, seconds: real)
    returns (step: nat, h: Option<Header>, time: real)
    requires LongEnough(FRAME_LENGTH) && Progress(FRAME_LENGTH, buf, all, i, found, seconds) && i + 4 <= |buf|
    ensures step >= 1
    ensures h.None? ==> Progress(FRAME_LENGTH, buf, all, i + step, found, seconds)
    ensures h.Some? ==> Progress(FRAME_LENGTH, buf, all, i + step, found + [h.value], seconds + time)
  {
    h := ReadHeader(buf, i);
    if h.None? {
      StepsOn(FRAME_LENGTH, buf, all, i, found, seconds);
      return 1, None, 0.0;
    }
    step, time := FrameLength(h.value), Duration(h.value);
    StepsOver(FRAME_LENGTH, buf, all, i, found, seconds, step);
  }

  method DurationSec(buf: Bytes) returns (duration: real, seconds: real)
    ensures AllUsable(Frames(buf)) && seconds == Total(Frames(buf))
    ensures duration == if Frames(buf) == [] then 0.0 else Rounded(seconds)
  {
    var i := 0;
    if |buf| > 10 && buf[..3] == ID3 {
      i := 10 + Syncsafe(buf[6..10]);
    }
    var frames := 0;
    seconds := 0.0;
    ghost var all, found: seq<Header> := Frames(buf), [];
    FrameLengthsAreLong();
    Begins(FRAME_LENGTH, buf, all, i);
    while i + 4 <= |buf|
      invariant Progress(FRAME_LENGTH, buf, all, i, found, seconds) && frames == |found|
      decreases |buf| - i
    {
      var step, h, time := Turn(buf, i, all, found, seconds);
      if h.Some? {
        found := found + [h.value];
        seconds := seconds + time;
        frames := frames + 1;
      }
      i := i + step;
    }
    Ends(FRAME_LENGTH, buf, all, i, found, seconds);
    duration := if frames > 0 then Rounded(seconds) else 0.0;
  }

  // ── Well-formed streams ──────────────────────────────────────────────────

  /** Every combination that the tables know (sections 2.4.1.3 and 2.4.2.3 of ISO/IEC 11172-3). */
  predicate Legal(h: Header) {
    && h.verBits <= 3 && h.verBits != 1 && 1 <= h.layerBits <= 3
    && 1 <= h.brIdx <= 14 && h.srIdx <= 2 && h.padding <= 1
  }

  lemma LegalIsUsable(h: Header)
    requires Legal(h)
    ensures Usable(h)
  {
  }

  /** 32 subbands, of 12, 36 or, in layer III at the lower sampling rates, 18 samples. */
  function SamplesOf(h: Header): nat {
    32 * if h.layerBits == 3 then 12 else if h.layerBits == 1 && h.verBits != 3 then 18 else 36
  }

  /** Bytes a slot: four in layer I. */
  function Slot(h: Header): nat {
    if h.layerBits == 3 then 4 else 1
  }

  /** What the bit rate delivers in the playing time of a frame, in whole slots, and one more if padded. */
  ghost predicate FillsFrame(h: Header, bytes: nat)
    requires Legal(h)
  {
    LegalIsUsable(h);
    exists slots: nat ::
      && bytes == Slot(h) * (slots + h.padding)
      && 8 * Slot(h) * slots * Rate(h) <= SamplesOf(h) * 1000 * Kbps(h) < 8 * Slot(h) * (slots + 1) * Rate(h)
  }

  /** A frame: its header, two bits and a byte that the walker ignores, and its body. */
  datatype Frame = Frame(h: Header, guarded: bool, personal: bool, b3: byte, body: Bytes) {
    ghost predicate Valid() {
      Legal(h) && FillsFrame(h, 4 + |body|)
    }

    function Second(): byte
      requires Legal(h)
    {
      0xe0 + h.verBits * 8 + h.layerBits * 2 + if guarded then 0 else 1
    }

    function Third(): byte
      requires Legal(h)
    {
      h.brIdx * 16 + h.srIdx * 4 + h.padding * 2 + if personal then 1 else 0
    }

    function Encoded(): Bytes
      requires Legal(h)
    {
      [0xff, Second(), Third(), b3] + body
    }
  }

  /** The header reads back as it was written. */
  lemma FieldsReadBack(f: Frame)
    requires Legal(f.h)
    ensures Sync(0xff, f.Second()) && Fields(f.Second(), f.Third()) == f.h
  {
    SecondByte(f.h.verBits, f.h.layerBits, if f.guarded then 0 else 1);
    ThirdByte(f.h.brIdx, f.h.srIdx, f.h.padding, if f.personal then 1 else 0);
  }

  lemma SecondByte(version: nat, layer: nat, bit: nat)
    requires version < 4 && layer < 4 && bit < 2
    ensures var b := 0xe0 + version * 8 + layer * 2 + bit; b / 32 == 7 && b / 8 % 4 == version && b / 2 % 4 == layer
  {
  }

  lemma ThirdByte(rate: nat, sampling: nat, padding: nat, bit: nat)
    requires rate < 16 && sampling < 4 && padding < 2 && bit < 2
    ensures var b := rate * 16 + sampling * 4 + padding * 2 + bit; b / 16 == rate && b / 4 % 4 == sampling && b / 2 % 2 == padding
  {
  }

  lemma SlotsOfFour(slots: nat, rate: nat, kbps: nat)
    requires rate > 0 && 8 * 4 * slots * rate <= 384 * 1000 * kbps < 8 * 4 * (slots + 1) * rate
    ensures 12 * kbps * 1000 / rate == slots
  {
    assert 8 * 4 * slots * rate == 32 * (slots * rate) && 8 * 4 * (slots + 1) * rate == 32 * ((slots + 1) * rate);
    SlotsAre(12 * kbps * 1000, rate, slots);
  }

  lemma SlotsOfOne(slots: nat, rate: nat, kbps: nat, samples: nat)
    requires rate > 0 && samples % 8 == 0
    requires 8 * 1 * slots * rate <= samples * 1000 * kbps < 8 * 1 * (slots + 1) * rate
    ensures samples / 8 * kbps * 1000 / rate == slots
  {
    var part := samples / 8;
    assert samples * 1000 * kbps == 8 * (part * kbps * 1000);
    assert 8 * 1 * slots * rate == 8 * (slots * rate) && 8 * 1 * (slots + 1) * rate == 8 * ((slots + 1) * rate);
    SlotsAre(part * kbps * 1000, rate, slots);
  }

  /** The length computed is the one a frame has. */
  lemma LengthIsExact(h: Header, bytes: nat)
    requires Legal(h)
    ensures Usable(h) && (FillsFrame(h, bytes) <==> FrameLength(h) == bytes)
  {
    LegalIsUsable(h);
    var kbps, rate := Kbps(h), Rate(h);
    if FillsFrame(h, bytes) {
      var slots: nat :| && bytes == Slot(h) * (slots + h.padding)
        && 8 * Slot(h) * slots * rate <= SamplesOf(h) * 1000 * kbps < 8 * Slot(h) * (slots + 1) * rate;
      if h.layerBits == 3 {
        SlotsOfFour(slots, rate, kbps);
      } else {
        SlotsOfOne(slots, rate, kbps, Samples(h));
      }
    }
    if FrameLength(h) == bytes {
      LengthFits(h);
    }
  }

  lemma FourFits(rate: nat, kbps: nat)
    requires rate > 0
    ensures var slots := 12 * kbps * 1000 / rate;
            8 * 4 * slots * rate <= 384 * 1000 * kbps < 8 * 4 * (slots + 1) * rate
  {
    var slots := 12 * kbps * 1000 / rate;
    Quotient(12 * kbps * 1000, rate);
    assert 8 * 4 * slots * rate == 32 * (slots * rate) && 8 * 4 * (slots + 1) * rate == 32 * ((slots + 1) * rate);
  }

  lemma OneFits(rate: nat, kbps: nat, samples: nat)
    requires rate > 0 && samples % 8 == 0
    ensures var slots := samples / 8 * kbps * 1000 / rate;
            8 * 1 * slots * rate <= samples * 1000 * kbps < 8 * 1 * (slots + 1) * rate
  {
    var part := samples / 8;
    var slots := part * kbps * 1000 / rate;
    Quotient(part * kbps * 1000, rate);
    assert samples * 1000 * kbps == 8 * (part * kbps * 1000);
    assert 8 * 1 * slots * rate == 8 * (slots * rate) && 8 * 1 * (slots + 1) * rate == 8 * ((slots + 1) * rate);
  }

  lemma LengthFits(h: Header)
    requires Legal(h) && Usable(h)
    ensures FillsFrame(h, FrameLength(h))
  {
    if h.layerBits == 3 {
      FourSlotsFit(h);
    } else {
      OneSlotFits(h);
    }
  }

  lemma FourSlotsFit(h: Header)
    requires Legal(h) && Usable(h) && h.layerBits == 3
    ensures FillsFrame(h, FrameLength(h))
  {
    FourFits(Rate(h), Kbps(h));
    var slots: nat := 12 * Kbps(h) * 1000 / Rate(h);
    assert FrameLength(h) == Slot(h) * (slots + h.padding);
  }

  lemma OneSlotFits(h: Header)
    requires Legal(h) && Usable(h) && h.layerBits != 3
    ensures FillsFrame(h, FrameLength(h))
  {
    OneFits(Rate(h), Kbps(h), Samples(h));
    var slots: nat := Samples(h) / 8 * Kbps(h) * 1000 / Rate(h);
    assert FrameLength(h) == Slot(h) * (slots + h.padding);
  }

  lemma Quotient(amount: nat, rate: nat)
    requires rate > 0
    ensures amount / rate * rate <= amount < (amount / rate + 1) * rate
  {
    assert amount == amount / rate * rate + amount % rate;
    assert (amount / rate + 1) * rate == amount / rate * rate + rate;
  }

  lemma SlotsAre(amount: nat, rate: nat, slots: nat)
    requires rate > 0 && slots * rate <= amount < (slots + 1) * rate
    ensures amount / rate == slots
  {
    assert (slots + 1) * rate == slots * rate + rate;
    DivMod(amount, rate, slots, amount - slots * rate);
  }

  /** A run of filler without a sync byte, then a frame. */
  datatype Item = Item(filler: Bytes, frame: Frame)

  predicate Filler(b: Bytes) {
    0xff !in b
  }

  ghost predicate ValidItems(items: seq<Item>) {
    forall x :: x in items ==> Filler(x.filler) && x.frame.Valid()
  }

  function EncodedItems(items: seq<Item>, tail: Bytes): Bytes
    requires forall x :: x in items ==> Legal(x.frame.h)
  {
    if items == [] then tail
    else
      assert items[0] in items;
      items[0].filler + items[0].frame.Encoded() + EncodedItems(items[1..], tail)
  }

  function HeadersOf(items: seq<Item>): seq<Header> {
    if items == [] then [] else [items[0].frame.h] + HeadersOf(items[1..])
  }

  /** A length as four bytes of seven bits each (section 6.2 of ID3v2.4.0). */
  function SyncsafeBytes(n: nat): Bytes
    requires n < 0x1000_0000
  {
    [n / 0x200000, n / 0x4000 % 128, n / 0x80 % 128, n % 128]
  }

  /** Shifting by seven bits at a time. */
  lemma SevenBits(n: nat)
    ensures n / 0x4000 == n / 0x80 / 0x80 && n / 0x200000 == n / 0x80 / 0x80 / 0x80
  {
    var a := n / 0x80;
    var b := a / 0x80;
    var c := b / 0x80;
    assert n == a * 0x80 + n % 0x80 && a == b * 0x80 + a % 0x80 && b == c * 0x80 + b % 0x80;
    DivMod(n, 0x4000, b, a % 0x80 * 0x80 + n % 0x80);
    DivMod(n, 0x200000, c, b % 0x80 * 0x4000 + a % 0x80 * 0x80 + n % 0x80);
  }

  lemma FromSevenBits(bytes: Bytes, a: byte, b: byte, c: byte, d: byte)
    requires |bytes| == 4 && SameBits(bytes[0], a) && SameBits(bytes[1], b) && SameBits(bytes[2], c) && SameBits(bytes[3], d)
    ensures Syncsafe(bytes) == a as int * 0x200000 + b as int * 0x4000 + c as int * 0x80 + d as int
  {
  }

  /** The lower seven bits of `x` are `bits`. */
  predicate SameBits(x: byte, bits: byte) {
    bits < 0x80 && (x == bits || x as int == 0x80 + bits as int)
  }

  /** The number is read back from the lower seven bits of each byte, whatever the eighth is. */
  lemma SyncsafeReadsBack(n: nat, bytes: Bytes)
    requires n < 0x1000_0000
    requires |bytes| == 4 && forall k :: 0 <= k < 4 ==> SameBits(bytes[k], SyncsafeBytes(n)[k])
    ensures Syncsafe(bytes) == n
  {
    SevenBits(n);
    var a := n / 0x80;
    var b := a / 0x80;
    var c := b / 0x80;
    assert SyncsafeBytes(n) == [c as byte, (b % 0x80) as byte, (a % 0x80) as byte, (n % 0x80) as byte];
    FromSevenBits(bytes, c as byte, (b % 0x80) as byte, (a % 0x80) as byte, (n % 0x80) as byte);
  }

  /** A tag: version, flags, the length of its body in seven-bit bytes, and a body with any content. */
  datatype Tag = NoTag | Id3(major: byte, revision: byte, flags: byte, body: Bytes) {
    predicate Valid() {
      Id3? ==> major < 0xff && revision < 0xff && flags % 16 == 0 && |body| < 0x1000_0000
    }

    function Encoded(): Bytes
      requires Valid()
    {
      if NoTag? then [] else ID3 + [major, revision, flags] + SyncsafeBytes(|body|) + body
    }
  }

  lemma HeaderShifts(prefix: Bytes, buf: Bytes, i: nat)
    requires i + 4 <= |buf|
    ensures FrameAt(prefix + buf, |prefix| + i) <==> FrameAt(buf, i)
    ensures HeaderAt(prefix + buf, |prefix| + i) == HeaderAt(buf, i)
  {
    assert (prefix + buf)[|prefix| + i] == buf[i] && (prefix + buf)[|prefix| + i + 1] == buf[i + 1]
        && (prefix + buf)[|prefix| + i + 2] == buf[i + 2];
  }

  /** The walk depends only on what lies ahead. */
  lemma {:induction false} WalkShifts(len: Header -> nat, prefix: Bytes, buf: Bytes, i: nat)
    requires LongEnough(len)
    ensures Walk(len, prefix + buf, |prefix| + i) == Walk(len, buf, i)
    decreases |buf| - i, 1
  {
    if i + 4 <= |buf| {
      HeaderShifts(prefix, buf, i);
      if FrameAt(buf, i) {
        ShiftFrame(len, prefix, buf, i, len(HeaderAt(buf, i)));
      } else {
        WalkShifts(len, prefix, buf, i + 1);
        WalkOn(len, buf, i);
        WalkOn(len, prefix + buf, |prefix| + i);
      }
    }
  }

  lemma {:induction false} ShiftFrame(len: Header -> nat, prefix: Bytes, buf: Bytes, i: nat, n: nat)
    requires LongEnough(len) && i + 4 <= |buf| && FrameAt(buf, i) && n == len(HeaderAt(buf, i))
    ensures Walk(len, prefix + buf, |prefix| + i) == Walk(len, buf, i)
    decreases |buf| - i, 0
  {
    HeaderShifts(prefix, buf, i);
    WalkShifts(len, prefix, buf, i + n);
    WalkFrame(len, buf, i, n);
    WalkFrame(len, prefix + buf, |prefix| + i, n);
  }

  lemma {:induction false} FillerIsSkipped(len: Header -> nat, filler: Bytes, rest: Bytes)
    requires LongEnough(len) && Filler(filler)
    ensures Walk(len, filler + rest, 0) == Walk(len, rest, 0)
  {
    if filler == [] {
      assert filler + rest == rest;
    } else {
      var buf := filler + rest;
      assert buf[0] == filler[0] && filler[0] in filler;
      assert buf == filler[..1] + (filler[1..] + rest);
      FillerIsSkipped(len, filler[1..], rest);
      WalkShifts(len, filler[..1], filler[1..] + rest, 0);
      if |buf| < 4 {
        assert Walk(len, rest, 0) == [];
      }
    }
  }

  lemma FrameIsFound(len: Header -> nat, f: Frame, rest: Bytes)
    requires LongEnough(len) && Legal(f.h) && len(f.h) == 4 + |f.body|
    ensures Walk(len, f.Encoded() + rest, 0) == [f.h] + Walk(len, rest, 0)
  {
    var buf := f.Encoded() + rest;
    FieldsReadBack(f);
    LegalIsUsable(f.h);
    assert buf[0] == 0xff && buf[1] == f.Second() && buf[2] == f.Third();
    assert FrameAt(buf, 0) && HeaderAt(buf, 0) == f.h;
    WalkShifts(len, f.Encoded(), rest, 0);
  }

  lemma ItemIsFound(len: Header -> nat, x: Item, rest: Bytes)
    requires LongEnough(len) && Filler(x.filler) && Legal(x.frame.h) && len(x.frame.h) == 4 + |x.frame.body|
    ensures Walk(len, x.filler + x.frame.Encoded() + rest, 0) == [x.frame.h] + Walk(len, rest, 0)
  {
    Assoc(x.filler, x.frame.Encoded(), rest);
    FillerIsSkipped(len, x.filler, x.frame.Encoded() + rest);
    FrameIsFound(len, x.frame, rest);
  }

  lemma {:induction false} ItemsAreFound(len: Header -> nat, items: seq<Item>, tail: Bytes)
    requires LongEnough(len) && Filler(tail)
    requires forall x :: x in items ==> Filler(x.filler) && Legal(x.frame.h) && len(x.frame.h) == 4 + |x.frame.body|
    ensures Walk(len, EncodedItems(items, tail), 0) == HeadersOf(items)
  {
    if items == [] {
      FillerIsSkipped(len, tail, []);
      assert tail + [] == tail;
    } else {
      assert items[0] in items;
      ItemIsFound(len, items[0], EncodedItems(items[1..], tail));
      ItemsAreFound(len, items[1..], tail);
    }
  }

  lemma LengthsAreRight(items: seq<Item>)
    requires ValidItems(items)
    ensures forall x :: x in items ==> Legal(x.frame.h) && FRAME_LENGTH(x.frame.h) == 4 + |x.frame.body|
  {
    forall x | x in items ensures FRAME_LENGTH(x.frame.h) == 4 + |x.frame.body| {
      LengthIsExact(x.frame.h, 4 + |x.frame.body|);
    }
  }

  lemma TagIsSkipped(len: Header -> nat, tag: Tag, stream: Bytes)
    requires LongEnough(len) && tag.Id3? && tag.Valid()
    ensures var buf := tag.Encoded() + stream; Walk(len, buf, Start(buf)) == Walk(len, stream, 0)
  {
    var head := tag.Encoded();
    var buf := head + stream;
    var size := SyncsafeBytes(|tag.body|);
    SyncsafeReadsBack(|tag.body|, size);
    assert |head| == 10 + |tag.body|;
    assert buf[..3] == ID3;
    assert buf[6..10] == size;
    if |buf| > 10 {
      WalkShifts(len, head, stream, 0);
    } else {
      assert stream == [] && tag.body == [];
      var front := ID3 + [tag.major, tag.revision, tag.flags] + size;
      assert head == front + [] && front + [] == front;
      assert Filler(front);
      FillerIsSkipped(len, head, stream);
    }
  }

  /**
   On every well-formed stream - an optional tag, frames of any kind with any bodies, filler without sync
   bytes between and behind them - exactly the frames are found. A stream without a tag must not begin
   like one.
   */
  lemma WellFormedIsExact(tag: Tag, items: seq<Item>, tail: Bytes)
    requires tag.Valid() && ValidItems(items) && Filler(tail)
    requires tag.NoTag? ==> Start(EncodedItems(items, tail)) == 0
    ensures Frames(tag.Encoded() + EncodedItems(items, tail)) == HeadersOf(items)
  {
    var stream := EncodedItems(items, tail);
    FrameLengthsAreLong();
    LengthsAreRight(items);
    ItemsAreFound(FRAME_LENGTH, items, tail);
    if tag.Id3? {
      TagIsSkipped(FRAME_LENGTH, tag, stream);
    } else {
      assert tag.Encoded() + stream == stream;
    }
  }

  /** The sum of samples over rate, frame by frame from the front. */
  ghost function PlayingTime(items: seq<Item>): real
    requires ValidItems(items)
  {
    if items == [] then 0.0
    else
      assert items[0] in items;
      LegalIsUsable(items[0].frame.h);
      SamplesOf(items[0].frame.h) as real / Rate(items[0].frame.h) as real + PlayingTime(items[1..])
  }

  lemma {:induction false} TotalFromFront(hs: seq<Header>)
    requires AllUsable(hs) && hs != []
    ensures AllUsable(hs[1..]) && Total(hs) == Duration(hs[0]) + Total(hs[1..])
  {
    var n := |hs| - 1;
    if n > 0 {
      TotalFromFront(hs[..n]);
      assert hs[1..][..n - 1] == hs[..n][1..];
    }
  }

  lemma {:induction false} TotalIsPlayingTime(items: seq<Item>)
    requires ValidItems(items)
    ensures AllUsable(HeadersOf(items)) && Total(HeadersOf(items)) == PlayingTime(items)
  {
    if items != [] {
      assert items[0] in items;
      LegalIsUsable(items[0].frame.h);
      TotalIsPlayingTime(items[1..]);
      assert HeadersOf(items)[1..] == HeadersOf(items[1..]);
      TotalFromFront(HeadersOf(items));
    }
  }

  /** The number of hundredths that is nearest. */
  predicate IsNearest(rounded: real, exact: real) {
    -0.005 < rounded - exact <= 0.005 && rounded * 100.0 == (rounded * 100.0).Floor as real
  }

  lemma RoundedIsNearest(seconds: real)
    ensures IsNearest(Rounded(seconds), seconds)
  {
    var n := (seconds * 100.0 + 0.5).Floor;
    assert Rounded(seconds) * 100.0 == n as real;
  }

  /** The walk over a well-formed stream adds up its playing time. */
  lemma WellFormedTotal(tag: Tag, items: seq<Item>, tail: Bytes)
    requires tag.Valid() && ValidItems(items) && Filler(tail)
    requires tag.NoTag? ==> Start(EncodedItems(items, tail)) == 0
    ensures var frames := Frames(tag.Encoded() + EncodedItems(items, tail));
            AllUsable(frames) && |frames| == |items| && Total(frames) == PlayingTime(items)
  {
    WellFormedIsExact(tag, items, tail);
    TotalIsPlayingTime(items);
    OnePerItem(items);
  }

  lemma {:induction false} OnePerItem(items: seq<Item>)
    ensures |HeadersOf(items)| == |items|
  {
    if items != [] {
      OnePerItem(items[1..]);
    }
  }

  /** The length of a well-formed stream is the playing time of its frames, to the nearest hundredth of a second. */
  method WellFormedDuration(tag: Tag, ghost items: seq<Item>, tail: Bytes, stream: Bytes) returns (duration: real)
    requires tag.Valid() && ValidItems(items) && Filler(tail)
    requires tag.NoTag? ==> Start(EncodedItems(items, tail)) == 0
    requires stream == tag.Encoded() + EncodedItems(items, tail)
    ensures items == [] ==> duration == 0.0
    ensures IsNearest(duration, PlayingTime(items))
  {
    ghost var frames := Frames(stream);
    WellFormedTotal(tag, items, tail);
    var seconds;
    duration, seconds := DurationSec(stream);
    RoundedTotal(frames, seconds);
  }

  lemma RoundedTotal(frames: seq<Header>, seconds: real)
    requires AllUsable(frames) && seconds == Total(frames)
    ensures IsNearest(if frames == [] then 0.0 else Rounded(seconds), seconds)
  {
    RoundedIsNearest(seconds);
  }
}
