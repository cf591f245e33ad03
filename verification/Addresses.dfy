/**
 IPv6 literals (RFC 4291 section 2.2) read by two independent decoders, and target addresses encoded for SOCKS5
 (RFC 1928 section 5). The gateway's decoder splits at the colons and reads whatever is between them as one
 hexadecimal group. The API's takes a zone off first and replaces a dotted quad at the end by two groups. A
 `Spelling` is any legal text with the address it denotes; the theorems say which spellings each decoder reads
 right.
 */
module Addresses {
  import opened Common
  import opened Text

  type Hextet = n: nat | n < 0x10000

  // ── The decoders ─────────────────────────────────────────────────────────

  /** Where the first "::" starts, or the length of the text. */
  function FindDouble(s: string): (i: nat)
    ensures i <= |s|
    ensures i < |s| ==> i + 1 < |s|
  {
    if |s| < 2 then |s|
    else if s[0] == ':' && s[1] == ':' then 0
    else 1 + FindDouble(s[1..])
  }

  /** `split('::')`. */
  function SplitDouble(s: string): (r: seq<string>)
    ensures r != []
    decreases |s|
  {
    var i := FindDouble(s);
    if i == |s| then [s] else [s[..i]] + SplitDouble(s[i + 2..])
  }

  function NonEmpty(parts: seq<string>): seq<string> {
    if parts == [] then []
    else (if parts[0] == "" then [] else [parts[0]]) + NonEmpty(parts[1..])
  }

  function Zeros(n: nat): seq<string> {
    seq(n, _ => "0")
  }

  /** `parseInt(g, 16) || 0`. */
  function GroupNumber(g: string): nat {
    match ParseHex(g)
    case None => 0
    case Some(n) => n
  }

  /** The numbers of all groups, each of which has to fit two bytes to be written. */
  function WriteGroups(groups: seq<string>): Option<seq<Hextet>> {
    if groups == [] then Some([])
    else
      var n := GroupNumber(groups[0]);
      var rest := WriteGroups(groups[1..]);
      if n >= 0x10000 || rest.None? then None
      else
        var first: Hextet := n;
        Some([first] + rest.value)
  }

  /** The groups of one half, empty ones dropped. */
  function HalfGroups(half: string): seq<string> {
    if half == "" then [] else NonEmpty(Split(half, ':'))
  }

  /** The gateway's decoder; no result where the source throws. */
  function Ipv6ToBuffer(addr: string): Option<Bytes> {
    var halves := SplitDouble(addr);
    var h := HalfGroups(halves[0]);
    var t := if |halves| == 1 then [] else HalfGroups(halves[1]);
    if |h| + |t| > 8 then None else Written(h + Zeros(8 - |h| - |t|) + t)
  }

  function Written(groups: seq<string>): Option<Bytes>
    requires |groups| >= 8
  {
    match WriteGroups(groups[..8])
    case None => None
    case Some(hextets) => Some(BigEndian(hextets))
  }

  function BigEndian(hextets: seq<Hextet>): (r: Bytes)
    ensures |r| == 2 * |hextets|
  {
    if hextets == [] then [] else [hextets[0] / 256, hextets[0] % 256] + BigEndian(hextets[1..])
  }

  function ReadGroups(groups: seq<string>): Option<seq<Hextet>> {
    if groups == [] then Some([])
    else
      var n := ParseHex(groups[0]);
      var rest := ReadGroups(groups[1..]);
      if n.None? || n.value >= 0x10000 || rest.None? then None
      else
        var first: Hextet := n.value;
        Some([first] + rest.value)
  }

  /** `ipv4ToParts`: four numbers of one to three digits, none over 255. */
  predicate IsQuad(s: string) {
    var parts := Split(s, '.');
    |parts| == 4 && forall p :: p in parts ==> |p| <= 3 && AllDigits(p)
  }

  function Ipv4ToParts(ip: string): (r: Option<Bytes>)
    ensures r.Some? ==> |r.value| == 4
  {
    if !IsQuad(ip) then None
    else
      var parts := Split(ip, '.');
      var numbers := seq(4, k requires 0 <= k < 4 => assert parts[k] in parts; Decimal(parts[k]));
      if forall k :: 0 <= k < 4 ==> numbers[k] < 256 then Some(seq(4, k requires 0 <= k < 4 => numbers[k] as byte))
      else None
  }

  /** Where the leftmost match of a dotted quad up to the end of the text starts, or the text's length. */
  function QuadStart(s: string): (i: nat)
    ensures i <= |s|
    ensures i < |s| ==> IsQuad(s[i..])
  {
    if s == "" || IsQuad(s) then 0 else 1 + QuadStart(s[1..])
  }

  /** `n.toString(16)`. */
  function HexText(n: nat): string {
    var last := n % 16;
    var digit := if last < 10 then '0' + last as char else 'a' + (last - 10) as char;
    if n < 16 then [digit] else HexText(n / 16) + [digit]
  }

  function Pair(high: byte, low: byte): Hextet {
    high as int * 256 + low as int
  }

  /** Two octets as the text of one group. */
  function QuadGroup(high: byte, low: byte): string {
    HexText(Pair(high, low))
  }

  function QuadGroups(octets: Bytes): seq<string>
    requires |octets| == 4
  {
    [QuadGroup(octets[0], octets[1]), QuadGroup(octets[2], octets[3])]
  }

  /** A dotted quad at the end becomes two groups; no result where a number of it is over 255. */
  function QuadReplaced(s: string): Option<string> {
    var i := QuadStart(s);
    if i == |s| then Some(s)
    else
      match Ipv4ToParts(s[i..])
      case None => None
      case Some(v) => Some(s[..i] + Join(QuadGroups(v), ':'))
  }

  /** The API's decoder. */
  function Ipv6ToHextets(ip: string): Option<seq<Hextet>> {
    match QuadReplaced(LowerAll(Split(ip, '%')[0]))
    case None => None
    case Some(s) => HextetsOf(s)
  }

  function HextetsOf(s: string): Option<seq<Hextet>> {
    var halves := SplitDouble(s);
    if |halves| > 2 then None
    else
      Filled(Pieces(halves[0]), if |halves| == 2 then Pieces(halves[1]) else [], |halves| == 2)
  }

  function Pieces(half: string): seq<string> {
    if half == "" then [] else Split(half, ':')
  }

  function Filled(head: seq<string>, rest: seq<string>, compressed: bool): Option<seq<Hextet>> {
    if compressed && |head| + |rest| > 8 then None
    else if !compressed && |head| != 8 then None
    else
      var groups := head + Zeros(if compressed then 8 - |head| - |rest| else 0) + rest;
      if |groups| == 8 then ReadGroups(groups) else None
  }

  // ── Legal texts and what they denote ─────────────────────────────────────

  /** One to four hexadecimal digits, either case, leading zeros allowed. */
  predicate GroupText(g: string) {
    1 <= |g| <= 4 && forall c :: c in g ==> IsHex(c)
  }

  predicate Groups(gs: seq<string>) {
    forall g :: g in gs ==> GroupText(g)
  }

  function Values(gs: seq<string>): (r: seq<Hextet>)
    requires Groups(gs)
    ensures |r| == |gs|
  {
    if gs == [] then []
    else
      assert GroupText(gs[0]);
      HexBound(gs[0]);
      [Hex(gs[0])] + Values(gs[1..])
  }

  function Octets(octets: Bytes): seq<string> {
    if octets == [] then [] else [DecimalText(octets[0])] + Octets(octets[1..])
  }

  /** The address as the groups before and after its compression. */
  function Before(l: Literal): seq<string> {
    if l.Full? then l.gs else l.h
  }

  function After(l: Literal): seq<string> {
    if l.Full? then [] else l.t
  }

  /** An address written in full, or with one run of zero groups compressed. */
  datatype Literal = Full(gs: seq<string>) | Short(h: seq<string>, t: seq<string>) {
    predicate Legal() {
      match this
      case Full(gs) => |gs| == 8 && Groups(gs)
      case Short(h, t) => |h| + |t| <= 7 && Groups(h) && Groups(t)
    }

    function Spelled(): string {
      match this
      case Full(gs) => Join(gs, ':')
      case Short(h, t) => Join(h, ':') + "::" + Join(t, ':')
    }

    function Denotes(): (r: seq<Hextet>)
      requires Legal()
      ensures |r| == 8
    {
      match this
      case Full(gs) => Values(gs)
      case Short(h, t) => Values(h) + seq(8 - |h| - |t|, _ => 0) + Values(t)
    }

    /** More groups at the end. */
    function Append(more: seq<string>): Literal {
      match this
      case Full(gs) => Full(gs + more)
      case Short(h, t) => Short(h, t + more)
    }
  }

  /** The last two groups as a dotted quad gives them. */
  function LastTwo(octets: Bytes): seq<Hextet>
    requires |octets| == 4
  {
    [Pair(octets[0], octets[1]), Pair(octets[2], octets[3])]
  }

  /**
   Every form of section 2.2 of RFC 4291, with a zone (RFC 4007 section 11) or without: groups, of which a
   dotted quad may replace the last two.
   */
  datatype Spelling = Spelling(groups: Literal, quad: Option<Bytes>, zone: Option<string>) {
    predicate Legal() {
      && (zone.Some? ==> ':' !in zone.value)
      && match quad
         case None => groups.Legal()
         case Some(octets) =>
           && |octets| == 4
           && Groups(Before(groups)) && Groups(After(groups))
           && if groups.Full? then |groups.gs| == 6 else |groups.h| + |groups.t| <= 5
    }

    /** The pieces between the colons; a dotted quad is one of them. */
    function Address(): Literal {
      if quad.None? then groups else groups.Append([Join(Octets(quad.value), '.')])
    }

    function Text(): string {
      Address().Spelled() + (if zone.None? then "" else "%" + zone.value)
    }

    function Denotes(): (r: seq<Hextet>)
      requires Legal()
      ensures |r| == 8
    {
      if quad.None? then groups.Denotes()
      else
        Values(Before(groups)) + seq(6 - |Before(groups)| - |After(groups)|, _ => 0) + Values(After(groups)) + LastTwo(quad.value)
    }
  }

  // ── Finding the compression ──────────────────────────────────────────────

  predicate NoDouble(s: string) {
    forall i :: 0 <= i < |s| - 1 ==> s[i] != ':' || s[i + 1] != ':'
  }

  /** Pieces that colons separate. */
  predicate Clean(gs: seq<string>) {
    forall k :: 0 <= k < |gs| ==> gs[k] != "" && ':' !in gs[k]
  }

  lemma {:induction false} JoinIsClean(gs: seq<string>)
    requires Clean(gs)
    ensures NoDouble(Join(gs, ':'))
    ensures gs != [] ==> Join(gs, ':') != "" && Join(gs, ':')[0] != ':' && Join(gs, ':')[|Join(gs, ':')| - 1] != ':'
  {
    if gs != [] {
      var g := gs[0];
      assert g in gs && g[0] in g && g[|g| - 1] in g;
      assert forall i :: 0 <= i < |g| ==> g[i] in g;
      if |gs| > 1 {
        assert gs[1] in gs[1..];
        JoinIsClean(gs[1..]);
        assert Join(gs, ':') == g + ":" + Join(gs[1..], ':');
      }
    }
  }

  /** The characters of a joined text are those of its pieces, and the separator. */
  lemma {:induction false} JoinAlphabet(gs: seq<string>, sep: char, c: char)
    requires c != sep && forall g :: g in gs ==> c !in g
    ensures c !in Join(gs, sep)
  {
    if |gs| > 1 {
      JoinAlphabet(gs[1..], sep, c);
    }
  }

  lemma {:induction false} DoubleFound(a: string, b: string)
    requires NoDouble(a) && (a != "" ==> a[|a| - 1] != ':')
    ensures FindDouble(a + "::" + b) == |a|
    ensures FindDouble(a) == |a|
  {
    var s := a + "::" + b;
    if a == "" {
      assert s[0] == ':' && s[1] == ':';
    } else {
      assert s[1..] == a[1..] + "::" + b;
      DoubleFound(a[1..], b);
      if |a| == 1 {
        assert s[0] == a[0];
      } else {
        assert s[0] == a[0] && s[1] == a[1];
      }
    }
  }

  lemma SplitShort(h: seq<string>, t: seq<string>)
    requires Clean(h) && Clean(t)
    ensures SplitDouble(Join(h, ':') + "::" + Join(t, ':')) == [Join(h, ':'), Join(t, ':')]
    ensures SplitDouble(Join(h, ':')) == [Join(h, ':')]
  {
    var a, b := Join(h, ':'), Join(t, ':');
    JoinIsClean(h);
    JoinIsClean(t);
    DoubleFound(a, b);
    DoubleFound(b, "");
    var s := a + "::" + b;
    assert s[..|a|] == a && s[|a| + 2..] == b;
  }

  lemma {:induction false} NonEmptyPieces(gs: seq<string>)
    requires Clean(gs)
    ensures NonEmpty(gs) == gs
  {
    if gs != [] {
      assert gs[0] in gs;
      NonEmptyPieces(gs[1..]);
    }
  }

  lemma SplitPieces(gs: seq<string>)
    requires Clean(gs)
    ensures HalfGroups(Join(gs, ':')) == gs
    ensures Pieces(Join(gs, ':')) == gs
  {
    NonEmptyPieces(gs);
    JoinIsClean(gs);
    if gs != [] {
      SplitJoin(gs, ':');
    }
  }

  /** What `split('::')` makes of a literal. */
  function Halves(l: Literal): (r: seq<string>)
    ensures 1 <= |r| <= 2
  {
    if l.Full? then [Join(l.gs, ':')] else [Join(l.h, ':'), Join(l.t, ':')]
  }

  lemma {:induction false} SplitLiteral(l: Literal)
    requires Clean(Before(l)) && Clean(After(l))
    ensures SplitDouble(l.Spelled()) == Halves(l)
    ensures HalfGroups(Halves(l)[0]) == Before(l) && Pieces(Halves(l)[0]) == Before(l)
    ensures |Halves(l)| == 2 ==> HalfGroups(Halves(l)[1]) == After(l) && Pieces(Halves(l)[1]) == After(l)
  {
    if l.Full? {
      SplitShort(l.gs, []);
      SplitPieces(l.gs);
    } else {
      SplitShort(l.h, l.t);
      SplitPieces(l.h);
      SplitPieces(l.t);
    }
  }

  // ── Reading the groups ───────────────────────────────────────────────────

  lemma ParseGroup(g: string)
    requires GroupText(g)
    ensures ParseHex(g) == Some(Hex(g)) && Hex(g) < 0x10000
  {
    HexPrefixOfHex(g);
    HexBound(g);
  }

  lemma {:induction false} ReadValues(gs: seq<string>)
    requires Groups(gs)
    ensures WriteGroups(gs) == Some(Values(gs))
    ensures ReadGroups(gs) == Some(Values(gs))
  {
    if gs != [] {
      ParseGroup(gs[0]);
      ReadValues(gs[1..]);
    }
  }

  lemma {:induction false} ValuesConcat(a: seq<string>, b: seq<string>)
    requires Groups(a) && Groups(b)
    ensures Groups(a + b) && Values(a + b) == Values(a) + Values(b)
  {
    if a == [] {
      assert a + b == b;
    } else {
      assert (a + b)[1..] == a[1..] + b;
      ValuesConcat(a[1..], b);
    }
  }

  lemma {:induction false} ValuesOfZeros(n: nat)
    ensures Groups(Zeros(n)) && Values(Zeros(n)) == seq(n, _ => 0)
  {
    if n > 0 {
      assert Zeros(n)[1..] == Zeros(n - 1);
      ValuesOfZeros(n - 1);
      assert Hex("0") == 0 by {
        assert "0"[..0] == "";
      }
    }
  }

  function LowerGroups(gs: seq<string>): (r: seq<string>)
    ensures |r| == |gs|
  {
    if gs == [] then [] else [LowerAll(gs[0])] + LowerGroups(gs[1..])
  }

  lemma LowerConcat(a: string, b: string)
    ensures LowerAll(a + b) == LowerAll(a) + LowerAll(b)
  {
  }

  lemma {:induction false} LowerJoin(gs: seq<string>)
    ensures LowerAll(Join(gs, ':')) == Join(LowerGroups(gs), ':')
  {
    if |gs| > 1 {
      LowerJoin(gs[1..]);
      assert LowerGroups(gs)[1..] == LowerGroups(gs[1..]);
      LowerConcat(gs[0], ":");
      LowerConcat(gs[0] + ":", Join(gs[1..], ':'));
    }
  }

  lemma {:induction false} LowerValues(gs: seq<string>)
    requires Groups(gs)
    ensures Groups(LowerGroups(gs)) && Values(LowerGroups(gs)) == Values(gs)
  {
    if gs != [] {
      assert GroupText(gs[0]);
      HexIgnoresCase(gs[0]);
      LowerValues(gs[1..]);
      assert LowerGroups(gs)[1..] == LowerGroups(gs[1..]);
    }
  }

  // ── The gateway's decoder ────────────────────────────────────────────────

  lemma GroupsAreClean(gs: seq<string>)
    requires Groups(gs)
    ensures Clean(gs)
  {
    forall k | 0 <= k < |gs| ensures gs[k] != "" && ':' !in gs[k] {
      assert GroupText(gs[k]);
    }
  }

  lemma {:induction false} WriteConcat(a: seq<string>, b: seq<string>)
    requires WriteGroups(a).Some? && WriteGroups(b).Some?
    ensures WriteGroups(a + b) == Some(WriteGroups(a).value + WriteGroups(b).value)
  {
    var v := WriteGroups(b).value;
    if a == [] {
      assert a + b == b;
      assert WriteGroups(a).value + v == v;
    } else {
      assert (a + b)[1..] == a[1..] + b;
      WriteConcat(a[1..], b);
      var first: Hextet := GroupNumber(a[0]);
      Assoc([first], WriteGroups(a[1..]).value, v);
    }
  }

  lemma WriteOne(g: string)
    requires GroupNumber(g) < 0x10000
    ensures var n: Hextet := GroupNumber(g); WriteGroups([g]) == Some([n])
  {
    var n: Hextet := GroupNumber(g);
    assert WriteGroups([g][1..]) == Some([]);
    var none: seq<Hextet> := [];
    assert [n] + none == [n];
  }

  lemma BufferFromHalves(addr: string, halves: seq<string>, h: seq<string>, t: seq<string>)
    requires SplitDouble(addr) == halves && HalfGroups(halves[0]) == h && |h| + |t| <= 8
    requires if |halves| == 1 then t == [] else HalfGroups(halves[1]) == t
    ensures Ipv6ToBuffer(addr) == Written(h + Zeros(8 - |h| - |t|) + t)
  {
  }

  /** Zeros fill the gap. */
  function Padded(h: seq<Hextet>, t: seq<Hextet>): (r: seq<Hextet>)
    requires |h| + |t| <= 8
    ensures |r| == 8
  {
    h + seq(8 - |h| - |t|, _ => 0) + t
  }

  /** Pieces between colons, and the number that the decoder makes of each. */
  predicate AreNumbers(pieces: seq<string>, numbers: seq<Hextet>) {
    Clean(pieces) && |numbers| == |pieces| && WriteGroups(pieces) == Some(numbers)
  }

  /** Whatever the pieces look like, the decoder writes their numbers with zeros in the gap. */
  lemma GatewayWrites(l: Literal, vh: seq<Hextet>, vt: seq<Hextet>)
    requires AreNumbers(Before(l), vh) && AreNumbers(After(l), vt) && |Before(l)| + |After(l)| <= 8
    ensures Ipv6ToBuffer(l.Spelled()) == Some(BigEndian(Padded(vh, vt)))
  {
    var h, t := Before(l), After(l);
    var zeros := Zeros(8 - |h| - |t|);
    SplitLiteral(l);
    BufferFromHalves(l.Spelled(), Halves(l), h, t);
    ValuesOfZeros(|zeros|);
    ReadValues(zeros);
    WriteConcat(h, zeros);
    WriteConcat(h + zeros, t);
    assert (h + zeros + t)[..8] == h + zeros + t;
  }

  /** Reading stops at the first character that is no hexadecimal digit. */
  lemma {:induction false} HexPrefixStops(a: string, b: string)
    requires b != "" && !IsHex(b[0])
    ensures HexPrefix(a + b) == HexPrefix(a)
  {
    if a == "" {
      assert a + b == b;
    } else {
      assert (a + b)[1..] == a[1..] + b;
      HexPrefixStops(a[1..], b);
    }
  }

  /** What the gateway makes of an octet in front of a dot: its decimal digits, read as hexadecimal ones. */
  function Misread(octet: byte): (x: Hextet) {
    assert forall c :: c in DecimalText(octet) ==> IsHex(c);
    OctetText(octet);
    HexBound(DecimalText(octet));
    Hex(DecimalText(octet))
  }

  lemma OctetText(octet: byte)
    ensures |DecimalText(octet)| <= if octet < 100 then 2 else 3
  {
  }

  lemma MisreadIsSmall(octet: byte)
    ensures octet > 0 ==> Misread(octet) < 256 * octet
    ensures octet == 0 ==> Misread(octet) == 0
  {
    OctetText(octet);
    HexBound(DecimalText(octet));
    if octet == 0 {
      assert DecimalText(0) == "0" && "0"[..0] == "";
    }
  }

  lemma QuadPiece(octets: Bytes)
    requires |octets| == 4
    ensures var q := Join(Octets(octets), '.');
            q != "" && ':' !in q && '%' !in q && ParseHex(q) == Some(Misread(octets[0]) as nat)
  {
    var parts := Octets(octets);
    OctetsReadBack(octets);
    forall p | p in parts ensures ':' !in p && '%' !in p {
      OctetsAreDigits(octets, p);
    }
    JoinAlphabet(parts, '.', ':');
    JoinAlphabet(parts, '.', '%');
    var first, rest := DecimalText(octets[0]), "." + Join(parts[1..], '.');
    assert Join(parts, '.') == first + rest;
    HexPrefixStops(first, rest);
    HexPrefixOfHex(first);
  }

  lemma {:induction false} OctetsAreDigits(octets: Bytes, p: string)
    requires p in Octets(octets)
    ensures AllDigits(p) && |p| <= 3
  {
    OctetText(octets[0]);
    if p != DecimalText(octets[0]) {
      OctetsAreDigits(octets[1..], p);
    }
  }

  /** A zone sticks to the last piece of the text. */
  function Stuck(pieces: seq<string>, zone: string): seq<string> {
    if pieces == [] then [zone] else pieces[..|pieces| - 1] + [pieces[|pieces| - 1] + zone]
  }

  lemma {:induction false} JoinStuck(pieces: seq<string>, zone: string)
    ensures Join(Stuck(pieces, zone), ':') == Join(pieces, ':') + zone
  {
    if |pieces| > 1 {
      JoinStuck(pieces[1..], zone);
      assert Stuck(pieces, zone)[1..] == Stuck(pieces[1..], zone);
    }
  }

  lemma WriteStuck(pieces: seq<string>, zone: string)
    requires Clean(pieces) && zone != "" && !IsHex(zone[0]) && ':' !in zone
    ensures Clean(Stuck(pieces, zone))
    ensures WriteGroups(Stuck(pieces, zone)) == if pieces == [] then Some([0]) else WriteGroups(pieces)
  {
    if pieces == [] {
      WriteOne(zone);
    } else {
      var n := |pieces| - 1;
      var init, last := pieces[..n], pieces[n];
      assert last in pieces;
      assert pieces == init + [last];
      HexPrefixStops(last, zone);
      SameNumber(init, last, last + zone);
    }
  }

  /** The last piece matters through its number alone. */
  lemma {:induction false} SameNumber(init: seq<string>, x: string, y: string)
    requires GroupNumber(x) == GroupNumber(y)
    ensures WriteGroups(init + [x]) == WriteGroups(init + [y])
  {
    if init == [] {
      assert init + [x] == [x] && init + [y] == [y];
      assert [x][1..] == [y][1..];
    } else {
      assert (init + [x])[1..] == init[1..] + [x] && (init + [y])[1..] == init[1..] + [y];
      SameNumber(init[1..], x, y);
    }
  }

  /** What the gateway sees in front of the compression, and after it: a dotted quad is one group. */
  function SeenHead(a: Spelling): seq<Hextet>
    requires a.Legal()
  {
    Values(Before(a.groups)) + if a.groups.Full? then SeenQuad(a) else []
  }

  function SeenTail(a: Spelling): seq<Hextet>
    requires a.Legal()
  {
    if a.groups.Full? then [] else Values(a.groups.t) + SeenQuad(a)
  }

  function SeenQuad(a: Spelling): seq<Hextet>
    requires a.Legal()
  {
    if a.quad.None? then [] else [Misread(a.quad.value[0])]
  }

  /** All eight groups; a text written in full with a dotted quad is one group short. */
  function Seen(a: Spelling): (r: seq<Hextet>)
    requires a.Legal()
    ensures |r| == 8
  {
    Padded(SeenHead(a), SeenTail(a))
  }

  lemma WriteWithQuad(gs: seq<string>, octets: Bytes)
    requires Groups(gs) && |octets| == 4
    ensures var q := Join(Octets(octets), '.');
            Clean(gs + [q]) && WriteGroups(gs + [q]) == Some(Values(gs) + [Misread(octets[0])])
  {
    var q := Join(Octets(octets), '.');
    QuadPiece(octets);
    ReadValues(gs);
    GroupsAreClean(gs);
    WriteOne(q);
    WriteConcat(gs, [q]);
  }

  lemma HeadNumbers(a: Spelling)
    requires a.Legal()
    ensures AreNumbers(Before(a.Address()), SeenHead(a))
  {
    var h := Before(a.groups);
    ReadValues(h);
    GroupsAreClean(h);
    if a.quad.Some? && a.groups.Full? {
      WriteWithQuad(h, a.quad.value);
    } else {
      assert SeenHead(a) == Values(h);
    }
  }

  lemma TailNumbers(a: Spelling)
    requires a.Legal()
    ensures AreNumbers(After(a.Address()), SeenTail(a))
  {
    var t := After(a.groups);
    ReadValues(t);
    GroupsAreClean(t);
    if a.quad.Some? && a.groups.Short? {
      WriteWithQuad(t, a.quad.value);
    } else {
      assert SeenTail(a) == Values(t);
    }
  }

  lemma ZoneAfterFull(gs: seq<string>, vs: seq<Hextet>, zone: string)
    requires AreNumbers(gs, vs) && 0 < |gs| <= 8
    requires zone != "" && !IsHex(zone[0]) && ':' !in zone
    ensures Ipv6ToBuffer(Full(gs).Spelled() + zone) == Some(BigEndian(Padded(vs, [])))
  {
    JoinStuck(gs, zone);
    WriteStuck(gs, zone);
    GatewayWrites(Full(Stuck(gs, zone)), vs, []);
  }

  /** The zone sticks to the last piece, or becomes a piece that counts as zero, like the one it displaces. */
  lemma NumbersStuck(t: seq<string>, vt: seq<Hextet>, zone: string)
    requires AreNumbers(t, vt)
    requires zone != "" && !IsHex(zone[0]) && ':' !in zone
    ensures AreNumbers(Stuck(t, zone), if t == [] then [0] else vt)
  {
    WriteStuck(t, zone);
  }

  lemma PaddedZero(h: seq<Hextet>)
    requires |h| <= 7
    ensures Padded(h, [0]) == Padded(h, [])
  {
  }

  lemma ZoneAfterShort(h: seq<string>, t: seq<string>, vh: seq<Hextet>, vt: seq<Hextet>, zone: string)
    requires AreNumbers(h, vh) && AreNumbers(t, vt) && |h| + |t| <= 7
    requires zone != "" && !IsHex(zone[0]) && ':' !in zone
    ensures Ipv6ToBuffer(Short(h, t).Spelled() + zone) == Some(BigEndian(Padded(vh, vt)))
  {
    JoinStuck(t, zone);
    NumbersStuck(t, vt, zone);
    Assoc(Join(h, ':') + "::", Join(t, ':'), zone);
    GatewayWrites(Short(h, Stuck(t, zone)), vh, if t == [] then [0] else vt);
    if t == [] {
      PaddedZero(vh);
    }
  }

  lemma {:induction false} GatewayReads(a: Spelling)
    requires a.Legal()
    ensures Ipv6ToBuffer(a.Text()) == Some(BigEndian(Seen(a)))
  {
    HeadNumbers(a);
    TailNumbers(a);
    ReadsAddress(a.Address(), SeenHead(a), SeenTail(a), a.zone);
  }

  lemma ReadsAddress(l: Literal, vh: seq<Hextet>, vt: seq<Hextet>, zone: Option<string>)
    requires AreNumbers(Before(l), vh) && AreNumbers(After(l), vt)
    requires if l.Full? then 0 < |l.gs| <= 8 else |l.h| + |l.t| <= 7
    requires zone.Some? ==> ':' !in zone.value
    ensures Ipv6ToBuffer(l.Spelled() + if zone.None? then "" else "%" + zone.value) == Some(BigEndian(Padded(vh, vt)))
  {
    if zone.None? {
      assert l.Spelled() + "" == l.Spelled();
      GatewayWrites(l, vh, vt);
    } else if l.Full? {
      ZoneAfterFull(l.gs, vh, "%" + zone.value);
    } else {
      ZoneAfterShort(l.h, l.t, vh, vt, "%" + zone.value);
    }
  }

  predicate AllZero(values: seq<Hextet>) {
    forall k :: 0 <= k < |values| ==> values[k] == 0
  }

  /** A dotted quad is read right only where it and everything between it and a compression are zeros. */
  predicate Readable(a: Spelling)
    requires a.Legal()
  {
    a.quad.None? || (a.quad.value == [0, 0, 0, 0] && AllZero(Values(After(a.groups))))
  }

  /** A list that looks the same one place further on repeats the zero in front of it. */
  lemma {:induction false} ZeroUpTo(values: seq<Hextet>, last: Hextet, n: nat)
    requires n <= |values| && [0] + values == values + [last]
    ensures forall k :: 0 <= k < n ==> values[k] == 0
  {
    if n > 0 {
      ZeroUpTo(values, last, n - 1);
      assert ([0] + values)[n - 1] == (values + [last])[n - 1] == values[n - 1];
    }
  }

  /** Moving a list by one place changes nothing exactly when it holds zeros alone. */
  lemma {:induction false} ShiftedZeros(values: seq<Hextet>, last: Hextet)
    ensures [0] + values == values + [last] <==> AllZero(values) && last == 0
  {
    var n := |values|;
    if [0] + values == values + [last] {
      ZeroUpTo(values, last, n);
      assert ([0] + values)[n] == (values + [last])[n] == last;
    }
    if AllZero(values) && last == 0 {
      forall k | 0 <= k <= n ensures ([0] + values)[k] == (values + [last])[k] {
        assert ([0] + values)[k] == if k == 0 then 0 else values[k - 1];
        assert (values + [last])[k] == if k < n then values[k] else last;
      }
    }
  }

  /** The difference between what is seen and what is meant, at the end of the address. */
  lemma QuadSeenIff(values: seq<Hextet>, octets: Bytes)
    requires |octets| == 4
    ensures var high: Hextet, low: Hextet := Pair(octets[0], octets[1]), Pair(octets[2], octets[3]);
            && ([0] + values + [Misread(octets[0])] == values + [high, low]
                <==> octets == [0, 0, 0, 0] && AllZero(values))
  {
    var high: Hextet, low: Hextet := Pair(octets[0], octets[1]), Pair(octets[2], octets[3]);
    var x := Misread(octets[0]);
    MisreadIsSmall(octets[0]);
    ShiftedZeros(values, high);
    var seen, meant := [0] + values + [x], values + [high, low];
    var n := |values| + 1;
    assert seen[..n] == [0] + values && seen[n] == x;
    assert meant[..n] == values + [high] && meant[n] == low;
    assert seen == seen[..n] + [x] && meant == meant[..n] + [low];
  }

  lemma CutFront(front: seq<Hextet>, a: seq<Hextet>, b: seq<Hextet>)
    ensures front + a == front + b <==> a == b
  {
    assert (front + a)[|front|..] == a && (front + b)[|front|..] == b;
  }

  lemma FullSeenIff(gs: seq<Hextet>, octets: Bytes)
    requires |gs| == 6 && |octets| == 4
    ensures Padded(gs + [Misread(octets[0])], []) == gs + LastTwo(octets) <==> octets == [0, 0, 0, 0]
  {
    var x := Misread(octets[0]);
    assert Padded(gs + [x], []) == gs + [x, 0];
    CutFront(gs, [x, 0], LastTwo(octets));
    MisreadIsSmall(octets[0]);
  }

  lemma ShortSeenIff(h: seq<Hextet>, t: seq<Hextet>, octets: Bytes)
    requires |h| + |t| <= 5 && |octets| == 4
    ensures Padded(h, t + [Misread(octets[0])]) == h + seq(6 - |h| - |t|, _ => 0) + t + LastTwo(octets)
       <==> octets == [0, 0, 0, 0] && AllZero(t)
  {
    var x := Misread(octets[0]);
    var front := h + seq(6 - |h| - |t|, _ => 0);
    assert Padded(h, t + [x]) == front + ([0] + t + [x]);
    Assoc(front, t, LastTwo(octets));
    CutFront(front, [0] + t + [x], t + LastTwo(octets));
    QuadSeenIff(t, octets);
  }

  lemma SeenWithoutQuad(a: Spelling)
    requires a.Legal() && a.quad.None?
    ensures Seen(a) == a.Denotes()
  {
    var h, t := Values(Before(a.groups)), Values(After(a.groups));
    assert SeenHead(a) == h && SeenTail(a) == t;
  }

  lemma {:induction false} SeenIsDenotedIff(a: Spelling)
    requires a.Legal()
    ensures Seen(a) == a.Denotes() <==> Readable(a)
  {
    if a.quad.None? {
      SeenWithoutQuad(a);
    } else if a.groups.Full? {
      var h := Values(a.groups.gs);
      assert h + seq(6 - |h|, _ => 0) + [] == h;
      FullSeenIff(h, a.quad.value);
    } else {
      var h, t := Values(a.groups.h), Values(a.groups.t);
      assert SeenHead(a) == h;
      ShortSeenIff(h, t, a.quad.value);
    }
  }

  lemma {:induction false} BigEndianInjective(a: seq<Hextet>, b: seq<Hextet>)
    requires BigEndian(a) == BigEndian(b)
    ensures a == b
  {
    assert |a| == |b|;
    if a != [] {
      assert BigEndian(a)[0] == BigEndian(b)[0] && BigEndian(a)[1] == BigEndian(b)[1];
      assert BigEndian(a)[2..] == BigEndian(a[1..]) && BigEndian(b)[2..] == BigEndian(b[1..]);
      assert a[0] == a[0] / 256 * 256 + a[0] % 256 && b[0] == b[0] / 256 * 256 + b[0] % 256;
      BigEndianInjective(a[1..], b[1..]);
    }
  }

  /** The gateway encodes a spelling as the address it denotes exactly when it is readable. */
  lemma GatewayReadsIff(a: Spelling)
    requires a.Legal()
    ensures Ipv6ToBuffer(a.Text()) == Some(BigEndian(a.Denotes())) <==> Readable(a)
    ensures Seen(a) == a.Denotes() <==> Readable(a)
  {
    GatewayReads(a);
    SeenIsDenotedIff(a);
    if BigEndian(Seen(a)) == BigEndian(a.Denotes()) {
      BigEndianInjective(Seen(a), a.Denotes());
    }
  }

  // ── The API's decoder ────────────────────────────────────────────────────

  lemma DenotedGroups(h: seq<string>, t: seq<string>)
    requires |h| + |t| <= 8 && Groups(h) && Groups(t)
    ensures var gs := h + Zeros(8 - |h| - |t|) + t;
            && |gs| == 8 && Groups(gs)
            && Values(gs) == Values(h) + seq(8 - |h| - |t|, _ => 0) + Values(t)
  {
    var zeros := Zeros(8 - |h| - |t|);
    ValuesOfZeros(8 - |h| - |t|);
    ValuesConcat(h, zeros);
    ValuesConcat(h + zeros, t);
  }

  lemma {:induction false} FilledGroups(h: seq<string>, t: seq<string>, compressed: bool)
    requires |h| + |t| <= 8 && Groups(h) && Groups(t)
    requires !compressed ==> |h| == 8
    ensures Filled(h, t, compressed) == Some(Values(h) + seq(8 - |h| - |t|, _ => 0) + Values(t))
  {
    DenotedGroups(h, t);
    ReadValues(h + Zeros(8 - |h| - |t|) + t);
  }

  lemma HextetsFromHalves(s: string, halves: seq<string>, h: seq<string>, t: seq<string>)
    requires SplitDouble(s) == halves && |halves| <= 2 && Pieces(halves[0]) == h
    requires if |halves| == 1 then t == [] else Pieces(halves[1]) == t
    ensures HextetsOf(s) == Filled(h, t, |halves| == 2)
  {
  }

  /** Without a dotted quad, the decoder reads what the groups denote. */
  lemma HextetsOfGroups(l: Literal)
    requires l.Legal()
    ensures HextetsOf(l.Spelled()) == Some(l.Denotes())
  {
    var h, t := Before(l), After(l);
    GroupsAreClean(h);
    GroupsAreClean(t);
    SplitLiteral(l);
    HextetsFromHalves(l.Spelled(), Halves(l), h, t);
    FilledGroups(h, t, l.Short?);
    assert |Halves(l)| == 2 <==> l.Short?;
    assert l.Denotes() == Values(h) + seq(8 - |h| - |t|, _ => 0) + Values(t);
  }

  function LowerOf(l: Literal): Literal {
    match l
    case Full(gs) => Full(LowerGroups(gs))
    case Short(h, t) => Short(LowerGroups(h), LowerGroups(t))
  }

  /** The text in front of a dotted quad. */
  function Stem(l: Literal): string {
    match l
    case Full(gs) => StemOf(gs)
    case Short(h, t) => Join(h, ':') + "::" + StemOf(t)
  }

  function StemOf(gs: seq<string>): string {
    if gs == [] then "" else Join(gs, ':') + ":"
  }

  lemma {:induction false} JoinStem(gs: seq<string>, more: seq<string>)
    requires more != []
    ensures Join(gs + more, ':') == StemOf(gs) + Join(more, ':')
  {
    if gs == [] {
      assert gs + more == more;
    } else {
      JoinStem(gs[1..], more);
      assert (gs + more)[1..] == gs[1..] + more;
    }
  }

  lemma AppendSpelled(l: Literal, more: seq<string>)
    requires more != []
    ensures l.Append(more).Spelled() == Stem(l) + Join(more, ':')
  {
    JoinStem(if l.Full? then l.gs else l.t, more);
  }

  lemma LowerHalves(h: seq<string>, t: seq<string>)
    requires Groups(h) && Groups(t)
    ensures LowerAll(Join(h, ':') + "::" + Join(t, ':')) == Join(LowerGroups(h), ':') + "::" + Join(LowerGroups(t), ':')
  {
    LowerJoin(h);
    LowerJoin(t);
    LowerConcat(Join(h, ':'), "::");
    LowerConcat(Join(h, ':') + "::", Join(t, ':'));
  }

  lemma LowerStemOf(gs: seq<string>)
    requires Groups(gs)
    ensures LowerAll(StemOf(gs)) == StemOf(LowerGroups(gs))
  {
    LowerJoin(gs);
    LowerConcat(Join(gs, ':'), ":");
  }

  lemma LowerStem(l: Literal)
    requires Groups(Before(l)) && Groups(After(l))
    ensures LowerAll(Stem(l)) == Stem(LowerOf(l))
  {
    LowerStemOf(if l.Full? then l.gs else l.t);
    if l.Short? {
      LowerJoin(l.h);
      LowerConcat(Join(l.h, ':'), "::");
      LowerConcat(Join(l.h, ':') + "::", StemOf(l.t));
    }
  }

  lemma LowerLiteral(l: Literal)
    requires Groups(Before(l)) && Groups(After(l))
    ensures LowerAll(l.Spelled()) == LowerOf(l).Spelled()
    ensures Groups(Before(LowerOf(l))) && Values(Before(LowerOf(l))) == Values(Before(l))
    ensures Groups(After(LowerOf(l))) && Values(After(LowerOf(l))) == Values(After(l))
  {
    LowerJoin(Before(l));
    LowerJoin(After(l));
    LowerValues(Before(l));
    LowerValues(After(l));
    if l.Short? {
      LowerHalves(l.h, l.t);
    }
  }

  /** The characters of a text are in its pieces. */
  lemma {:induction false} InSomePiece(s: string, sep: char, c: char)
    requires c in s && c != sep
    ensures exists piece :: piece in Split(s, sep) && c in piece
  {
    var rest := Split(s[1..], sep);
    if s[0] == c {
      assert c in [s[0]] + rest[0];
    } else {
      InSomePiece(s[1..], sep, c);
      var piece :| piece in rest && c in piece;
      if piece == rest[0] {
        assert c in [s[0]] + rest[0];
      } else {
        assert piece in rest[1..];
      }
    }
  }

  lemma NoQuadWithColon(s: string)
    requires ':' in s
    ensures !IsQuad(s)
  {
    InSomePiece(s, '.', ':');
  }

  lemma {:induction false} QuadAfterStem(stem: string, quad: string)
    requires stem != "" ==> stem[|stem| - 1] == ':'
    requires quad != "" && IsQuad(quad)
    ensures QuadStart(stem + quad) == |stem|
  {
    if stem == "" {
      assert stem + quad == quad;
    } else {
      assert (stem + quad)[|stem| - 1] == ':';
      NoQuadWithColon(stem + quad);
      assert (stem + quad)[1..] == stem[1..] + quad;
      QuadAfterStem(stem[1..], quad);
    }
  }

  lemma {:induction false} NoDotNoQuad(s: string)
    requires '.' !in s
    ensures QuadStart(s) == |s|
  {
    if s != "" {
      SplitPiece(s, "", '.');
      NoDotNoQuad(s[1..]);
    }
  }

  lemma QuadReadsBack(octets: Bytes)
    requires |octets| == 4
    ensures var q := Join(Octets(octets), '.'); q != "" && IsQuad(q) && Ipv4ToParts(q) == Some(octets)
  {
    var parts := Octets(octets);
    OctetsReadBack(octets);
    SplitJoin(parts, '.');
    QuadPiece(octets);
    forall p | p in parts ensures |p| <= 3 && AllDigits(p) {
      OctetsAreDigits(octets, p);
    }
    PartsReadBack(Join(parts, '.'), octets);
  }

  lemma PartsReadBack(q: string, octets: Bytes)
    requires |octets| == 4 && Split(q, '.') == Octets(octets) && IsQuad(q)
    ensures Ipv4ToParts(q) == Some(octets)
  {
    forall k | 0 <= k < 4 ensures AllDigits(Octets(octets)[k]) && Decimal(Octets(octets)[k]) == octets[k] {
      OctetAt(octets, k);
    }
    assert Ipv4ToParts(q).Some?;
    assert Ipv4ToParts(q).value == octets;
  }

  lemma QuadIsLower(octets: Bytes)
    ensures LowerAll(Join(Octets(octets), '.')) == Join(Octets(octets), '.')
  {
    var parts := Octets(octets);
    var q := Join(parts, '.');
    forall i | 0 <= i < |q| ensures Lower(q[i]) == q[i] {
      if 'A' <= q[i] <= 'Z' {
        forall p | p in parts ensures q[i] !in p {
          OctetsAreDigits(octets, p);
        }
        JoinAlphabet(parts, '.', q[i]);
      }
    }
  }

  lemma {:induction false} OctetAt(octets: Bytes, k: nat)
    requires k < |octets|
    ensures |Octets(octets)| == |octets| && AllDigits(Octets(octets)[k]) && Decimal(Octets(octets)[k]) == octets[k]
  {
    OctetsReadBack(octets);
    DecimalReadsBack(octets[0]);
    if k > 0 {
      OctetAt(octets[1..], k - 1);
    }
  }

  lemma {:induction false} HexTextReadsBack(n: nat)
    ensures forall c :: c in HexText(n) ==> IsHex(c)
    ensures HexText(n) != "" && Hex(HexText(n)) == n
    ensures n < 0x10 ==> |HexText(n)| == 1
    ensures n < 0x100 ==> |HexText(n)| <= 2
    ensures n < 0x1000 ==> |HexText(n)| <= 3
    ensures n < 0x10000 ==> |HexText(n)| <= 4
  {
    var s := HexText(n);
    if n >= 16 {
      HexTextReadsBack(n / 16);
      assert s[..|s| - 1] == HexText(n / 16);
    } else {
      assert s[..0] == "";
    }
  }

  lemma QuadGroupsRead(octets: Bytes)
    requires |octets| == 4
    ensures var gs := QuadGroups(octets);
            && Groups(gs)
            && Values(gs) == [Pair(octets[0], octets[1]), Pair(octets[2], octets[3])]
  {
    var gs := QuadGroups(octets);
    HexTextReadsBack(Pair(octets[0], octets[1]));
    HexTextReadsBack(Pair(octets[2], octets[3]));
    assert Values(gs[1..][1..]) == [];
  }

  lemma MergedDenotes(a: Spelling)
    requires a.Legal() && a.quad.Some?
    ensures var m := LowerOf(a.groups).Append(QuadGroups(a.quad.value)); m.Legal() && m.Denotes() == a.Denotes()
  {
    var octets := a.quad.value;
    var m := LowerOf(a.groups);
    LowerLiteral(a.groups);
    QuadGroupsRead(octets);
    ValuesConcat(if m.Full? then m.gs else m.t, QuadGroups(octets));
  }

  lemma NoMark(a: Spelling, c: char)
    requires a.Legal() && c != ':' && !IsHex(c) && (c == '.' ==> a.quad.None?)
    ensures c !in a.Address().Spelled()
  {
    var l := a.Address();
    if a.quad.Some? {
      var parts := Octets(a.quad.value);
      forall p | p in parts ensures c !in p {
        OctetsAreDigits(a.quad.value, p);
      }
      JoinAlphabet(parts, '.', c);
    }
    JoinAlphabet(Before(l), ':', c);
    JoinAlphabet(After(l), ':', c);
  }

  lemma BeforeZone(a: Spelling)
    requires a.Legal()
    ensures Split(a.Text(), '%')[0] == a.Address().Spelled()
  {
    var s := a.Address().Spelled();
    NoMark(a, '%');
    SplitPiece(s, if a.zone.None? then "" else a.zone.value, '%');
    if a.zone.None? {
      assert a.Text() == s;
    } else {
      assert a.Text() == s + ['%'] + a.zone.value;
    }
  }

  lemma QuadReplacedBy(stem: string, quad: string, octets: Bytes)
    requires quad != "" && QuadStart(stem + quad) == |stem|
    requires |octets| == 4 && Ipv4ToParts(quad) == Some(octets)
    ensures QuadReplaced(stem + quad) == Some(stem + Join(QuadGroups(octets), ':'))
  {
    var s := stem + quad;
    assert s[|stem|..] == quad && s[..|stem|] == stem;
  }

  lemma ApiReadsQuad(a: Spelling)
    requires a.Legal() && a.quad.Some?
    ensures Ipv6ToHextets(a.Text()) == Some(a.Denotes())
  {
    var octets := a.quad.value;
    var stem, quad := Stem(LowerOf(a.groups)), Join(Octets(octets), '.');
    BeforeZone(a);
    QuadReadsBack(octets);
    QuadIsLower(octets);
    LowerStem(a.groups);
    AppendSpelled(a.groups, [quad]);
    LowerConcat(Stem(a.groups), quad);
    StemEnds(LowerOf(a.groups));
    QuadAfterStem(stem, quad);
    QuadReplacedBy(stem, quad, octets);
    var merged := LowerOf(a.groups).Append(QuadGroups(octets));
    AppendSpelled(LowerOf(a.groups), QuadGroups(octets));
    MergedDenotes(a);
    HextetsOfGroups(merged);
  }

  lemma StemEnds(l: Literal)
    ensures Stem(l) != "" ==> Stem(l)[|Stem(l)| - 1] == ':'
  {
  }

  /** The API's decoder reads every legal spelling as the address it denotes. */
  lemma {:induction false} ApiReads(a: Spelling)
    requires a.Legal()
    ensures Ipv6ToHextets(a.Text()) == Some(a.Denotes())
  {
    if a.quad.Some? {
      ApiReadsQuad(a);
    } else {
      BeforeZone(a);
      LowerLiteral(a.groups);
      NoMark(a, '.');
      NoDotNoQuad(LowerAll(a.groups.Spelled()));
      HextetsOfGroups(LowerOf(a.groups));
    }
  }

  // ── The decoders compared ────────────────────────────────────────────────

  /** The decoders agree on a spelling exactly when the gateway can read it. */
  lemma DecodersAgreeIff(a: Spelling)
    requires a.Legal()
    ensures Ipv6ToHextets(a.Text()).Some?
    ensures Ipv6ToBuffer(a.Text()) == Some(BigEndian(Ipv6ToHextets(a.Text()).value)) <==> Readable(a)
  {
    ApiReads(a);
    GatewayReadsIff(a);
  }

  /**
   Two spellings are the same address for the API exactly when they denote the same eight groups, and for
   the gateway exactly when it sees the same: of two readable ones, when they denote the same.
   */
  lemma {:induction false} SameAddress(a: Spelling, b: Spelling)
    requires a.Legal() && b.Legal()
    ensures Ipv6ToHextets(a.Text()) == Ipv6ToHextets(b.Text()) <==> a.Denotes() == b.Denotes()
    ensures Readable(a) && Readable(b)
        ==> (Ipv6ToBuffer(a.Text()) == Ipv6ToBuffer(b.Text()) <==> a.Denotes() == b.Denotes())
  {
    ApiReads(a);
    ApiReads(b);
    GatewayReadsIff(a);
    GatewayReadsIff(b);
    if BigEndian(a.Denotes()) == BigEndian(b.Denotes()) {
      BigEndianInjective(a.Denotes(), b.Denotes());
    }
  }

  const DOTTED_TAIL := Spelling(Short([], ["ffff"]), Some([1, 2, 3, 4]), None)

  /** "::ffff:1.2.3.4" is "::ffff:1" for the gateway. */
  lemma DottedTailIsMisread()
    ensures DOTTED_TAIL.Legal() && DOTTED_TAIL.Text() == "::ffff:1.2.3.4"
    ensures Ipv6ToHextets("::ffff:1.2.3.4") == Some([0, 0, 0, 0, 0, 0xffff, 0x0102, 0x0304])
    ensures Ipv6ToBuffer("::ffff:1.2.3.4") == Some(BigEndian([0, 0, 0, 0, 0, 0, 0xffff, 1]))
  {
    DottedTailSpelled();
    ApiReads(DOTTED_TAIL);
    GatewayReads(DOTTED_TAIL);
  }

  lemma DottedTailSpelled()
    ensures DOTTED_TAIL.Legal() && DOTTED_TAIL.Text() == "::ffff:1.2.3.4"
    ensures DOTTED_TAIL.Denotes() == [0, 0, 0, 0, 0, 0xffff, 0x0102, 0x0304]
    ensures Seen(DOTTED_TAIL) == [0, 0, 0, 0, 0, 0, 0xffff, 1]
  {
    ValuesOfFfff();
    OneTwoThreeFour();
    assert DOTTED_TAIL.Address() == Short([], ["ffff", "1.2.3.4"]);
    assert ["ffff", "1.2.3.4"][1..] == ["1.2.3.4"];
    assert Join(["ffff", "1.2.3.4"], ':') == "ffff:1.2.3.4";
  }

  lemma OneTwoThreeFour()
    ensures Join(Octets([1, 2, 3, 4]), '.') == "1.2.3.4" && Misread(1) == 1
  {
    assert DecimalText(1) == "1" && DecimalText(2) == "2" && DecimalText(3) == "3" && DecimalText(4) == "4";
    assert Octets([4]) == ["4"];
    assert Octets([3, 4]) == ["3", "4"];
    assert Octets([2, 3, 4]) == ["2", "3", "4"];
    assert Octets([1, 2, 3, 4]) == ["1", "2", "3", "4"];
    assert Join(["3", "4"], '.') == "3.4";
    assert Join(["2", "3", "4"], '.') == "2.3.4";
    assert "1"[..0] == "";
  }

  lemma ValuesOfFfff()
    ensures Groups(["ffff"]) && Values(["ffff"]) == [0xffff]
  {
    assert "ffff"[..3] == "fff" && "fff"[..2] == "ff" && "ff"[..1] == "f" && "f"[..0] == "";
    assert Hex("f") == 15;
    assert Hex("ff") == 255;
    assert Hex("fff") == 4095;
    assert Values(["ffff"][1..]) == [];
  }


  // ── SOCKS5 target addresses ──────────────────────────────────────────────

  /** A host text with its classification by the platform: IPv4, IPv6, or a name (as UTF-8 bytes). */
  datatype Host = V4(dotted: string) | V6(text: string) | Name(bytes: Bytes)

  type Port = n: nat | n < 0x10000

  /** `Buffer.from` keeps the low byte of each number. */
  function OctetsOf(parts: seq<string>): Option<Bytes> {
    if parts == [] then Some([])
    else if !AllDigits(parts[0]) then None
    else
      match OctetsOf(parts[1..])
      case None => None
      case Some(rest) => Some([Decimal(parts[0]) % 256] + rest)
  }

  function SocksAddress(host: Host, port: Port): Option<Bytes> {
    var portBytes: Bytes := [port / 256, port % 256];
    match host
    case V4(dotted) =>
      (match OctetsOf(Split(dotted, '.'))
       case None => None
       case Some(octets) => Some([1] + octets + portBytes))
    case V6(text) =>
      (match Ipv6ToBuffer(text)
       case None => None
       case Some(buf) => Some([4] + buf + portBytes))
    case Name(dom) => Some([3, |dom| % 256] + dom + portBytes)
  }

  datatype Target = Ipv4(octets: Bytes) | Ipv6(octets: Bytes) | Domain(name: Bytes)

  /** The server's reading of an address and port that fill `b` exactly. */
  function Decode(b: Bytes): Option<(Target, Port)> {
    if |b| < 2 then None
    else
      var start, len := if b[0] == 3 then 2 else 1,
                        if b[0] == 1 then 4 else if b[0] == 4 then 16 else if b[0] == 3 then b[1] as int else -1;
      if len < 0 || |b| != start + len + 2 then None
      else
        var body, port := b[start..start + len], b[start + len] as int * 256 + b[start + len + 1] as int;
        Some((if b[0] == 1 then Ipv4(body) else if b[0] == 4 then Ipv6(body) else Domain(body), port))
  }

  lemma {:induction false} OctetsReadBack(octets: Bytes)
    ensures |Octets(octets)| == |octets|
    ensures forall p :: p in Octets(octets) ==> '.' !in p
    ensures OctetsOf(Octets(octets)) == Some(octets)
  {
    if octets != [] {
      DecimalReadsBack(octets[0]);
      OctetsReadBack(octets[1..]);
      var parts := Octets(octets);
      assert parts[0] == DecimalText(octets[0]) && parts[1..] == Octets(octets[1..]);
      assert AllDigits(parts[0]) && Decimal(parts[0]) == octets[0];
      assert OctetsOf(parts) == Some([Decimal(parts[0]) % 256] + octets[1..]);
      assert octets == [octets[0]] + octets[1..];
    }
  }

  lemma {:induction false} Ipv4TargetReadsBack(octets: Bytes, port: Port)
    requires |octets| == 4
    ensures var b := SocksAddress(V4(Join(Octets(octets), '.')), port);
            b.Some? && Decode(b.value) == Some((Ipv4(octets), port))
  {
    OctetsReadBack(octets);
    var parts := Octets(octets);
    SplitJoin(parts, '.');
    DottedTarget(Join(parts, '.'), octets, port);
  }

  lemma DottedTarget(dotted: string, octets: Bytes, port: Port)
    requires |octets| == 4 && OctetsOf(Split(dotted, '.')) == Some(octets)
    ensures var b := SocksAddress(V4(dotted), port);
            b.Some? && Decode(b.value) == Some((Ipv4(octets), port))
  {
    var b := SocksAddress(V4(dotted), port).value;
    assert b[1..5] == octets;
    assert port == port / 256 * 256 + port % 256;
  }

  lemma BufferTarget(text: string, buf: Bytes, port: Port)
    requires |buf| == 16 && Ipv6ToBuffer(text) == Some(buf)
    ensures var b := SocksAddress(V6(text), port);
            b.Some? && Decode(b.value) == Some((Ipv6(buf), port))
  {
    var b := SocksAddress(V6(text), port).value;
    assert b[1..17] == buf;
    assert port == port / 256 * 256 + port % 256;
  }

  /** An IPv6 target arrives as the address it spells exactly when the gateway can read the spelling. */
  lemma {:induction false} Ipv6TargetReadsBack(a: Spelling, port: Port)
    requires a.Legal()
    ensures var b := SocksAddress(V6(a.Text()), port);
            && b.Some?
            && (Decode(b.value) == Some((Ipv6(BigEndian(a.Denotes())), port)) <==> Readable(a))
  {
    GatewayReads(a);
    GatewayReadsIff(a);
    BufferTarget(a.Text(), BigEndian(Seen(a)), port);
  }

  /** A name reaches the server intact exactly when its length fits the length byte. */
  lemma DomainTargetReadsBack(dom: Bytes, port: Port)
    ensures var b := SocksAddress(Name(dom), port);
            b.Some? && (Decode(b.value) == Some((Domain(dom), port)) <==> |dom| <= 255)
  {
    var b := SocksAddress(Name(dom), port).value;
    if |dom| <= 255 {
      assert b[2..2 + |dom|] == dom;
      assert port == port / 256 * 256 + port % 256;
    }
  }
}
