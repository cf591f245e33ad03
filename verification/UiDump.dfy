/**
 Screen dumps: the text the phone writes for a forest of widgets, and the reader that recovers the widgets
 with one regular expression over the tags, a stack for the nesting and a search for each attribute.

 Printing is the specification: the reader must find again what was printed, in order and with its parents.
 */
module UiDump {
  import opened Common
  import E = Entities

  // ── Reading ──────────────────────────────────────────────────────────────

  datatype Token = Open(tag: string, selfClosed: bool) | Close

  predicate WordChar(c: char) {
    'a' <= c <= 'z' || 'A' <= c <= 'Z' || '0' <= c <= '9' || c == '_'
  }

  /** Position of the first `c`, or the length of the text. */
  function IndexOf(s: string, c: char): (i: nat)
    ensures i <= |s| && (i < |s| ==> s[i] == c)
    ensures forall j :: 0 <= j < i ==> s[j] != c
  {
    if s == "" || s[0] == c then 0 else 1 + IndexOf(s[1..], c)
  }

  /** A node tag starts here: the name, a word boundary, and a closing bracket somewhere after it. */
  predicate OpensHere(s: string) {
    E.StartsWith(s, "<node") && |s| > 5 && !WordChar(s[5]) && IndexOf(s, '>') < |s|
  }

  /** The next match of the tag expression and where it ends. */
  function Next(s: string): (r: Option<(Token, nat)>)
    ensures r.Some? ==> 0 < r.value.1 <= |s|
  {
    if s == "" then None
    else if E.StartsWith(s, "</node>") then Some((Close, 7))
    else if OpensHere(s) then
      var end := IndexOf(s, '>');
      Some((Open(s[..end + 1], end > 0 && s[end - 1] == '/'), end + 1))
    else
      match Next(s[1..])
      case None => None
      case Some((t, end)) => Some((t, end + 1))
  }

  function Scan(s: string): seq<Token>
    decreases |s|
  {
    match Next(s)
    case None => []
    case Some((t, end)) => [t] + Scan(s[end..])
  }

  /** What JavaScript counts as white space. */
  predicate Blank(c: char) {
    || c in {' ', '\t', '\n', '\r', '\U{000B}', '\U{000C}', '\U{00A0}', '\U{1680}', '\U{2028}', '\U{2029}',
             '\U{202F}', '\U{205F}', '\U{3000}', '\U{FEFF}'}
    || '\U{2000}' <= c <= '\U{200A}'
  }

  /** A blank, the name, an equals sign and an opening quote start here, and the value is closed later. */
  predicate AttrHere(s: string, name: string) {
    && s != "" && Blank(s[0])
    && E.StartsWith(s[1..], name + "=\"")
    && '"' in s[|name| + 3..]
  }

  /** The raw value at the leftmost match of the attribute expression. */
  function RawAttr(s: string, name: string): Option<string> {
    if s == "" then None
    else if AttrHere(s, name) then
      var value := s[|name| + 3..];
      Some(value[..IndexOf(value, '"')])
    else RawAttr(s[1..], name)
  }

  function Attr(tag: string, name: string): string {
    match RawAttr(tag, name)
    case None => ""
    case Some(raw) => E.Decode(raw)
  }

  /** An element: its tag, from which its fields are read, and the position of its parent in the list. */
  datatype UiEl = UiEl(tag: string, parent: Option<nat>) {
    function Text(): string { Attr(tag, "text") }
    function Desc(): string { Attr(tag, "content-desc") }
    function ResId(): string { Attr(tag, "resource-id") }
    function Class(): string { Attr(tag, "class") }
    function Pkg(): string { Attr(tag, "package") }
    predicate Clickable() { Attr(tag, "clickable") == "true" }
    predicate Enabled() { Attr(tag, "enabled") != "false" }
    predicate Focused() { Attr(tag, "focused") == "true" }
  }

  function Top(stack: seq<nat>): Option<nat> {
    if stack == [] then None else Some(stack[|stack| - 1])
  }

  function Pop(stack: seq<nat>): seq<nat> {
    if stack == [] then [] else stack[..|stack| - 1]
  }

  function ParseTokens(tokens: seq<Token>, els: seq<UiEl>, stack: seq<nat>): (seq<UiEl>, seq<nat>)
    decreases |tokens|
  {
    if tokens == [] then (els, stack)
    else
      match tokens[0]
      case Close => ParseTokens(tokens[1..], els, Pop(stack))
      case Open(tag, selfClosed) =>
        ParseTokens(tokens[1..], els + [UiEl(tag, Top(stack))],
                    if selfClosed then stack else stack + [|els|])
  }

  function Parse(xml: string): (seq<UiEl>, seq<nat>) {
    ParseTokens(Scan(xml), [], [])
  }

  method ParseUi(xml: string) returns (els: seq<UiEl>, stack: seq<nat>)
    ensures (els, stack) == Parse(xml)
  {
    els, stack := [], [];
    var rest := xml;
    while true
      invariant ParseTokens(Scan(rest), els, stack) == Parse(xml)
      decreases |rest|
    {
      var m := Next(rest);
      if m.None? {
        break;
      }
      var (token, end) := m.value;
      rest := rest[end..];
      if token.Close? {
        stack := Pop(stack);
      } else {
        els := els + [UiEl(token.tag, Top(stack))];
        if !token.selfClosed {
          stack := stack + [|els| - 1];
        }
      }
    }
  }

  // ── Printing ─────────────────────────────────────────────────────────────

  /** A widget; `gap` is what the dump puts behind its tag. */
  datatype Node = Node(attrs: seq<(string, string)>, kids: seq<Node>, gap: string)

  function AttrText(attr: (string, string)): string {
    " " + attr.0 + "=\"" + E.Escape(attr.1) + "\""
  }

  function AttrsText(attrs: seq<(string, string)>): string {
    if attrs == [] then "" else AttrText(attrs[0]) + AttrsText(attrs[1..])
  }

  function TagText(n: Node): string {
    "<node" + AttrsText(n.attrs) + if n.kids == [] then " />" else ">"
  }

  /** A leaf closes its own tag; other widgets enclose their children. */
  function Print(n: Node): string
    decreases n, 1
  {
    TagText(n) + (if n.kids == [] then "" else PrintAll(n.kids) + "</node>") + n.gap
  }

  function PrintAll(ns: seq<Node>): string
    decreases ns, 0
  {
    if ns == [] then "" else Print(ns[0]) + PrintAll(ns[1..])
  }

  predicate Name(name: string) {
    forall c :: c in name ==> WordChar(c) || c == '-'
  }

  /** Text in which the tag expression cannot start a match, whatever follows it. */
  predicate Quiet(s: string) {
    s == ""
    || ((s[0] == '<' ==> |s| > 1 && s[1] != 'n' && (s[1] == '/' ==> |s| > 2 && s[2] != 'n')) && Quiet(s[1..]))
  }

  ghost predicate Printable(n: Node)
    decreases n, 1
  {
    (forall a :: a in n.attrs ==> Name(a.0)) && Quiet(n.gap) && AllPrintable(n.kids)
  }

  ghost predicate AllPrintable(ns: seq<Node>)
    decreases ns, 0
  {
    ns == [] || (Printable(ns[0]) && AllPrintable(ns[1..]))
  }

  function TokensOf(n: Node): seq<Token>
    decreases n, 1
  {
    if n.kids == [] then [Open(TagText(n), true)]
    else [Open(TagText(n), false)] + TokensOfAll(n.kids) + [Close]
  }

  function TokensOfAll(ns: seq<Node>): seq<Token>
    decreases ns, 0
  {
    if ns == [] then [] else TokensOf(ns[0]) + TokensOfAll(ns[1..])
  }

  /** The widgets in document order with their true parents, the first one at position `at`. */
  function Listed(n: Node, at: nat, parent: Option<nat>): seq<UiEl>
    decreases n, 1
  {
    [UiEl(TagText(n), parent)] + ListedAll(n.kids, at + 1, Some(at))
  }

  function ListedAll(ns: seq<Node>, at: nat, parent: Option<nat>): seq<UiEl>
    decreases ns, 0
  {
    if ns == [] then []
    else
      var first := Listed(ns[0], at, parent);
      first + ListedAll(ns[1..], at + |first|, parent)
  }

  // ── The tags come back ───────────────────────────────────────────────────

  lemma {:induction false} QuietIsSkipped(s: string, rest: string)
    requires Quiet(s)
    ensures Scan(s + rest) == Scan(rest)
  {
    if s == "" {
      assert s + rest == rest;
    } else {
      var all := s + rest;
      assert all[1..] == s[1..] + rest;
      assert "<node"[0] == '<' && "<node"[1] == 'n';
      assert "</node>"[0] == '<' && "</node>"[1] == '/' && "</node>"[2] == 'n';
      assert all[0] == s[0] && (|s| > 1 ==> all[1] == s[1]) && (|s| > 2 ==> all[2] == s[2]);
      SkipOne(all);
      QuietIsSkipped(s[1..], rest);
    }
  }

  lemma SkipOne(s: string)
    requires s != "" && !E.StartsWith(s, "</node>") && !OpensHere(s)
    ensures Scan(s) == Scan(s[1..])
  {
    var m := Next(s[1..]);
    if m.Some? {
      assert s[m.value.1 + 1..] == s[1..][m.value.1..];
    }
  }

  lemma {:induction false} AttrsHaveNoBracket(attrs: seq<(string, string)>)
    requires forall a :: a in attrs ==> Name(a.0)
    ensures '>' !in AttrsText(attrs)
    ensures attrs != [] ==> AttrsText(attrs)[0] == ' ' && AttrsText(attrs)[|AttrsText(attrs)| - 1] == '"'
  {
    if attrs != [] {
      assert attrs[0] in attrs;
      E.EscapeIsSafe(attrs[0].1);
      AttrsHaveNoBracket(attrs[1..]);
    }
  }

  lemma FirstBracket(a: string, b: string, rest: string)
    requires '>' !in a && '>' !in b
    ensures IndexOf(a + b + ">" + rest, '>') == |a| + |b|
  {
    var s := a + b + ">" + rest;
    assert forall j :: 0 <= j < |a| ==> a[j] in a;
    assert forall j :: 0 <= j < |b| ==> b[j] in b;
    forall j | 0 <= j < |a| + |b| ensures s[j] != '>' {
      assert s[j] == if j < |a| then a[j] else b[j - |a|];
    }
    assert s[|a| + |b|] == '>';
  }

  lemma TagEnd(n: Node, rest: string)
    requires forall a :: a in n.attrs ==> Name(a.0)
    ensures IndexOf(TagText(n) + rest, '>') == |TagText(n)| - 1
  {
    var attrs := AttrsText(n.attrs);
    AttrsHaveNoBracket(n.attrs);
    var end := if n.kids == [] then " /" else "";
    FirstBracket("<node" + attrs, end, rest);
    assert TagText(n) == "<node" + attrs + end + ">";
  }

  lemma TagCharacters(attrs: string, end: string)
    requires end == " />" || end == ">"
    ensures var tag := "<node" + attrs + end;
            && tag[5] == (if attrs == "" then end[0] else attrs[0])
            && tag[|tag| - 2] == if end == " />" then '/' else if attrs == "" then 'e' else attrs[|attrs| - 1]
  {
  }

  lemma TagEnds(n: Node)
    requires forall a :: a in n.attrs ==> Name(a.0)
    ensures var tag := TagText(n);
            && |tag| >= 6 && !WordChar(tag[5]) && (tag[|tag| - 2] == '/' <==> n.kids == [])
  {
    AttrsHaveNoBracket(n.attrs);
    var tag, attrs := TagText(n), AttrsText(n.attrs);
    TagCharacters(attrs, if n.kids == [] then " />" else ">");
  }

  lemma {:induction false} TagComesBack(n: Node, rest: string)
    requires forall a :: a in n.attrs ==> Name(a.0)
    ensures Next(TagText(n) + rest) == Some((Open(TagText(n), n.kids == []), |TagText(n)|))
  {
    TagEnd(n, rest);
    TagEnds(n);
    NextTag(TagText(n), rest, n.kids == []);
  }

  lemma NextTag(tag: string, rest: string, selfClosed: bool)
    requires |tag| >= 6 && tag[..5] == "<node" && !WordChar(tag[5]) && (tag[|tag| - 2] == '/' <==> selfClosed)
    requires IndexOf(tag + rest, '>') == |tag| - 1
    ensures Next(tag + rest) == Some((Open(tag, selfClosed), |tag|))
  {
    var s := tag + rest;
    assert s[5] == tag[5] && s[|tag| - 2] == tag[|tag| - 2];
    assert s[..5] == tag[..5];
    assert s[1] == tag[..5][1] == 'n' && "</node>"[1] == '/';
    assert s[..|tag|] == tag;
  }

  lemma CloseComesBack(rest: string)
    ensures Scan("</node>" + rest) == [Close] + Scan(rest)
  {
    assert ("</node>" + rest)[7..] == rest;
  }

  lemma {:induction false} ScanTag(n: Node, tail: string)
    requires forall a :: a in n.attrs ==> Name(a.0)
    ensures Scan(TagText(n) + tail) == [Open(TagText(n), n.kids == [])] + Scan(tail)
  {
    TagComesBack(n, tail);
    assert (TagText(n) + tail)[|TagText(n)|..] == tail;
  }

  lemma PrintParts(n: Node, rest: string)
    ensures n.kids == [] ==> Print(n) + rest == TagText(n) + (n.gap + rest)
    ensures n.kids != [] ==>
      Print(n) + rest == TagText(n) + (PrintAll(n.kids) + ("</node>" + (n.gap + rest)))
  {
    var tag, gap, kids := TagText(n), n.gap, PrintAll(n.kids);
    assert tag + "" + gap + rest == tag + (gap + rest);
    assert tag + (kids + "</node>") + gap + rest == tag + (kids + ("</node>" + (gap + rest)));
  }

  lemma {:induction false} ScanPrinted(n: Node, rest: string)
    requires Printable(n)
    ensures Scan(Print(n) + rest) == TokensOf(n) + Scan(rest)
    decreases n, 1
  {
    PrintParts(n, rest);
    assert Scan(n.gap + rest) == Scan(rest) by { QuietIsSkipped(n.gap, rest); }
    if n.kids == [] {
      ScanTag(n, n.gap + rest);
    } else {
      var tail := "</node>" + (n.gap + rest);
      ScanTag(n, PrintAll(n.kids) + tail);
      ScanAllPrinted(n.kids, tail);
      CloseComesBack(n.gap + rest);
      Enclosed(Open(TagText(n), false), TokensOfAll(n.kids), Scan(rest));
    }
  }

  lemma Enclosed(open: Token, inner: seq<Token>, rest: seq<Token>)
    ensures [open] + (inner + ([Close] + rest)) == [open] + inner + [Close] + rest
  {
  }

  lemma {:induction false} ScanAllPrinted(ns: seq<Node>, rest: string)
    requires AllPrintable(ns)
    ensures Scan(PrintAll(ns) + rest) == TokensOfAll(ns) + Scan(rest)
    decreases ns, 0
  {
    if ns == [] {
      assert PrintAll(ns) + rest == rest;
    } else {
      assert PrintAll(ns) + rest == Print(ns[0]) + (PrintAll(ns[1..]) + rest);
      ScanPrinted(ns[0], PrintAll(ns[1..]) + rest);
      ScanAllPrinted(ns[1..], rest);
    }
  }

  // ── The nesting comes back ───────────────────────────────────────────────

  lemma {:induction false} ParsePrinted(n: Node, rest: seq<Token>, els: seq<UiEl>, stack: seq<nat>)
    ensures ParseTokens(TokensOf(n) + rest, els, stack)
         == ParseTokens(rest, els + Listed(n, |els|, Top(stack)), stack)
    decreases n, 1
  {
    var el := UiEl(TagText(n), Top(stack));
    if n.kids == [] {
      assert (TokensOf(n) + rest)[1..] == rest;
      assert Listed(n, |els|, Top(stack)) == [el];
    } else {
      var inner := stack + [|els|];
      var after := [Close] + rest;
      assert (TokensOf(n) + rest)[1..] == TokensOfAll(n.kids) + after;
      ParseAllPrinted(n.kids, after, els + [el], inner);
      assert after[1..] == rest && Pop(inner) == stack;
      Assoc(els, [el], ListedAll(n.kids, |els| + 1, Some(|els|)));
    }
  }

  lemma {:induction false} ParseAllPrinted(ns: seq<Node>, rest: seq<Token>, els: seq<UiEl>, stack: seq<nat>)
    ensures ParseTokens(TokensOfAll(ns) + rest, els, stack)
         == ParseTokens(rest, els + ListedAll(ns, |els|, Top(stack)), stack)
    decreases ns, 0
  {
    if ns == [] {
      assert TokensOfAll(ns) + rest == rest && els + [] == els;
    } else {
      var first := Listed(ns[0], |els|, Top(stack));
      Assoc(TokensOf(ns[0]), TokensOfAll(ns[1..]), rest);
      ParsePrinted(ns[0], TokensOfAll(ns[1..]) + rest, els, stack);
      ParseAllPrinted(ns[1..], rest, els + first, stack);
      Assoc(els, first, ListedAll(ns[1..], |els| + |first|, Top(stack)));
    }
  }

  /**
   Parsing what was printed yields the widgets in document order with their true parents and leaves the
   stack empty, for every forest and whatever quiet text (declaration, hierarchy tag) surrounds it.
   */
  lemma ParseInvertsPrint(header: string, ns: seq<Node>, trailer: string)
    requires AllPrintable(ns) && Quiet(header) && Quiet(trailer)
    ensures Parse(header + PrintAll(ns) + trailer) == (ListedAll(ns, 0, None), [])
  {
    var text := PrintAll(ns);
    Assoc(header, text, trailer);
    QuietIsSkipped(header, text + trailer);
    ScanAllPrinted(ns, trailer);
    QuietIsSkipped(trailer, "");
    assert trailer + "" == trailer;
    assert TokensOfAll(ns) + [] == TokensOfAll(ns);
    ParseAllPrinted(ns, [], [], []);
    assert [] + ListedAll(ns, 0, None) == ListedAll(ns, 0, None);
  }

  // ── The attributes come back ─────────────────────────────────────────────

  /** The value ends in what looks like the beginning of attribute `name`. */
  predicate EndsLike(value: string, name: string) {
    var n := |name| + 2;
    && |value| >= n
    && Blank(value[|value| - n])
    && value[|value| - n + 1..] == name + "="
  }

  /** The attribute's value, as the widget has it. */
  function Value(attrs: seq<(string, string)>, name: string): string {
    if attrs == [] then "" else if attrs[0].0 == name then attrs[0].1 else Value(attrs[1..], name)
  }

  /** What is read instead when an earlier value ends like the attribute: the text up to the next quote. */
  function ValueRead(attrs: seq<(string, string)>, name: string): string {
    if attrs == [] then ""
    else if attrs[0].0 == name then attrs[0].1
    else if EndsLike(E.Escape(attrs[0].1), name) && |attrs| > 1 then " " + attrs[1].0 + "="
    else ValueRead(attrs[1..], name)
  }

  /** No value before the attribute ends like it. */
  predicate Unambiguous(attrs: seq<(string, string)>, name: string) {
    attrs == [] || attrs[0].0 == name
    || (!EndsLike(E.Escape(attrs[0].1), name) && Unambiguous(attrs[1..], name))
  }

  lemma {:induction false} SkipText(a: string, rest: string, name: string)
    requires forall i :: 0 <= i < |a| ==> !AttrHere(a[i..] + rest, name)
    ensures RawAttr(a + rest, name) == RawAttr(rest, name)
  {
    if a == "" {
      assert a + rest == rest;
    } else {
      assert a[0..] == a;
      assert (a + rest)[1..] == a[1..] + rest;
      forall i | 0 <= i < |a[1..]| ensures !AttrHere(a[1..][i..] + rest, name) {
        assert a[1..][i..] == a[i + 1..];
      }
      SkipText(a[1..], rest, name);
    }
  }

  /** What a match at position `i` of a text means character by character. */
  lemma MatchAt(s: string, i: nat, name: string)
    requires i < |s| && AttrHere(s[i..], name)
    ensures i + |name| + 2 < |s| && Blank(s[i])
    ensures s[i + |name| + 1] == '=' && s[i + |name| + 2] == '"'
    ensures forall j :: 0 <= j < |name| ==> s[i + 1 + j] == name[j]
  {
    var p, u := name + "=\"", s[i..][1..];
    assert forall j :: 0 <= j < |p| ==> u[j] == s[i + 1 + j] && u[j] == p[j];
    assert p[|name|] == '=' && p[|name| + 1] == '"';
    assert s[i + 1 + |name|] == u[|name|] && s[i + 1 + (|name| + 1)] == u[|name| + 1];
    forall j | 0 <= j < |name| ensures s[i + 1 + j] == name[j] {
      assert p[j] == name[j];
    }
  }

  lemma NamesDiffer(n: string, name: string)
    requires n != name
    ensures |n| == |name| ==> exists j :: 0 <= j < |n| && n[j] != name[j]
  {
  }

  lemma NameChars(n: string)
    requires Name(n)
    ensures forall j :: 0 <= j < |n| ==> n[j] != '=' && n[j] != '"' && n[j] != '>' && !Blank(n[j])
  {
    assert forall j :: 0 <= j < |n| ==> n[j] in n;
  }

  /** The text of an attribute, character by character. */
  lemma AttrChars(attr: (string, string), rest: string)
    requires Name(attr.0)
    ensures var s, n, e := AttrText(attr) + rest, attr.0, E.Escape(attr.1);
            && |AttrText(attr)| == |n| + |e| + 4
            && s[0] == ' ' && s[|n| + 1] == '=' && s[|n| + 2] == '"' && s[|n| + |e| + 3] == '"'
            && (forall j :: 1 <= j <= |n| ==> s[j] == n[j - 1])
            && (forall j :: |n| + 3 <= j < |n| + |e| + 3 ==> s[j] == e[j - |n| - 3] && s[j] != '"')
  {
    var e := E.Escape(attr.1);
    E.EscapeIsSafe(attr.1);
    assert forall j :: 0 <= j < |e| ==> e[j] in e;
  }

  /** Within the text of another attribute a match starts in the value and ends at its closing quote. */
  lemma MatchInside(attr: (string, string), rest: string, name: string, i: nat)
    requires Name(attr.0) && Name(name) && attr.0 != name
    requires i < |AttrText(attr)| && AttrHere((AttrText(attr) + rest)[i..], name)
    ensures i + |name| + 2 == |AttrText(attr)| - 1
    ensures i > |attr.0| + 2
  {
    var n, e := attr.0, E.Escape(attr.1);
    var s := AttrText(attr) + rest;
    var close := |n| + |e| + 3;
    AttrChars(attr, rest);
    MatchAt(s, i, name);
    NameChars(n);
    NameChars(name);
    NamesDiffer(n, name);
    assert i != 0;
    assert i > |n| + 2 && i < close;
    assert i + |name| + 2 >= close;
  }

  lemma KeySuffix(e: string, name: string)
    requires |e| >= |name| + 2 && Blank(e[|e| - |name| - 2]) && e[|e| - 1] == '='
    requires forall j :: 0 <= j < |name| ==> e[|e| - |name| - 1 + j] == name[j]
    ensures EndsLike(e, name)
  {
    assert e[|e| - |name| - 1..] == name + "=";
  }

  /** The text `e` stands in `s` from position `at` on. */
  predicate HoldsAt(s: string, at: nat, e: string) {
    at + |e| <= |s| && s[at..at + |e|] == e
  }

  /** A match that ends where the value `e` ends. */
  lemma MatchInValue(s: string, at: nat, e: string, name: string, i: nat)
    requires HoldsAt(s, at, e) && at <= i && i + |name| + 2 == at + |e| < |s| && AttrHere(s[i..], name)
    ensures EndsLike(e, name)
  {
    MatchAt(s, i, name);
    var k := i - at;
    assert forall j :: 0 <= j < |e| ==> e[j] == s[at..at + |e|][j] == s[at + j];
    assert s[i] == e[k] && s[i + |name| + 1] == e[|e| - 1];
    forall j | 0 <= j < |name| ensures e[k + 1 + j] == name[j] {
      assert e[k + 1 + j] == s[i + 1 + j];
    }
    KeySuffix(e, name);
  }

  lemma ValueStands(attr: (string, string), rest: string)
    ensures HoldsAt(AttrText(attr) + rest, |attr.0| + 3, E.Escape(attr.1))
    ensures |AttrText(attr)| == |attr.0| + 3 + |E.Escape(attr.1)| + 1
  {
  }

  lemma {:induction false} MatchNeedsKey(attr: (string, string), rest: string, name: string, i: nat)
    requires Name(attr.0) && Name(name) && attr.0 != name
    requires i < |AttrText(attr)| && AttrHere((AttrText(attr) + rest)[i..], name)
    ensures EndsLike(E.Escape(attr.1), name)
    ensures '"' in rest
  {
    ValueStands(attr, rest);
    MatchInside(attr, rest, name, i);
    MatchInValue(AttrText(attr) + rest, |attr.0| + 3, E.Escape(attr.1), name, i);
    QuoteBehind(AttrText(attr), rest, name, i);
  }

  lemma QuoteBehind(a: string, rest: string, name: string, i: nat)
    requires i + |name| + 3 == |a| && AttrHere((a + rest)[i..], name)
    ensures '"' in rest
  {
    assert (a + rest)[i..][|name| + 3..] == rest;
  }

  lemma SuffixOf(a: string, rest: string, i: nat)
    requires i <= |a|
    ensures (a + rest)[i..] == a[i..] + rest
  {
  }

  lemma SkipAttr(attr: (string, string), rest: string, name: string)
    requires Name(attr.0) && Name(name) && attr.0 != name
    requires !EndsLike(E.Escape(attr.1), name) || '"' !in rest
    ensures RawAttr(AttrText(attr) + rest, name) == RawAttr(rest, name)
  {
    var a := AttrText(attr);
    forall i | 0 <= i < |a| ensures !AttrHere(a[i..] + rest, name) {
      SuffixOf(a, rest, i);
      if AttrHere((a + rest)[i..], name) {
        MatchNeedsKey(attr, rest, name, i);
      }
    }
    SkipText(a, rest, name);
  }

  lemma QuoteEnds(e: string, rest: string)
    requires '"' !in e
    ensures var value := e + "\"" + rest; '"' in value && value[..IndexOf(value, '"')] == e
  {
    var value := e + "\"" + rest;
    assert value[|e|] == '"';
    assert forall j :: 0 <= j < |e| ==> value[j] == e[j] && e[j] in e;
    assert IndexOf(value, '"') == |e|;
  }

  /** The attribute itself is found, up to its closing quote. */
  lemma {:induction false} FindAttr(attr: (string, string), rest: string)
    requires Name(attr.0)
    ensures RawAttr(AttrText(attr) + rest, attr.0) == Some(E.Escape(attr.1))
  {
    var n, e := attr.0, E.Escape(attr.1);
    var s := AttrText(attr) + rest;
    E.EscapeIsSafe(attr.1);
    QuoteEnds(e, rest);
    assert s[1..] == (n + "=\"") + (e + "\"" + rest);
    assert s[|n| + 3..] == e + "\"" + rest;
  }

  /** The end of such a value with its closing quote is taken for the attribute. */
  lemma KeyIsFound(key: string, blank: char, name: string, tail: string)
    requires Blank(blank) && '"' in tail && key == [blank] + (name + "=") + "\""
    ensures RawAttr(key + tail, name) == Some(tail[..IndexOf(tail, '"')])
  {
    var s := key + tail;
    assert s[1..] == (name + "=\"") + tail;
    assert s[|name| + 3..] == tail;
  }

  /** Nothing is found before position `i`, so the search begins there. */
  lemma SkipUntil(a: string, tail: string, name: string, i: nat)
    requires i <= |a| && forall j :: 0 <= j < i ==> !AttrHere((a + tail)[j..], name)
    ensures RawAttr(a + tail, name) == RawAttr(a[i..] + tail, name)
  {
    var before, found := a[..i], a[i..];
    forall j | 0 <= j < |before| ensures !AttrHere(before[j..] + (found + tail), name) {
      assert before[j..] + (found + tail) == (a + tail)[j..];
    }
    SkipText(before, found + tail, name);
    assert before + (found + tail) == a + tail;
  }

  lemma AttrLength(attr: (string, string))
    ensures |AttrText(attr)| == |attr.0| + |E.Escape(attr.1)| + 4
  {
  }

  /** Nothing is found in the text of the attribute before the end of its value. */
  lemma {:induction false} QuietBeforeKey(attr: (string, string), tail: string, name: string, i: nat)
    requires Name(attr.0) && Name(name) && attr.0 != name
    requires i == |AttrText(attr)| - |name| - 3
    ensures RawAttr(AttrText(attr) + tail, name) == RawAttr(AttrText(attr)[i..] + tail, name)
  {
    forall j | 0 <= j < i ensures !AttrHere((AttrText(attr) + tail)[j..], name) {
      if AttrHere((AttrText(attr) + tail)[j..], name) {
        MatchInside(attr, tail, name, j);
      }
    }
    SkipUntil(AttrText(attr), tail, name, i);
  }

  /** A value that ends like the attribute makes the search stop at its own closing quote. */
  lemma StopsEarly(attr: (string, string), tail: string, name: string)
    requires Name(attr.0) && Name(name) && attr.0 != name
    requires EndsLike(E.Escape(attr.1), name) && '"' in tail
    ensures RawAttr(AttrText(attr) + tail, name) == Some(tail[..IndexOf(tail, '"')])
  {
    var i := |AttrText(attr)| - |name| - 3;
    AttrLength(attr);
    KeyAtEnd(attr, tail, name, i);
    QuietBeforeKey(attr, tail, name, i);
  }

  lemma {:induction false} KeyAtEnd(attr: (string, string), tail: string, name: string, i: nat)
    requires EndsLike(E.Escape(attr.1), name) && '"' in tail
    requires i == |AttrText(attr)| - |name| - 3
    ensures RawAttr(AttrText(attr)[i..] + tail, name) == Some(tail[..IndexOf(tail, '"')])
  {
    AttrLength(attr);
    ValueEnd(attr, name);
    var e := E.Escape(attr.1);
    KeyIsFound(AttrText(attr)[i..], e[|e| - (|name| + 2)], name, tail);
  }

  lemma {:induction false} ValueEnd(attr: (string, string), name: string)
    requires EndsLike(E.Escape(attr.1), name)
    ensures var e := E.Escape(attr.1);
            var k := |e| - (|name| + 2);
            AttrText(attr)[|attr.0| + 3 + k..] == [e[k]] + (name + "=") + "\""
  {
    var e, n := E.Escape(attr.1), attr.0;
    var k := |e| - (|name| + 2);
    assert AttrText(attr) == (" " + n + "=\"") + (e + "\"");
    assert AttrText(attr)[|n| + 3 + k..] == (e + "\"")[k..];
    assert (e + "\"")[k..] == e[k..] + "\"";
    assert e[k..] == [e[k]] + e[k + 1..];
  }

  lemma {:induction false} NextQuote(next: (string, string), rest: string)
    requires Name(next.0)
    ensures var tail := AttrText(next) + rest;
            var q := IndexOf(tail, '"');
            '"' in tail && tail[..q] == " " + next.0 + "="
  {
    var n := next.0;
    var tail := AttrText(next) + rest;
    AttrChars(next, rest);
    NameChars(n);
    assert tail[|n| + 2] == '"';
    assert IndexOf(tail, '"') == |n| + 2;
    assert tail[..|n| + 2] == " " + n + "=";
  }

  /** The reading of every attribute of every tag. */
  lemma {:induction false} AttrsComeBack(attrs: seq<(string, string)>, end: string, name: string)
    requires Name(name) && (forall a :: a in attrs ==> Name(a.0))
    requires '"' !in end
    ensures (match RawAttr(AttrsText(attrs) + end, name) case None => "" case Some(raw) => E.Decode(raw))
         == ValueRead(attrs, name)
  {
    if attrs == [] {
      assert AttrsText(attrs) + end == end;
      NoQuoteNoAttr(end, name);
    } else {
      var rest := AttrsText(attrs[1..]) + end;
      Assoc(AttrText(attrs[0]), AttrsText(attrs[1..]), end);
      assert attrs[0] in attrs;
      if attrs[0].0 == name {
        FindAttr(attrs[0], rest);
        E.DecodeInvertsEscape(attrs[0].1);
      } else if EndsLike(E.Escape(attrs[0].1), name) && |attrs| > 1 {
        assert attrs[1] in attrs;
        var tail := AttrsText(attrs[1..][1..]) + end;
        Assoc(AttrText(attrs[1]), AttrsText(attrs[1..][1..]), end);
        NextQuote(attrs[1], tail);
        StopsEarly(attrs[0], rest, name);
        NameDecodes(attrs[1].0);
      } else {
        if |attrs| == 1 {
          assert rest == end;
        }
        SkipAttr(attrs[0], rest, name);
        AttrsComeBack(attrs[1..], end, name);
      }
    }
  }

  lemma {:induction false} NoQuoteNoAttr(s: string, name: string)
    requires '"' !in s
    ensures RawAttr(s, name) == None
  {
    if s != "" {
      NoQuoteNoAttr(s[1..], name);
    }
  }

  lemma NameEscapes(n: string)
    requires Name(n)
    ensures E.Escape(" " + n + "=") == " " + n + "="
  {
    var s := " " + n + "=";
    assert forall i :: 0 <= i < |n| ==> n[i] in n;
    assert forall i :: 0 < i <= |n| ==> s[i] == n[i - 1];
    EscapesToItself(s);
  }

  lemma NameDecodes(n: string)
    requires Name(n)
    ensures E.Decode(" " + n + "=") == " " + n + "="
  {
    NameEscapes(n);
    E.DecodeInvertsEscape(" " + n + "=");
  }

  lemma {:induction false} EscapesToItself(s: string)
    requires forall c :: c in s ==> E.Rank(c) == |E.ORDER|
    ensures E.Escape(s) == s
  {
    if s != "" {
      assert s[0] in s;
      EscapesToItself(s[1..]);
    }
  }

  lemma TagAttr(n: Node, name: string)
    requires Name(name) && forall a :: a in n.attrs ==> Name(a.0)
    ensures Attr(TagText(n), name) == ValueRead(n.attrs, name)
  {
    var end := if n.kids == [] then " />" else ">";
    var body := AttrsText(n.attrs) + end;
    assert TagText(n) == "<node" + body;
    forall i | 0 <= i < 5 ensures !AttrHere("<node"[i..] + body, name) {
      assert ("<node"[i..] + body)[0] == "<node"[i];
    }
    SkipText("<node", body, name);
    AttrsComeBack(n.attrs, end, name);
  }

  /** Every attribute reads back as the widget's own value unless an earlier value ends like it. */
  lemma {:induction false} UnambiguousReadsBack(attrs: seq<(string, string)>, name: string)
    requires Unambiguous(attrs, name)
    ensures ValueRead(attrs, name) == Value(attrs, name)
  {
    if attrs != [] && attrs[0].0 != name {
      UnambiguousReadsBack(attrs[1..], name);
    }
  }

  lemma AttributeReadsBack(n: Node, name: string)
    requires Name(name) && (forall a :: a in n.attrs ==> Name(a.0)) && Unambiguous(n.attrs, name)
    ensures Attr(TagText(n), name) == Value(n.attrs, name)
  {
    TagAttr(n, name);
    UnambiguousReadsBack(n.attrs, name);
  }

  /** The names of the attributes that the driver looks at. */
  const LOOKED_AT := {"text", "content-desc", "resource-id", "class", "package", "clickable", "enabled", "focused"}

  /** All fields of an element are the widget's own, and the three flags mean what they say. */
  lemma FieldsReadBack(n: Node, parent: Option<nat>)
    requires forall a :: a in n.attrs ==> Name(a.0)
    requires forall name :: name in LOOKED_AT ==> Unambiguous(n.attrs, name)
    ensures var el := UiEl(TagText(n), parent);
            && el.Text() == Value(n.attrs, "text") && el.Desc() == Value(n.attrs, "content-desc")
            && el.ResId() == Value(n.attrs, "resource-id") && el.Class() == Value(n.attrs, "class")
            && el.Pkg() == Value(n.attrs, "package")
            && (el.Clickable() <==> Value(n.attrs, "clickable") == "true")
            && (el.Enabled() <==> Value(n.attrs, "enabled") != "false")
            && (el.Focused() <==> Value(n.attrs, "focused") == "true")
  {
    forall name | name in LOOKED_AT ensures Attr(TagText(n), name) == Value(n.attrs, name) {
      AttributeReadsBack(n, name);
    }
  }

  /** A widget whose text ends like the next attribute's name hides that attribute from the reader. */
  lemma {:induction false} TextCanHideClass(text: string, cls: string)
    requires EndsLike(E.Escape(text), "class")
    ensures var n := Node([("text", text), ("class", cls)], [], "");
            Value(n.attrs, "class") == cls && Attr(TagText(n), "class") == " class="
  {
    var n := Node([("text", text), ("class", cls)], [], "");
    assert forall c :: c in "text" || c in "class" ==> WordChar(c);
    TagAttr(n, "class");
    assert n.attrs[1..] == [("class", cls)];
  }

  lemma SuchATextExists(name: string)
    requires Name(name)
    ensures EndsLike(E.Escape(" " + name + "="), name)
  {
    NameChars(name);
    NameEscapes(name);
    KeySuffix(" " + name + "=", name);
  }

  // ── Parents ──────────────────────────────────────────────────────────────

  ghost predicate ParentsFirst(els: seq<UiEl>) {
    forall i :: 0 <= i < |els| && els[i].parent.Some? ==> els[i].parent.value < i
  }

  /** On every input, well formed or not, a parent stands before its children: the links have no cycle. */
  lemma {:induction false} ParentsComeFirst(tokens: seq<Token>, els: seq<UiEl>, stack: seq<nat>)
    requires ParentsFirst(els) && forall i :: 0 <= i < |stack| ==> stack[i] < |els|
    ensures ParentsFirst(ParseTokens(tokens, els, stack).0)
    decreases |tokens|
  {
    if tokens != [] {
      match tokens[0]
      case Close => ParentsComeFirst(tokens[1..], els, Pop(stack));
      case Open(tag, selfClosed) =>
        ParentsComeFirst(tokens[1..], els + [UiEl(tag, Top(stack))],
                         if selfClosed then stack else stack + [|els|]);
    }
  }

  lemma ParseIsAcyclic(xml: string)
    ensures ParentsFirst(Parse(xml).0)
  {
    ParentsComeFirst(Scan(xml), [], []);
  }

  /** The element, its parent, its grandparent and so on. */
  function Ancestry(els: seq<UiEl>, i: nat): (chain: seq<nat>)
    requires ParentsFirst(els) && i < |els|
    ensures chain != [] && chain[0] == i
    ensures forall k :: 0 <= k < |chain| ==> chain[k] < |els|
  {
    [i] + if els[i].parent.None? then [] else Ancestry(els, els[i].parent.value)
  }

  /** The nearest clickable element on the way up, or the element itself when there is none. */
  method ClickTarget(els: seq<UiEl>, i: nat) returns (r: nat)
    requires ParentsFirst(els) && i < |els|
    ensures (exists k :: 0 <= k < |Ancestry(els, i)| && IsNearest(els, Ancestry(els, i), k) && r == Ancestry(els, i)[k])
         || ((forall k :: 0 <= k < |Ancestry(els, i)| ==> !els[Ancestry(els, i)[k]].Clickable()) && r == i)
  {
    var t: Option<nat> := Some(i);
    ghost var chain, n := Ancestry(els, i), 0;
    while t.Some? && !els[t.value].Clickable()
      invariant t.Some? ==> t.value < |els| && n < |chain| && chain[n..] == Ancestry(els, t.value)
      invariant t.None? ==> n == |chain|
      invariant n <= |chain| && forall k :: 0 <= k < n ==> !els[chain[k]].Clickable()
      decreases if t.Some? then t.value + 1 else 0
    {
      assert chain[n] == chain[n..][0];
      assert chain[n + 1..] == chain[n..][1..];
      t := els[t.value].parent;
      n := n + 1;
    }
    if t.Some? {
      assert chain[n] == chain[n..][0] == t.value;
      assert IsNearest(els, chain, n);
      r := t.value;
    } else {
      r := i;
    }
  }

  predicate IsNearest(els: seq<UiEl>, chain: seq<nat>, k: nat)
    requires k < |chain| && forall j :: 0 <= j < |chain| ==> chain[j] < |els|
  {
    els[chain[k]].Clickable() && forall j :: 0 <= j < k ==> !els[chain[j]].Clickable()
  }

  // ── Children ─────────────────────────────────────────────────────────────

  function ParentsOf(els: seq<UiEl>): (r: seq<Option<nat>>)
    ensures |r| == |els| && forall i :: 0 <= i < |els| ==> r[i] == els[i].parent
  {
    seq(|els|, i requires 0 <= i < |els| => els[i].parent)
  }

  /** The positions whose parent is `p`, in document order. */
  function KidsOf(parents: seq<Option<nat>>, p: nat): seq<nat> {
    if parents == [] then []
    else
      var n := |parents| - 1;
      KidsOf(parents[..n], p) + if parents[n] == Some(p) then [n] else []
  }

  lemma KidsOfAppend(parents: seq<Option<nat>>, parent: Option<nat>, p: nat)
    ensures KidsOf(parents + [parent], p) == KidsOf(parents, p) + if parent == Some(p) then [|parents|] else []
  {
    assert (parents + [parent])[..|parents|] == parents;
  }

  lemma {:induction false} NoKidsYet(parents: seq<Option<nat>>, p: nat)
    requires |parents| <= p + 1 && forall i :: 0 <= i < |parents| && parents[i].Some? ==> parents[i].value < i
    ensures KidsOf(parents, p) == []
  {
    if parents != [] {
      NoKidsYet(parents[..|parents| - 1], p);
    }
  }

  /** Every node's list of children is the list of nodes that have it as parent. */
  ghost predicate ChildrenMatch(parents: seq<Option<nat>>, children: seq<seq<nat>>) {
    |children| == |parents| && forall p :: 0 <= p < |children| ==> children[p] == KidsOf(parents, p)
  }

  /** One more node, appended to its parent's children. */
  lemma AppendKeepsMatch(parents: seq<Option<nat>>, children: seq<seq<nat>>, parent: Option<nat>)
    requires ChildrenMatch(parents, children)
    requires forall i :: 0 <= i < |parents| && parents[i].Some? ==> parents[i].value < i
    requires parent.Some? ==> parent.value < |parents|
    ensures var grown := if parent.None? then children
                         else children[parent.value := children[parent.value] + [|parents|]];
            ChildrenMatch(parents + [parent], grown + [[]])
  {
    var grown := if parent.None? then children
                 else children[parent.value := children[parent.value] + [|parents|]];
    forall p | 0 <= p <= |parents| ensures (grown + [[]])[p] == KidsOf(parents + [parent], p) {
      KidsOfAppend(parents, parent, p);
      if p == |parents| {
        NoKidsYet(parents, p);
      }
    }
  }

  /** One more node, its stack and its parent: the parse goes on from there. */
  lemma OneMoreNode(tokens: seq<Token>, i: nat, els: seq<UiEl>, stack: seq<nat>)
    requires i < |tokens| && tokens[i].Open? && ParentsFirst(els)
    requires forall k :: 0 <= k < |stack| ==> stack[k] < |els|
    ensures var more, rest := els + [UiEl(tokens[i].tag, Top(stack))], if tokens[i].selfClosed then stack else stack + [|els|];
            && ParseTokens(tokens[i + 1..], more, rest) == ParseTokens(tokens[i..], els, stack)
            && ParentsFirst(more) && ParentsOf(more) == ParentsOf(els) + [Top(stack)]
            && forall k :: 0 <= k < |rest| ==> rest[k] < |more|
  {
    assert tokens[i..][0] == tokens[i] && tokens[i..][1..] == tokens[i + 1..];
  }

  method AddNode(parents: seq<Option<nat>>, children: seq<seq<nat>>, parent: Option<nat>) returns (grown: seq<seq<nat>>)
    requires ChildrenMatch(parents, children)
    requires forall i :: 0 <= i < |parents| && parents[i].Some? ==> parents[i].value < i
    requires parent.Some? ==> parent.value < |parents|
    ensures ChildrenMatch(parents + [parent], grown)
  {
    AppendKeepsMatch(parents, children, parent);
    grown := children;
    if parent.Some? {
      grown := children[parent.value := children[parent.value] + [|parents|]];
    }
    grown := grown + [[]];
  }

  /** The profile reader's parser: same nesting, and each node is appended to its parent's list of children. */
  method ParseUiTree(tokens: seq<Token>) returns (parents: seq<Option<nat>>, children: seq<seq<nat>>)
    ensures parents == ParentsOf(ParseTokens(tokens, [], []).0)
    ensures ChildrenMatch(parents, children)
  {
    parents, children := [], [];
    ghost var els: seq<UiEl> := [];
    var stack: seq<nat> := [];
    assert tokens[0..] == tokens;
    for i := 0 to |tokens|
      invariant ParseTokens(tokens[i..], els, stack) == ParseTokens(tokens, [], [])
      invariant ParentsFirst(els) && parents == ParentsOf(els)
      invariant forall k :: 0 <= k < |stack| ==> stack[k] < |parents|
      invariant ChildrenMatch(parents, children)
    {
      if tokens[i].Close? {
        assert tokens[i..][0] == tokens[i] && tokens[i..][1..] == tokens[i + 1..];
        stack := Pop(stack);
      } else {
        var n, parent := |parents|, Top(stack);
        OneMoreNode(tokens, i, els, stack);
        children := AddNode(parents, children, parent);
        els := els + [UiEl(tokens[i].tag, parent)];
        parents := parents + [parent];
        if !tokens[i].selfClosed {
          stack := stack + [n];
        }
      }
    }
  }
}
